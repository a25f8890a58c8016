/**
 * substitute_template: record values are prepared (falsy values become '', a '$' in a
 * truthy value's text is doubled) and then handed to safe_substitute.
 */
module Substitution {
  import opened Wrappers
  import opened Json
  import opened Pep292

  /** The value substitute_template stores in safe_data for one record value. */
  function SafeValue(v: Value): (r: Value)
    ensures Str(r) == if Truthy(v) then DoubleDollars(Str(v)) else ""
    ensures Truthy(r) == Truthy(v)
  {
    if Truthy(v) && '$' in Str(v) then VStr(DoubleDollars(Str(v)))
    else if Truthy(v) then v
    else VStr("")
  }

  /** safe_data: the record's keys, in order, each with its prepared value. */
  function SafeData(data: Fields): (r: Fields)
    ensures |r| == |data|
    ensures forall i :: 0 <= i < |data| ==> r[i].0 == data[i].0 && r[i].1 == SafeValue(data[i].1)
  {
    if data == [] then [] else [(data[0].0, SafeValue(data[0].1))] + SafeData(data[1..])
  }

  /** safe_data holds exactly the keys of the record, each mapped to its prepared value. */
  lemma {:induction false} LookupSafeData(data: Fields, key: string)
    ensures Lookup(SafeData(data), key)
         == match Lookup(data, key) case Some(v) => Some(SafeValue(v)) case None => None
  {
    if data != [] && data[0].0 != key {
      LookupSafeData(data[1..], key);
      assert SafeData(data)[1..] == SafeData(data[1..]);
    }
  }

  /** substitute_template: fills safe_data in a loop, then calls safe_substitute. */
  method SubstituteTemplate(template: string, data: Fields) returns (out: string)
    ensures out == SafeSubstitute(template, SafeData(data))
  {
    var safe: Fields := [];
    var i := 0;
    while i < |data|
      invariant 0 <= i <= |data|
      invariant |safe| == i
      invariant forall j :: 0 <= j < i ==> safe[j] == (data[j].0, SafeValue(data[j].1))
    {
      var (key, value) := data[i];
      if Truthy(value) && '$' in Str(value) {
        safe := safe + [(key, VStr(DoubleDollars(Str(value))))];
      } else {
        safe := safe + [(key, if Truthy(value) then value else VStr(""))];
      }
      i := i + 1;
    }
    assert safe == SafeData(data);
    out := SafeSubstitute(template, safe);
  }

  /**
   * "$name" for a record field: a falsy value gives '', a truthy value gives its text
   * with every '$' doubled (substituted text is not scanned again, so the doubling
   * stays); a key the record lacks leaves "$name" as written.
   */
  lemma SubstituteField(name: string, b: string, data: Fields)
    requires IsIdentifier(name)
    requires b == [] || !IsIdentChar(b[0])
    ensures SafeSubstitute("$" + name + b, SafeData(data))
         == (match Lookup(data, name)
             case Some(v) => if Truthy(v) then DoubleDollars(Str(v)) else ""
             case None => "$" + name)
            + SafeSubstitute(b, SafeData(data))
  {
    LookupSafeData(data, name);
    NamedPlaceholder(name, b, SafeData(data));
  }

  /** "${name}" for a record field, the same as "$name" but with nothing asked of what follows. */
  lemma SubstituteBracedField(name: string, b: string, data: Fields)
    requires IsIdentifier(name)
    ensures SafeSubstitute("${" + name + "}" + b, SafeData(data))
         == (match Lookup(data, name)
             case Some(v) => if Truthy(v) then DoubleDollars(Str(v)) else ""
             case None => "${" + name + "}")
            + SafeSubstitute(b, SafeData(data))
  {
    LookupSafeData(data, name);
    BracedPlaceholder(name, b, SafeData(data));
  }

  /**
   * A '$' in a record value reaches the output twice: with price "$5", "$price" gives
   * "$$5". The placeholder's output differs from the record's text.
   */
  lemma DollarShowsTwice(name: string, text: string)
    requires IsIdentifier(name)
    requires '$' in text
    ensures SafeSubstitute("$" + name, SafeData([(name, VStr(text))])) == DoubleDollars(text)
    ensures SafeSubstitute("$" + name, SafeData([(name, VStr(text))])) != text
  {
    var data := [(name, VStr(text))];
    SubstituteField(name, "", data);
    assert "$" + name + "" == "$" + name;
  }

  /** The prepared value the doubling was meant for: falsy values become '', others stay as they are. */
  function IntendedValue(v: Value): (r: Value)
    ensures Str(r) == if Truthy(v) then Str(v) else ""
  {
    if Truthy(v) then v else VStr("")
  }

  function IntendedData(data: Fields): (r: Fields)
    ensures |r| == |data|
    ensures forall i :: 0 <= i < |data| ==> r[i].0 == data[i].0 && r[i].1 == IntendedValue(data[i].1)
  {
    if data == [] then [] else [(data[0].0, IntendedValue(data[0].1))] + IntendedData(data[1..])
  }

  lemma {:induction false} LookupIntendedData(data: Fields, key: string)
    ensures Lookup(IntendedData(data), key)
         == match Lookup(data, key) case Some(v) => Some(IntendedValue(v)) case None => None
  {
    if data != [] && data[0].0 != key {
      LookupIntendedData(data[1..], key);
      assert IntendedData(data)[1..] == IntendedData(data[1..]);
    }
  }

  /** Without the doubling, "$name" shows a truthy value's text exactly as the record holds it. */
  lemma IntendedField(name: string, b: string, data: Fields)
    requires IsIdentifier(name)
    requires b == [] || !IsIdentChar(b[0])
    ensures SafeSubstitute("$" + name + b, IntendedData(data))
         == (match Lookup(data, name)
             case Some(v) => if Truthy(v) then Str(v) else ""
             case None => "$" + name)
            + SafeSubstitute(b, IntendedData(data))
  {
    LookupIntendedData(data, name);
    NamedPlaceholder(name, b, IntendedData(data));
  }

  /** With the intended preparation the same placeholder gives the record's text: "$price" gives "$5". */
  lemma DollarShowsOnce(name: string, text: string)
    requires IsIdentifier(name)
    requires text != []
    ensures SafeSubstitute("$" + name, IntendedData([(name, VStr(text))])) == text
  {
    var data := [(name, VStr(text))];
    IntendedField(name, "", data);
    assert "$" + name + "" == "$" + name;
  }

  /** "${name}" under the intended preparation. */
  lemma IntendedBracedField(name: string, b: string, data: Fields)
    requires IsIdentifier(name)
    ensures SafeSubstitute("${" + name + "}" + b, IntendedData(data))
         == (match Lookup(data, name)
             case Some(v) => if Truthy(v) then Str(v) else ""
             case None => "${" + name + "}")
            + SafeSubstitute(b, IntendedData(data))
  {
    LookupIntendedData(data, name);
    BracedPlaceholder(name, b, IntendedData(data));
  }

  /** substitute_template with the doubling dropped: the corrected preparation loop. */
  method SubstituteTemplateIntended(template: string, data: Fields) returns (out: string)
    ensures out == SafeSubstitute(template, IntendedData(data))
  {
    var safe: Fields := [];
    var i := 0;
    while i < |data|
      invariant 0 <= i <= |data|
      invariant |safe| == i
      invariant forall j :: 0 <= j < i ==> safe[j] == (data[j].0, IntendedValue(data[j].1))
    {
      var (key, value) := data[i];
      safe := safe + [(key, if Truthy(value) then value else VStr(""))];
      i := i + 1;
    }
    assert safe == IntendedData(data);
    out := SafeSubstitute(template, safe);
  }

  /** When no truthy value shows a '$', the code as written and the corrected preparation agree. */
  lemma NoDollarsNoDifference(data: Fields)
    requires forall i :: 0 <= i < |data| && Truthy(data[i].1) ==> '$' !in Str(data[i].1)
    ensures SafeData(data) == IntendedData(data)
  {
    forall i | 0 <= i < |data|
      ensures SafeData(data)[i] == IntendedData(data)[i]
    {
    }
  }
}
