/**
 * string.Template.safe_substitute as PEP 292 documents it, over the default pattern:
 * "$$" is an escaped dollar; "$name" and "${name}" are placeholders, where a name is an
 * ASCII identifier [_a-zA-Z][_a-zA-Z0-9]*; a placeholder whose name is not in the
 * mapping, and any other "$", is kept as written. Text that was substituted in is never
 * scanned again.
 */
module Pep292 {
  import opened Wrappers
  import opened Json

  predicate IsIdentStart(c: char)
  {
    c == '_' || 'a' <= c <= 'z' || 'A' <= c <= 'Z'
  }

  predicate IsIdentChar(c: char)
  {
    IsIdentStart(c) || '0' <= c <= '9'
  }

  /** A name a placeholder can refer to. */
  predicate IsIdentifier(s: string)
  {
    s != [] && IsIdentStart(s[0]) && forall k :: 0 < k < |s| ==> IsIdentChar(s[k])
  }

  /** Length of the longest run of identifier characters at the front of s. */
  function IdentRun(s: string): (n: nat)
    ensures n <= |s|
    ensures forall k :: 0 <= k < n ==> IsIdentChar(s[k])
    ensures n < |s| ==> !IsIdentChar(s[n])
  {
    if s == [] || !IsIdentChar(s[0]) then 0 else 1 + IdentRun(s[1..])
  }

  /** What "$name" becomes: the value's str(), or the placeholder itself for a missing key. */
  function Named(name: string, m: Fields): string
  {
    match Lookup(m, name)
    case Some(v) => Str(v)
    case None => "$" + name
  }

  /** What "${name}" becomes. */
  function Braced(name: string, m: Fields): string
  {
    match Lookup(m, name)
    case Some(v) => Str(v)
    case None => "${" + name + "}"
  }

  /** Template(t).safe_substitute(m), scanning t from left to right. */
  function SafeSubstitute(t: string, m: Fields): string
    decreases |t|
  {
    if t == [] then []
    else if t[0] != '$' then [t[0]] + SafeSubstitute(t[1..], m)
    else if |t| >= 2 && t[1] == '$' then "$" + SafeSubstitute(t[2..], m)
    else if |t| >= 2 && IsIdentStart(t[1]) then
      var n := 1 + IdentRun(t[2..]);
      Named(t[1..1 + n], m) + SafeSubstitute(t[1 + n..], m)
    else if |t| >= 4 && t[1] == '{' && IsIdentStart(t[2])
            && 3 + IdentRun(t[3..]) < |t| && t[3 + IdentRun(t[3..])] == '}' then
      var n := 1 + IdentRun(t[3..]);
      Braced(t[2..2 + n], m) + SafeSubstitute(t[3 + n..], m)
    else "$" + SafeSubstitute(t[1..], m)
  }

  /** A template without "$" comes back unchanged, whatever the mapping. */
  lemma {:induction false} NoDollarUnchanged(t: string, m: Fields)
    requires '$' !in t
    ensures SafeSubstitute(t, m) == t
  {
    if t != [] {
      assert '$' !in t[1..];
      NoDollarUnchanged(t[1..], m);
    }
  }

  /** Text without "$" in front of the rest passes through, and the rest is substituted on its own. */
  lemma {:induction false} PlainPrefix(a: string, b: string, m: Fields)
    requires '$' !in a
    ensures SafeSubstitute(a + b, m) == a + SafeSubstitute(b, m)
  {
    if a != [] {
      var tail := SafeSubstitute(b, m);
      var rest := SafeSubstitute(a[1..] + b, m);
      assert SafeSubstitute(a + b, m) == [a[0]] + rest by {
        assert (a + b)[0] == a[0] && a[0] != '$';
        assert (a + b)[1..] == a[1..] + b;
      }
      assert rest == a[1..] + tail by {
        assert '$' !in a[1..];
        PlainPrefix(a[1..], b, m);
      }
      assert [a[0]] + (a[1..] + tail) == a + tail by {
        assert [a[0]] + a[1..] == a;
      }
    } else {
      assert a + b == b;
    }
  }

  /** Every "$" doubled, as substitute_template escapes values. */
  function DoubleDollars(s: string): (r: string)
    ensures |r| >= |s|
    ensures '$' !in s ==> r == s
    ensures '$' in s ==> r != s
  {
    if s == [] then []
    else if s[0] == '$' then "$$" + DoubleDollars(s[1..])
    else [s[0]] + DoubleDollars(s[1..])
  }

  /** Substitution turns a doubled text back into the original: "$$" is the escape for "$". */
  lemma {:induction false} SubstituteUndoesDoubling(s: string, m: Fields)
    ensures SafeSubstitute(DoubleDollars(s), m) == s
  {
    if s != [] {
      SubstituteUndoesDoubling(s[1..], m);
      var d := DoubleDollars(s[1..]);
      if s[0] == '$' {
        assert ("$$" + d)[2..] == d;
      } else {
        assert ([s[0]] + d)[1..] == d;
      }
    }
  }

  /** The run of identifier characters at the front of name + b is exactly name when b does not continue it. */
  lemma {:induction false} IdentRunOf(name: string, b: string)
    requires forall k :: 0 <= k < |name| ==> IsIdentChar(name[k])
    requires b == [] || !IsIdentChar(b[0])
    ensures IdentRun(name + b) == |name|
  {
    if name == [] {
      assert name + b == b;
    } else {
      assert (name + b)[0] == name[0];
      assert (name + b)[1..] == name[1..] + b;
      IdentRunOf(name[1..], b);
    }
  }

  /**
   * "$name" followed by text that does not continue the name becomes the str() of the
   * mapped value, or stays "$name" when the key is missing; the value is not scanned again.
   */
  lemma NamedPlaceholder(name: string, b: string, m: Fields)
    requires IsIdentifier(name)
    requires b == [] || !IsIdentChar(b[0])
    ensures SafeSubstitute("$" + name + b, m)
         == (match Lookup(m, name) case Some(v) => Str(v) case None => "$" + name)
            + SafeSubstitute(b, m)
  {
    var t := "$" + name + b;
    assert t[2..] == name[1..] + b;
    IdentRunOf(name[1..], b);
    assert t[1..1 + |name|] == name;
    assert t[1 + |name|..] == b;
  }

  /** "${name}" becomes the str() of the mapped value, or stays "${name}" when the key is missing. */
  lemma BracedPlaceholder(name: string, b: string, m: Fields)
    requires IsIdentifier(name)
    ensures SafeSubstitute("${" + name + "}" + b, m)
         == (match Lookup(m, name) case Some(v) => Str(v) case None => "${" + name + "}")
            + SafeSubstitute(b, m)
  {
    var t := "${" + name + "}" + b;
    assert t[3..] == name[1..] + ("}" + b);
    IdentRunOf(name[1..], "}" + b);
    assert t[3 + IdentRun(t[3..])] == '}';
    assert t[2..2 + |name|] == name;
    assert t[3 + |name|..] == b;
  }

  /** Two mappings that agree on every identifier give the same result for every template. */
  lemma {:induction false} OnlyIdentifiersMatter(t: string, m1: Fields, m2: Fields)
    requires forall name :: IsIdentifier(name) ==> Lookup(m1, name) == Lookup(m2, name)
    ensures SafeSubstitute(t, m1) == SafeSubstitute(t, m2)
    decreases |t|
  {
    if t == [] {
    } else if t[0] != '$' {
      OnlyIdentifiersMatter(t[1..], m1, m2);
    } else if |t| >= 2 && t[1] == '$' {
      OnlyIdentifiersMatter(t[2..], m1, m2);
    } else if |t| >= 2 && IsIdentStart(t[1]) {
      var n := 1 + IdentRun(t[2..]);
      assert IsIdentifier(t[1..1 + n]);
      OnlyIdentifiersMatter(t[1 + n..], m1, m2);
    } else if |t| >= 4 && t[1] == '{' && IsIdentStart(t[2])
              && 3 + IdentRun(t[3..]) < |t| && t[3 + IdentRun(t[3..])] == '}' {
      var n := 1 + IdentRun(t[3..]);
      assert IsIdentifier(t[2..2 + n]);
      OnlyIdentifiersMatter(t[3 + n..], m1, m2);
    } else {
      OnlyIdentifiersMatter(t[1..], m1, m2);
    }
  }

  /**
   * A key that is not an ASCII identifier (such as "номер" or "invoice-id") can never be
   * reached by a placeholder: a field under it, wherever it stands among the other fields,
   * changes no template's result.
   */
  lemma UnreachableKey(t: string, m1: Fields, key: string, v: Value, m2: Fields)
    requires !IsIdentifier(key)
    ensures SafeSubstitute(t, m1 + [(key, v)] + m2) == SafeSubstitute(t, m1 + m2)
  {
    forall name | IsIdentifier(name)
      ensures Lookup(m1 + [(key, v)] + m2, name) == Lookup(m1 + m2, name)
    {
      LookupInsert(m1, key, v, m2, name);
    }
    OnlyIdentifiersMatter(t, m1 + [(key, v)] + m2, m1 + m2);
  }

  /**
   * A '$' that starts no placeholder, including one at the very end, is kept: it is
   * followed by nothing, or by a character that is not '$', '{' or an identifier start.
   */
  lemma StrayDollarKept(b: string, m: Fields)
    requires b == [] || (b[0] != '$' && b[0] != '{' && !IsIdentStart(b[0]))
    ensures SafeSubstitute("$" + b, m) == "$" + SafeSubstitute(b, m)
  {
    assert ("$" + b)[1..] == b;
  }

  /** "${" not followed by an identifier start is kept as written. */
  lemma BadBraceKept(b: string, m: Fields)
    requires b == [] || !IsIdentStart(b[0])
    ensures SafeSubstitute("${" + b, m) == "${" + SafeSubstitute(b, m)
  {
    var t := "${" + b;
    assert t[1..] == "{" + b;
    assert t[1..][1..] == b;
  }

  /** A '$' that starts no escape and no placeholder is copied and the scan goes on after it. */
  lemma DollarFallsThrough(t: string, m: Fields)
    requires |t| >= 2 && t[0] == '$' && t[1] != '$' && !IsIdentStart(t[1])
    requires !(|t| >= 4 && t[1] == '{' && IsIdentStart(t[2])
               && 3 + IdentRun(t[3..]) < |t| && t[3 + IdentRun(t[3..])] == '}')
    ensures SafeSubstitute(t, m) == "$" + SafeSubstitute(t[1..], m)
  {
  }

  /** After "${name", a character other than '}' and other than an identifier character ends the braced form. */
  lemma UnclosedNotBraced(name: string, b: string)
    requires IsIdentifier(name)
    requires b == [] || (!IsIdentChar(b[0]) && b[0] != '}')
    ensures var t := "${" + name + b;
      !(|t| >= 4 && t[1] == '{' && IsIdentStart(t[2])
        && 3 + IdentRun(t[3..]) < |t| && t[3 + IdentRun(t[3..])] == '}')
  {
    var t := "${" + name + b;
    assert t[3..] == name[1..] + b;
    IdentRunOf(name[1..], b);
    assert 3 + IdentRun(t[3..]) < |t| ==> t[3 + IdentRun(t[3..])] == b[0];
  }

  lemma UnclosedDollarStep(name: string, b: string, m: Fields)
    requires IsIdentifier(name)
    requires b == [] || (!IsIdentChar(b[0]) && b[0] != '}')
    ensures SafeSubstitute("${" + name + b, m) == "$" + SafeSubstitute("{" + name + b, m)
  {
    var t := "${" + name + b;
    UnclosedNotBraced(name, b);
    DollarFallsThrough(t, m);
    assert t[1..] == "{" + name + b;
  }

  /** "${name" that is not closed right after the name is kept as written, name and all. */
  lemma UnclosedBraceKept(name: string, b: string, m: Fields)
    requires IsIdentifier(name)
    requires b == [] || (!IsIdentChar(b[0]) && b[0] != '}')
    ensures SafeSubstitute("${" + name + b, m) == "${" + name + SafeSubstitute(b, m)
  {
    var rest := SafeSubstitute(b, m);
    var inner := SafeSubstitute("{" + name + b, m);
    UnclosedDollarStep(name, b, m);
    PlainPrefix("{" + name, b, m);
    assert inner == "{" + name + rest;
    BraceRegroup(name, rest);
  }

  lemma BraceRegroup(name: string, rest: string)
    ensures "$" + ("{" + name + rest) == "${" + name + rest
  {
  }
}
