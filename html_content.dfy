/**
 * create_html_content: a two-row HTML table of every key and value of the record, built
 * with html.escape(quote=True), added to a copy of the record as table_content, and the
 * result handed to substitute_template.
 */
module HtmlContent {
  import opened Wrappers
  import opened Json
  import opened Pep292
  import opened Substitution

  /** The entity html.escape(s, quote=True) writes for each of the five characters it replaces. */
  const Entities: map<char, string> :=
    map['&' := "&amp;", '<' := "&lt;", '>' := "&gt;", '"' := "&quot;", '\'' := "&#x27;"]

  /** html.escape(s, quote=True) for one character. */
  function EscapeChar(c: char): string
  {
    if c in Entities then Entities[c] else [c]
  }

  predicate Special(c: char)
  {
    c == '&' || c == '<' || c == '>' || c == '"' || c == '\''
  }

  /** html.escape(s, quote=True). */
  function HtmlEscape(s: string): string
  {
    if s == [] then [] else EscapeChar(s[0]) + HtmlEscape(s[1..])
  }

  /** No markup character survives escaping. */
  lemma {:induction false} EscapedHasNoMarkup(s: string)
    ensures forall k :: 0 <= k < |HtmlEscape(s)| ==> var c := HtmlEscape(s)[k]; c != '<' && c != '>' && c != '"' && c != '\''
  {
    if s != [] {
      EscapedHasNoMarkup(s[1..]);
      var e, rest := EscapeChar(s[0]), HtmlEscape(s[1..]);
      assert HtmlEscape(s) == e + rest;
      forall k | 0 <= k < |e + rest|
        ensures (e + rest)[k] != '<' && (e + rest)[k] != '>' && (e + rest)[k] != '"' && (e + rest)[k] != '\''
      {
        if k >= |e| {
          assert (e + rest)[k] == rest[k - |e|];
        }
      }
    }
  }

  /** Text without any of the five special characters is left as it is. */
  lemma {:induction false} EscapePlainText(s: string)
    requires forall k :: 0 <= k < |s| ==> !Special(s[k])
    ensures HtmlEscape(s) == s
  {
    if s != [] {
      EscapePlainText(s[1..]);
      assert [s[0]] + s[1..] == s;
    }
  }

  /** The character an entity stands for and the length of its name, when s starts with one (after the '&'). */
  function EntityAt(s: string): Option<(char, nat)>
  {
    if "amp;" <= s then Some(('&', 4))
    else if "lt;" <= s then Some(('<', 3))
    else if "gt;" <= s then Some(('>', 3))
    else if "quot;" <= s then Some(('"', 5))
    else if "#x27;" <= s then Some(('\'', 5))
    else None
  }

  /** Reading the five entities back; anything else is kept. */
  function HtmlUnescape(s: string): string
    decreases |s|
  {
    if s == [] then []
    else if s[0] == '&' then
      match EntityAt(s[1..])
      case Some((c, n)) => [c] + HtmlUnescape(s[1 + n..])
      case None => "&" + HtmlUnescape(s[1..])
    else [s[0]] + HtmlUnescape(s[1..])
  }

  /** Unescaping the escape of one character gives that character back, whatever follows. */
  lemma UnescapeEscapeChar(c: char, rest: string)
    ensures HtmlUnescape(EscapeChar(c) + rest) == [c] + HtmlUnescape(rest)
  {
    var s := EscapeChar(c) + rest;
    if Special(c) {
      var name := EscapeChar(c)[1..];
      assert s[0] == '&' && s[1..] == name + rest;
      assert EntityAt(name + rest) == Some((c, |name|)) by {
        assert name <= name + rest;
        assert (name + rest)[0] == name[0];
      }
      assert s[1 + |name|..] == rest;
    } else {
      assert s[0] == c && s[1..] == rest;
    }
  }

  /** Escaping loses nothing: unescaping gives the text back. */
  lemma {:induction false} UnescapeEscape(s: string)
    ensures HtmlUnescape(HtmlEscape(s)) == s
  {
    if s != [] {
      UnescapeEscape(s[1..]);
      UnescapeEscapeChar(s[0], HtmlEscape(s[1..]));
      assert [s[0]] + s[1..] == s;
    }
  }

  lemma EscapeInjective(a: string, b: string)
    requires HtmlEscape(a) == HtmlEscape(b)
    ensures a == b
  {
    UnescapeEscape(a);
    UnescapeEscape(b);
  }

  /** The text of a value cell: empty for a falsy value, otherwise its escaped str(). */
  function CellText(v: Value): string
  {
    if Truthy(v) then HtmlEscape(Str(v)) else ""
  }

  const HeaderOpen := "    <th>"
  const HeaderClose := "</th>\n"
  const DataOpen := "    <td>"
  const DataClose := "</td>\n"

  /** One cell per text, in order, each text between the opening and the closing tag. */
  function Cells(open: string, close: string, texts: seq<string>): string
  {
    if texts == [] then "" else open + texts[0] + close + Cells(open, close, texts[1..])
  }

  function HeaderTexts(data: Fields): (r: seq<string>)
    ensures |r| == |data| && forall i :: 0 <= i < |data| ==> r[i] == HtmlEscape(data[i].0)
  {
    seq(|data|, i requires 0 <= i < |data| => HtmlEscape(data[i].0))
  }

  function ValueTexts(data: Fields): (r: seq<string>)
    ensures |r| == |data| && forall i :: 0 <= i < |data| ==> r[i] == CellText(data[i].1)
  {
    seq(|data|, i requires 0 <= i < |data| => CellText(data[i].1))
  }

  const TableHead := "<table>\n<thead>\n<tr>\n"
  const TableMiddle := "</tr>\n</thead>\n<tbody>\n<tr>\n"
  const TableTail := "</tr>\n</tbody>\n</table>\n"

  /** The table: a header row with one <th> per key and a row with one <td> per value. */
  function TableHtml(data: Fields): string
  {
    TableHead + Cells(HeaderOpen, HeaderClose, HeaderTexts(data))
    + TableMiddle + Cells(DataOpen, DataClose, ValueTexts(data)) + TableTail
  }

  lemma {:induction false} CellsSnoc(open: string, close: string, texts: seq<string>, t: string)
    ensures Cells(open, close, texts + [t]) == Cells(open, close, texts) + (open + t + close)
  {
    if texts == [] {
      assert texts + [t] == [t];
    } else {
      assert (texts + [t])[1..] == texts[1..] + [t];
      CellsSnoc(open, close, texts[1..], t);
    }
  }

  /** Cells of a prefix one longer: the cells so far plus one more cell. */
  lemma CellsPrefixStep(open: string, close: string, texts: seq<string>, j: nat)
    requires j < |texts|
    ensures Cells(open, close, texts[..j + 1]) == Cells(open, close, texts[..j]) + (open + texts[j] + close)
  {
    assert texts[..j + 1] == texts[..j] + [texts[j]];
    CellsSnoc(open, close, texts[..j], texts[j]);
  }

  lemma AppendAssoc(a: string, b: string, c: string)
    ensures a + b + c == a + (b + c)
  {
  }

  /** The table-building part of create_html_content. */
  method BuildTable(data: Fields) returns (table: string)
    ensures table == TableHtml(data)
  {
    table := TableHead;
    table := AppendHeaderCells(table, data);
    table := table + TableMiddle;
    table := AppendValueCells(table, data);
    table := table + TableTail;
  }

  /** The first loop of create_html_content: one <th> cell per key, in dict order. */
  method AppendHeaderCells(start: string, data: Fields) returns (table: string)
    ensures table == start + Cells(HeaderOpen, HeaderClose, HeaderTexts(data))
  {
    table := start;
    var i := 0;
    while i < |data|
      invariant 0 <= i <= |data|
      invariant table == start + Cells(HeaderOpen, HeaderClose, HeaderTexts(data)[..i])
    {
      var safeKey := HtmlEscape(data[i].0);
      var cell := HeaderOpen + safeKey + HeaderClose;
      assert table + cell == start + Cells(HeaderOpen, HeaderClose, HeaderTexts(data)[..i + 1]) by {
        CellsPrefixStep(HeaderOpen, HeaderClose, HeaderTexts(data), i);
        AppendAssoc(start, Cells(HeaderOpen, HeaderClose, HeaderTexts(data)[..i]), cell);
      }
      table := table + cell;
      i := i + 1;
    }
    assert HeaderTexts(data)[..|data|] == HeaderTexts(data);
  }

  /** The second loop of create_html_content: one <td> cell per value, empty for a falsy value. */
  method AppendValueCells(start: string, data: Fields) returns (table: string)
    ensures table == start + Cells(DataOpen, DataClose, ValueTexts(data))
  {
    table := start;
    var j := 0;
    while j < |data|
      invariant 0 <= j <= |data|
      invariant table == start + Cells(DataOpen, DataClose, ValueTexts(data)[..j])
    {
      var value := data[j].1;
      var safeValue := if Truthy(value) then HtmlEscape(Str(value)) else "";
      var cell := DataOpen + safeValue + DataClose;
      assert table + cell == start + Cells(DataOpen, DataClose, ValueTexts(data)[..j + 1]) by {
        assert safeValue == ValueTexts(data)[j];
        CellsPrefixStep(DataOpen, DataClose, ValueTexts(data), j);
        AppendAssoc(start, Cells(DataOpen, DataClose, ValueTexts(data)[..j]), cell);
      }
      table := table + cell;
      j := j + 1;
    }
    assert ValueTexts(data)[..|data|] == ValueTexts(data);
  }

  /** A value cell reads back as the value's str(), and is empty exactly for a falsy value. */
  lemma CellTextReadsBack(v: Value)
    ensures HtmlUnescape(CellText(v)) == if Truthy(v) then Str(v) else ""
    ensures CellText(v) == [] <==> !Truthy(v)
  {
    UnescapeEscape(Str(v));
  }

  predicate NoLt(s: string)
  {
    forall k :: 0 <= k < |s| ==> s[k] != '<'
  }

  /** Escaped header and value texts never hold a '<'. */
  lemma CellTextsHaveNoLt(data: Fields)
    ensures forall i :: 0 <= i < |data| ==> NoLt(HeaderTexts(data)[i]) && NoLt(ValueTexts(data)[i])
  {
    forall i | 0 <= i < |data|
      ensures NoLt(HeaderTexts(data)[i]) && NoLt(ValueTexts(data)[i])
    {
      EscapedHasNoMarkup(data[i].0);
      EscapedHasNoMarkup(Str(data[i].1));
    }
  }

  /**
   * Every header cell reads back as its key and every value cell as str() of its value
   * ('' when falsy), and no cell text holds a '<' that could close the cell early.
   */
  lemma CellTextsReadBack(data: Fields)
    ensures forall i :: 0 <= i < |data| ==> NoLt(HeaderTexts(data)[i]) && HtmlUnescape(HeaderTexts(data)[i]) == data[i].0
    ensures forall i :: 0 <= i < |data| ==>
              NoLt(ValueTexts(data)[i])
              && HtmlUnescape(ValueTexts(data)[i]) == (if Truthy(data[i].1) then Str(data[i].1) else "")
  {
    CellTextsHaveNoLt(data);
    forall i | 0 <= i < |data|
      ensures HtmlUnescape(HeaderTexts(data)[i]) == data[i].0
      ensures HtmlUnescape(ValueTexts(data)[i]) == (if Truthy(data[i].1) then Str(data[i].1) else "")
    {
      UnescapeEscape(data[i].0);
      CellTextReadsBack(data[i].1);
    }
  }

  /** Two texts without '<', each followed by something starting with '<', split alike. */
  lemma SplitAtLt(x: string, y: string, u: string, v: string)
    requires NoLt(x) && NoLt(y)
    requires u != [] && u[0] == '<' && v != [] && v[0] == '<'
    requires x + u == y + v
    ensures x == y && u == v
  {
    var n := if |x| < |y| then |x| else |y|;
    assert (x + u)[n] == '<' <==> n == |x|;
    assert (y + v)[n] == '<' <==> n == |y|;
    assert |x| == |y|;
    assert x == (x + u)[..|x|];
    assert y == (y + v)[..|y|];
    assert u == (x + u)[|x|..];
    assert v == (y + v)[|y|..];
  }

  lemma CellsCons(open: string, close: string, xs: seq<string>, a: string)
    requires xs != []
    ensures Cells(open, close, xs) + a == open + (xs[0] + (close + (Cells(open, close, xs[1..]) + a)))
  {
    var rest := Cells(open, close, xs[1..]);
    AppendAssoc(open + xs[0] + close, rest, a);
    AppendAssoc(open + xs[0], close, rest + a);
    AppendAssoc(open, xs[0], close + (rest + a));
  }

  lemma CellsFirst(open: string, close: string, xs: seq<string>, a: string)
    requires open != [] && a != []
    ensures (Cells(open, close, xs) + a)[0] == if xs == [] then a[0] else open[0]
  {
    if xs != [] {
      CellsCons(open, close, xs, a);
    }
  }

  /**
   * A run of cells followed by text that starts with '<' can be read back: the texts
   * of the cells and what follows them are determined.
   */
  lemma {:induction false} CellsInjective(open: string, close: string, xs: seq<string>, ys: seq<string>, a: string, b: string)
    requires open != [] && open[0] != '<'
    requires close != [] && close[0] == '<'
    requires forall i :: 0 <= i < |xs| ==> NoLt(xs[i])
    requires forall i :: 0 <= i < |ys| ==> NoLt(ys[i])
    requires a != [] && a[0] == '<' && b != [] && b[0] == '<'
    requires Cells(open, close, xs) + a == Cells(open, close, ys) + b
    ensures xs == ys && a == b
    decreases |xs|
  {
    CellsFirst(open, close, xs, a);
    CellsFirst(open, close, ys, b);
    if xs == [] || ys == [] {
      assert xs == [] && ys == [];
      assert Cells(open, close, xs) + a == a;
      assert Cells(open, close, ys) + b == b;
    } else {
      var r1 := Cells(open, close, xs[1..]) + a;
      var r2 := Cells(open, close, ys[1..]) + b;
      CellsCons(open, close, xs, a);
      CellsCons(open, close, ys, b);
      var l1 := xs[0] + (close + r1);
      var l2 := ys[0] + (close + r2);
      assert l1 == (open + l1)[|open|..];
      assert l2 == (open + l2)[|open|..];
      SplitAtLt(xs[0], ys[0], close + r1, close + r2);
      assert r1 == (close + r1)[|close|..];
      assert r2 == (close + r2)[|close|..];
      CellsInjective(open, close, xs[1..], ys[1..], a, b);
      assert xs == [xs[0]] + xs[1..];
      assert ys == [ys[0]] + ys[1..];
    }
  }

  lemma TableShape(data: Fields)
    ensures TableHtml(data)
         == TableHead + (Cells(HeaderOpen, HeaderClose, HeaderTexts(data))
            + (TableMiddle + (Cells(DataOpen, DataClose, ValueTexts(data)) + TableTail)))
  {
    var th, td := Cells(HeaderOpen, HeaderClose, HeaderTexts(data)), Cells(DataOpen, DataClose, ValueTexts(data));
    AppendAssoc(TableHead + th + TableMiddle, td, TableTail);
    AppendAssoc(TableHead + th, TableMiddle, td + TableTail);
    AppendAssoc(TableHead, th, TableMiddle + (td + TableTail));
  }

  /**
   * The table can be read back: two records with the same table have the same keys in
   * the same order, the same truthy values, and the same str() for each truthy value.
   */
  lemma TableDeterminesRecord(d1: Fields, d2: Fields)
    requires TableHtml(d1) == TableHtml(d2)
    ensures |d1| == |d2|
    ensures forall i :: 0 <= i < |d1| ==> d1[i].0 == d2[i].0
    ensures forall i :: 0 <= i < |d1| ==> (Truthy(d1[i].1) <==> Truthy(d2[i].1))
    ensures forall i :: 0 <= i < |d1| && Truthy(d1[i].1) ==> Str(d1[i].1) == Str(d2[i].1)
  {
    TableShape(d1);
    TableShape(d2);
    CellTextsHaveNoLt(d1);
    CellTextsHaveNoLt(d2);
    var h1, h2 := HeaderTexts(d1), HeaderTexts(d2);
    var v1, v2 := ValueTexts(d1), ValueTexts(d2);
    var rest1 := TableMiddle + (Cells(DataOpen, DataClose, v1) + TableTail);
    var rest2 := TableMiddle + (Cells(DataOpen, DataClose, v2) + TableTail);
    var after1 := Cells(HeaderOpen, HeaderClose, h1) + rest1;
    var after2 := Cells(HeaderOpen, HeaderClose, h2) + rest2;
    assert after1 == (TableHead + after1)[|TableHead|..];
    assert after2 == (TableHead + after2)[|TableHead|..];
    CellsInjective(HeaderOpen, HeaderClose, h1, h2, rest1, rest2);
    var tail1 := Cells(DataOpen, DataClose, v1) + TableTail;
    var tail2 := Cells(DataOpen, DataClose, v2) + TableTail;
    assert tail1 == rest1[|TableMiddle|..];
    assert tail2 == rest2[|TableMiddle|..];
    CellsInjective(DataOpen, DataClose, v1, v2, TableTail, TableTail);
    forall i | 0 <= i < |d1|
      ensures d1[i].0 == d2[i].0
      ensures Truthy(d1[i].1) <==> Truthy(d2[i].1)
      ensures Truthy(d1[i].1) ==> Str(d1[i].1) == Str(d2[i].1)
    {
      assert h1[i] == h2[i];
      EscapeInjective(d1[i].0, d2[i].0);
      assert v1[i] == v2[i];
      CellTextReadsBack(d1[i].1);
      CellTextReadsBack(d2[i].1);
    }
  }

  /** The key under which the table is added to the template data. */
  const TableKey := "table_content"

  /** template_data: a copy of the record with table_content set to the table. */
  function TemplateData(data: Fields): Fields
  {
    WithField(data, TableKey, VStr(TableHtml(data)))
  }

  /** create_html_content: builds the table, adds it to a copy of the record, substitutes. */
  method CreateHtmlContent(data: Fields, template: string) returns (html: string)
    ensures html == SafeSubstitute(template, SafeData(TemplateData(data)))
  {
    var table := BuildTable(data);
    var templateData := WithField(data, TableKey, VStr(table));
    html := SubstituteTemplate(template, templateData);
  }

  /**
   * The template data reads as the record for every key but table_content, which holds
   * the table; the record's own keys keep their order.
   */
  lemma TemplateDataLookup(data: Fields, k: string)
    ensures Lookup(TemplateData(data), k) == if k == TableKey then Some(VStr(TableHtml(data))) else Lookup(data, k)
    ensures forall i :: 0 <= i < |data| ==> TemplateData(data)[i].0 == data[i].0
  {
    WithFieldLookup(data, TableKey, VStr(TableHtml(data)), k);
  }

  lemma TableKeyIsIdentifier()
    ensures IsIdentifier(TableKey)
  {
  }

  /** A text added to the record under an identifier key comes out of "${key}" with each '$' doubled. */
  lemma AddedFieldPlaceholder(data: Fields, key: string, text: string, b: string)
    requires IsIdentifier(key) && text != []
    ensures SafeSubstitute("${" + key + "}" + b, SafeData(WithField(data, key, VStr(text))))
         == DoubleDollars(text) + SafeSubstitute(b, SafeData(WithField(data, key, VStr(text))))
  {
    WithFieldLookup(data, key, VStr(text), key);
    SubstituteBracedField(key, b, WithField(data, key, VStr(text)));
  }

  /** "${table_content}" becomes the table, with each '$' in it doubled. */
  lemma TableContentPlaceholder(data: Fields, b: string)
    ensures SafeSubstitute("${" + TableKey + "}" + b, SafeData(TemplateData(data)))
         == DoubleDollars(TableHtml(data)) + SafeSubstitute(b, SafeData(TemplateData(data)))
  {
    TableKeyIsIdentifier();
    assert TableHtml(data)[0] == '<';
    AddedFieldPlaceholder(data, TableKey, TableHtml(data), b);
  }

  /**
   * Any other "$name" shows the record's value as it is, not HTML-escaped: only the
   * table is escaped.
   */
  lemma RecordFieldNotEscaped(data: Fields, name: string, b: string)
    requires IsIdentifier(name) && name != TableKey
    requires b == [] || !IsIdentChar(b[0])
    ensures SafeSubstitute("$" + name + b, SafeData(TemplateData(data)))
         == (match Lookup(data, name)
             case Some(v) => if Truthy(v) then DoubleDollars(Str(v)) else ""
             case None => "$" + name)
            + SafeSubstitute(b, SafeData(TemplateData(data)))
  {
    TemplateDataLookup(data, name);
    SubstituteField(name, b, TemplateData(data));
  }

  /** With the corrected preparation, "${table_content}" gives the table exactly as built. */
  lemma IntendedTableContent(data: Fields, b: string)
    ensures SafeSubstitute("${" + TableKey + "}" + b, IntendedData(TemplateData(data)))
         == TableHtml(data) + SafeSubstitute(b, IntendedData(TemplateData(data)))
  {
    TableKeyIsIdentifier();
    assert TableHtml(data)[0] == '<';
    IntendedAddedField(data, TableKey, TableHtml(data), b);
  }

  lemma IntendedAddedField(data: Fields, key: string, text: string, b: string)
    requires IsIdentifier(key) && text != []
    ensures SafeSubstitute("${" + key + "}" + b, IntendedData(WithField(data, key, VStr(text))))
         == text + SafeSubstitute(b, IntendedData(WithField(data, key, VStr(text))))
  {
    WithFieldLookup(data, key, VStr(text), key);
    IntendedBracedField(key, b, WithField(data, key, VStr(text)));
  }
}
