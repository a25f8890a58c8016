/**
 * The already-parsed JSON values the program works on, with Python's truth test,
 * Python's str() and the lower-casing used for case-insensitive key matching.
 */
module Json {
  import opened Wrappers

  /** A JSON value as json.load returns it; an object keeps its keys in file order. */
  datatype Value =
    | VNull
    | VBool(b: bool)
    | VInt(i: int)
    | VStr(s: string)
    | VList(items: seq<Value>)
    | VObj(fields: seq<(string, Value)>)

  /** An ordered dictionary: a sequence of (key, value) pairs. */
  type Fields = seq<(string, Value)>

  /** A Python dict never holds the same key twice. */
  predicate DistinctKeys(fields: Fields)
  {
    forall i, j :: 0 <= i < j < |fields| ==> fields[i].0 != fields[j].0
  }

  /** Python's truth test: None, False, 0 and empty strings, lists and dicts are false. */
  predicate Truthy(v: Value)
  {
    match v
    case VNull => false
    case VBool(b) => b
    case VInt(i) => i != 0
    case VStr(s) => s != []
    case VList(items) => items != []
    case VObj(fields) => fields != []
  }

  function DigitChar(d: nat): (c: char)
    requires d < 10
    ensures '0' <= c <= '9'
  {
    ['0', '1', '2', '3', '4', '5', '6', '7', '8', '9'][d]
  }

  function DigitValue(c: char): nat
  {
    if '0' <= c <= '9' then (c - '0') as nat else 0
  }

  predicate IsDigits(s: string)
  {
    forall k :: 0 <= k < |s| ==> '0' <= s[k] <= '9'
  }

  /** Decimal text of a natural number, as str() gives it: no sign, no leading zeros. */
  function NatToString(n: nat): (r: string)
    ensures r != [] && IsDigits(r)
    ensures r[0] == '0' ==> n == 0
  {
    if n < 10 then [DigitChar(n)] else NatToString(n / 10) + [DigitChar(n % 10)]
  }

  /** Reads back a string of decimal digits. */
  function ParseNat(s: string): nat
  {
    if s == [] then 0 else ParseNat(s[..|s| - 1]) * 10 + DigitValue(s[|s| - 1])
  }

  lemma {:induction false} ParseNatToString(n: nat)
    ensures ParseNat(NatToString(n)) == n
  {
    var r := NatToString(n);
    if n >= 10 {
      ParseNatToString(n / 10);
      assert r[..|r| - 1] == NatToString(n / 10);
    }
  }

  /** Different numbers never print alike, so 1-based positions give distinct identifiers. */
  lemma NatToStringInjective(m: nat, n: nat)
    ensures NatToString(m) == NatToString(n) ==> m == n
  {
    ParseNatToString(m);
    ParseNatToString(n);
  }

  /** str() of a Python int. */
  function IntToString(i: int): (r: string)
    ensures r != []
    ensures i >= 0 ==> r == NatToString(i)
    ensures i < 0 ==> r[0] == '-' && r[1..] == NatToString(-i)
  {
    if i < 0 then "-" + NatToString(-i) else NatToString(i)
  }

  /** The quote repr() puts around a string: single, unless only a single quote occurs in it. */
  function QuoteFor(s: string): char
  {
    if '\'' in s && '"' !in s then '"' else '\''
  }

  /** The body of repr() of a string: backslash, the quote in use and \n, \r, \t are escaped. */
  function EscapeForRepr(s: string, q: char): string
  {
    if s == [] then []
    else
      var c := s[0];
      var e := if c == '\\' then "\\\\"
               else if c == q then ['\\', q]
               else if c == '\n' then "\\n"
               else if c == '\r' then "\\r"
               else if c == '\t' then "\\t"
               else [c];
      e + EscapeForRepr(s[1..], q)
  }

  /** repr() of a value, as str() shows the elements of a list or dict. */
  function Repr(v: Value): (r: string)
    ensures r != []
  {
    match v
    case VNull => "None"
    case VBool(b) => if b then "True" else "False"
    case VInt(i) => IntToString(i)
    case VStr(s) => ReprString(s)
    case VList(items) => "[" + JoinRepr(items) + "]"
    case VObj(fields) => "{" + JoinReprFields(fields) + "}"
  }

  function ReprString(s: string): (r: string)
    ensures r != []
  {
    var q := QuoteFor(s);
    [q] + EscapeForRepr(s, q) + [q]
  }

  function JoinRepr(items: seq<Value>): string
  {
    if items == [] then ""
    else Repr(items[0]) + (if |items| == 1 then "" else ", " + JoinRepr(items[1..]))
  }

  function JoinReprFields(fields: Fields): string
  {
    if fields == [] then ""
    else
      assert fields[0] in fields;
      assert fields[0].1 < fields[0];
      ReprString(fields[0].0) + ": " + Repr(fields[0].1)
      + (if |fields| == 1 then "" else ", " + JoinReprFields(fields[1..]))
  }

  /** Python's str(): a string is itself, everything else its printed form. */
  function Str(v: Value): (r: string)
    ensures v.VStr? ==> r == v.s
    ensures r == [] <==> v == VStr([])
  {
    match v
    case VStr(s) => s
    case _ => Repr(v)
  }

  /** Lower case of one character, for ASCII and the basic Cyrillic block. */
  function LowerChar(c: char): (d: char)
    ensures d == c || ('A' <= c <= 'Z') || ('Ѐ' <= c <= 'Я')
  {
    if 'A' <= c <= 'Z' then (c as int + 32) as char
    else if 'А' <= c <= 'Я' then (c as int + 32) as char
    else if 'Ѐ' <= c <= 'Џ' then (c as int + 80) as char
    else c
  }

  /** str.lower(), character by character. */
  function Lower(s: string): (r: string)
    ensures |r| == |s|
    ensures forall k :: 0 <= k < |s| ==> r[k] == LowerChar(s[k])
  {
    if s == [] then [] else [LowerChar(s[0])] + Lower(s[1..])
  }

  /** d[key] for a dict d: the value stored under key, if any. */
  function Lookup(m: Fields, key: string): (r: Option<Value>)
    ensures r.None? <==> forall i :: 0 <= i < |m| ==> m[i].0 != key
    ensures r.Some? ==> exists i :: 0 <= i < |m| && m[i] == (key, r.value)
  {
    if m == [] then None
    else if m[0].0 == key then Some(m[0].1)
    else Lookup(m[1..], key)
  }

  lemma {:induction false} LookupAppend(m: Fields, key: string, v: Value, name: string)
    requires name != key
    ensures Lookup(m + [(key, v)], name) == Lookup(m, name)
  {
    if m != [] {
      assert (m + [(key, v)])[1..] == m[1..] + [(key, v)];
      LookupAppend(m[1..], key, v, name);
    }
  }

  /** A pair under another key, wherever it stands in the dict, does not change a lookup. */
  lemma {:induction false} LookupInsert(m1: Fields, key: string, v: Value, m2: Fields, name: string)
    requires name != key
    ensures Lookup(m1 + [(key, v)] + m2, name) == Lookup(m1 + m2, name)
  {
    var inserted := m1 + [(key, v)] + m2;
    if m1 == [] {
      assert inserted[1..] == m2 && m1 + m2 == m2;
    } else {
      assert inserted[0] == (m1 + m2)[0] == m1[0];
      assert inserted[1..] == m1[1..] + [(key, v)] + m2;
      assert (m1 + m2)[1..] == m1[1..] + m2;
      LookupInsert(m1[1..], key, v, m2, name);
    }
  }

  /**
   * d[key] = v for a dict d: an existing key keeps its place and takes the new value,
   * a new key goes at the end; every other key keeps its value.
   */
  function WithField(m: Fields, key: string, v: Value): (r: Fields)
    ensures |r| == if Lookup(m, key).Some? then |m| else |m| + 1
    ensures forall i :: 0 <= i < |m| ==> r[i].0 == m[i].0
    ensures Lookup(m, key).None? ==> r[|m|] == (key, v)
  {
    if m == [] then [(key, v)]
    else if m[0].0 == key then [(key, v)] + m[1..]
    else [m[0]] + WithField(m[1..], key, v)
  }

  /** After d[key] = v, d[key] is v and every other key reads as before. */
  lemma {:induction false} WithFieldLookup(m: Fields, key: string, v: Value, k: string)
    ensures Lookup(WithField(m, key, v), k) == if k == key then Some(v) else Lookup(m, k)
  {
    if m != [] && m[0].0 != key {
      WithFieldLookup(m[1..], key, v, k);
    }
  }

  /** d[key] = v keeps the keys of a dict distinct. */
  lemma WithFieldDistinct(m: Fields, key: string, v: Value)
    requires DistinctKeys(m)
    ensures DistinctKeys(WithField(m, key, v))
  {
    var r := WithField(m, key, v);
    if Lookup(m, key).None? {
      assert forall i :: 0 <= i < |m| ==> r[i].0 == m[i].0 && m[i].0 != key;
    } else {
      assert forall i :: 0 <= i < |m| ==> r[i].0 == m[i].0;
    }
  }
}
