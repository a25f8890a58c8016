/**
 * Identifier derivation (get_invoice_ids) and record lookup (find_invoice_by_id).
 * Each loaded item gets a display identifier; the user picks one and the lookup
 * brings back the item it came from.
 */
module InvoiceIds {
  import opened Wrappers
  import opened Json
  import opened Pep292

  /** The field names tried, in priority order, when looking for an item's identifier. */
  const PossibleKeys: seq<string> := [
    "invoice_id", "invoiceId", "invoice-id", "invoice",
    "id", "invoice_number", "invoiceNumber", "номер",
    "номер_счета", "счет", "check_id", "checkId", "check-id"
  ]

  /** The first field, in the item's own order, whose name equals key ignoring case. */
  function MatchIndex(fields: Fields, key: string): (r: Option<nat>)
    ensures r.Some? ==> r.value < |fields| && Lower(fields[r.value].0) == Lower(key)
    ensures r.Some? ==> forall i :: 0 <= i < r.value ==> Lower(fields[i].0) != Lower(key)
    ensures r.None? ==> forall i :: 0 <= i < |fields| ==> Lower(fields[i].0) != Lower(key)
  {
    if fields == [] then None
    else if Lower(fields[0].0) == Lower(key) then Some(0)
    else match MatchIndex(fields[1..], key)
      case None => None
      case Some(i) => Some(i + 1)
  }

  /** The candidate key matches a field of the item and that field's value is truthy. */
  predicate TruthyMatch(fields: Fields, key: string)
  {
    var m := MatchIndex(fields, key);
    m.Some? && Truthy(fields[m.value].1)
  }

  /** The value of the field a truthy candidate key matched. */
  function MatchedValue(fields: Fields, key: string): Value
    requires TruthyMatch(fields, key)
  {
    fields[MatchIndex(fields, key).value].1
  }

  /** Position in keys of the earliest candidate whose matched field is truthy. */
  function CandidateIndex(fields: Fields, keys: seq<string>): (r: Option<nat>)
    ensures r.Some? ==> r.value < |keys| && TruthyMatch(fields, keys[r.value])
    ensures r.Some? ==> forall k :: 0 <= k < r.value ==> !TruthyMatch(fields, keys[k])
    ensures r.None? ==> forall k :: 0 <= k < |keys| ==> !TruthyMatch(fields, keys[k])
  {
    if keys == [] then None
    else if TruthyMatch(fields, keys[0]) then Some(0)
    else match CandidateIndex(fields, keys[1..])
      case None => None
      case Some(k) => Some(k + 1)
  }

  /** The identifier get_invoice_ids derives for the item at 0-based position idx. */
  function ItemId(item: Value, idx: nat, keys: seq<string>): string
  {
    match item
    case VObj(fields) =>
      (match CandidateIndex(fields, keys)
       case Some(k) => Str(MatchedValue(fields, keys[k]))
       case None =>
         if fields == [] || fields[0].1 == VNull then NatToString(idx + 1)
         else Str(fields[0].1))
    case _ => NatToString(idx + 1)
  }

  /** The identifiers of all items, in input order. */
  function Ids(data: seq<Value>, keys: seq<string>): seq<string>
  {
    seq(|data|, i requires 0 <= i < |data| => ItemId(data[i], i, keys))
  }

  /**
   * get_invoice_ids: one identifier per item, in input order, and none for no items.
   */
  method GetInvoiceIds(data: seq<Value>, keys: seq<string>) returns (ids: seq<string>)
    ensures |ids| == |data|
    ensures forall i :: 0 <= i < |data| ==> ids[i] == ItemId(data[i], i, keys)
  {
    ids := [];
    if |data| == 0 {
      return;
    }
    ghost var all := Ids(data, keys);
    var idx := 0;
    while idx < |data|
      invariant 0 <= idx <= |data|
      invariant ids == all[..idx]
    {
      var id := DeriveId(data[idx], idx, keys);
      assert all[..idx + 1] == all[..idx] + [id];
      ids := ids + [id];
      idx := idx + 1;
    }
    assert ids == all;
  }

  /**
   * The body of the loop of get_invoice_ids for one item. For an object the candidates
   * are tried in priority order and a candidate that matches a falsy value is passed
   * over; without a truthy candidate the first field's value is used, and the 1-based
   * position when that is None, when the object is empty, or when the item is not an
   * object at all.
   */
  method DeriveId(item: Value, idx: nat, keys: seq<string>) returns (id: string)
    ensures id == ItemId(item, idx, keys)
  {
    var invoiceId: Option<Value>;
    if item.VObj? {
      var fields := item.fields;
      invoiceId := TryCandidates(fields, keys);
      if !(invoiceId.Some? && Truthy(invoiceId.value)) {
        if fields != [] {
          invoiceId := if fields[0].1 == VNull then None else Some(fields[0].1);
        } else {
          invoiceId := Some(VInt(idx + 1));
        }
      }
    } else {
      invoiceId := Some(VInt(idx + 1));
    }
    id := if invoiceId.Some? then Str(invoiceId.value) else NatToString(idx + 1);
  }

  /**
   * The candidate loop of get_invoice_ids: each key in priority order, stopping at the
   * first whose matched field is truthy. A matched falsy value may be left behind, but
   * it is never taken as the identifier.
   */
  method TryCandidates(fields: Fields, keys: seq<string>) returns (invoiceId: Option<Value>)
    ensures (invoiceId.Some? && Truthy(invoiceId.value)) <==> CandidateIndex(fields, keys).Some?
    ensures CandidateIndex(fields, keys).Some? ==>
              invoiceId.value == MatchedValue(fields, keys[CandidateIndex(fields, keys).value])
  {
    invoiceId := None;
    var k := 0;
    while k < |keys|
      invariant 0 <= k <= |keys|
      invariant forall c :: 0 <= c < k ==> !TruthyMatch(fields, keys[c])
      invariant invoiceId.None? || !Truthy(invoiceId.value)
    {
      var found := ScanForKey(fields, keys[k]);
      if found.Some? {
        invoiceId := found;
      }
      if invoiceId.Some? && Truthy(invoiceId.value) {
        assert CandidateIndex(fields, keys) == Some(k);
        return;
      }
      k := k + 1;
    }
  }

  /**
   * The innermost loop of get_invoice_ids: the value of the first field, in the item's
   * own order, whose name equals key ignoring case.
   */
  method ScanForKey(fields: Fields, key: string) returns (found: Option<Value>)
    ensures found.None? <==> MatchIndex(fields, key).None?
    ensures found.Some? ==> found.value == fields[MatchIndex(fields, key).value].1
  {
    found := None;
    var j := 0;
    while j < |fields|
      invariant 0 <= j <= |fields|
      invariant forall i :: 0 <= i < j ==> Lower(fields[i].0) != Lower(key)
    {
      if Lower(fields[j].0) == Lower(key) {
        found := Some(fields[j].1);
        assert MatchIndex(fields, key) == Some(j);
        return;
      }
      j := j + 1;
    }
  }

  /** The first position at which x occurs, as list.index finds it. */
  function FirstIndexOf<T(==)>(s: seq<T>, x: T): (r: Option<nat>)
    ensures r.Some? ==> r.value < |s| && s[r.value] == x
    ensures r.Some? ==> forall i :: 0 <= i < r.value ==> s[i] != x
    ensures r.None? <==> x !in s
  {
    if s == [] then None
    else if s[0] == x then Some(0)
    else match FirstIndexOf(s[1..], x)
      case None => None
      case Some(i) => Some(i + 1)
  }

  /** data.index(item) for the item at position n: the first position holding an equal item. */
  function PositionOf(data: seq<Value>, n: nat): (r: nat)
    requires n < |data|
    ensures r <= n && data[r] == data[n]
    ensures forall k :: 0 <= k < r ==> data[k] != data[n]
  {
    assert data[n] in data;
    FirstIndexOf(data, data[n]).value
  }

  /** Some candidate key matches a field (any matching field, any value) whose str() is the id. */
  predicate CandidateFieldEquals(fields: Fields, id: string, keys: seq<string>)
  {
    exists c, j :: 0 <= c < |keys| && 0 <= j < |fields| && FieldHolds(fields[j], keys[c], id)
  }

  /** The field's name equals key ignoring case and its str() is id. */
  predicate FieldHolds(field: (string, Value), key: string, id: string)
  {
    Lower(field.0) == Lower(key) && Str(field.1) == id
  }

  /** The second-chance test of find_invoice_by_id for the item at position n. */
  predicate FallbackHit(data: seq<Value>, n: nat, id: string, keys: seq<string>)
    requires n < |data|
  {
    (data[n].VObj? && CandidateFieldEquals(data[n].fields, id, keys))
    || NatToString(PositionOf(data, n) + 1) == id
  }

  /** The outcome of the second-chance test for every item, in order. */
  function Hits(data: seq<Value>, id: string, keys: seq<string>): (r: seq<bool>)
    ensures |r| == |data|
    ensures forall n :: 0 <= n < |data| ==> r[n] == FallbackHit(data, n, id, keys)
  {
    seq(|data|, n requires 0 <= n < |data| => FallbackHit(data, n, id, keys))
  }

  /** The first item that passes the second-chance test. */
  function Fallback(data: seq<Value>, id: string, keys: seq<string>): Option<Value>
  {
    match FirstIndexOf(Hits(data, id, keys), true)
    case Some(n) => Some(data[n])
    case None => None
  }

  /** What find_invoice_by_id returns. */
  function FindInvoice(data: seq<Value>, id: string, keys: seq<string>): Option<Value>
  {
    match FirstIndexOf(Ids(data, keys), id)
    case Some(j) => Some(data[j])
    case None => Fallback(data, id, keys)
  }

  /**
   * find_invoice_by_id: the item whose derived identifier is the first equal to id;
   * failing that, the first item that has a candidate field whose str() is id or whose
   * 1-based position is id; failing that, None.
   */
  method FindInvoiceById(data: seq<Value>, invoiceId: string, keys: seq<string>) returns (r: Option<Value>)
    ensures r == FindInvoice(data, invoiceId, keys)
  {
    var ids := GetInvoiceIds(data, keys);
    assert ids == Ids(data, keys);
    var found := FirstMatch(ids, invoiceId);
    if found.Some? {
      return Some(data[found.value]);
    }
    r := SearchFallback(data, invoiceId, keys);
  }

  /** The first loop of find_invoice_by_id: the position of the first identifier equal to id. */
  method FirstMatch(ids: seq<string>, id: string) returns (r: Option<nat>)
    ensures r == FirstIndexOf(ids, id)
  {
    var idx := 0;
    while idx < |ids|
      invariant 0 <= idx <= |ids|
      invariant forall i :: 0 <= i < idx ==> ids[i] != id
    {
      if ids[idx] == id {
        FirstIndexOfUnique(ids, id, idx);
        return Some(idx);
      }
      idx := idx + 1;
    }
    return None;
  }

  lemma FirstIndexOfUnique<T>(s: seq<T>, x: T, i: nat)
    requires i < |s| && s[i] == x
    requires forall k :: 0 <= k < i ==> s[k] != x
    ensures FirstIndexOf(s, x) == Some(i)
  {
    assert x in s;
  }

  /** The second-chance loop of find_invoice_by_id, run when no derived identifier matched. */
  method SearchFallback(data: seq<Value>, invoiceId: string, keys: seq<string>) returns (r: Option<Value>)
    ensures r == Fallback(data, invoiceId, keys)
  {
    ghost var hits := Hits(data, invoiceId, keys);
    var n := 0;
    while n < |data|
      invariant 0 <= n <= |data|
      invariant forall m :: 0 <= m < n ==> !hits[m]
    {
      var item := data[n];
      if item.VObj? {
        var hit := FieldsMatchId(item.fields, invoiceId, keys);
        if hit {
          FirstIndexOfUnique(hits, true, n);
          return Some(item);
        }
      }
      if NatToString(PositionOf(data, n) + 1) == invoiceId {
        FirstIndexOfUnique(hits, true, n);
        return Some(item);
      }
      n := n + 1;
    }
    assert true !in hits;
    return None;
  }

  /** The nested key loops of the second chance: every candidate against every field. */
  method FieldsMatchId(fields: Fields, invoiceId: string, keys: seq<string>) returns (hit: bool)
    ensures hit == CandidateFieldEquals(fields, invoiceId, keys)
  {
    var c := 0;
    while c < |keys|
      invariant 0 <= c <= |keys|
      invariant forall c', j :: 0 <= c' < c && 0 <= j < |fields| ==> !FieldHolds(fields[j], keys[c'], invoiceId)
    {
      var j := 0;
      while j < |fields|
        invariant 0 <= j <= |fields|
        invariant forall j' :: 0 <= j' < j ==> !FieldHolds(fields[j'], keys[c], invoiceId)
      {
        if Lower(fields[j].0) == Lower(keys[c]) && Str(fields[j].1) == invoiceId {
          return true;
        }
        j := j + 1;
      }
      c := c + 1;
    }
    return false;
  }

  /** An object with a truthy candidate field gets a non-empty identifier that does not depend on its position. */
  lemma CandidateIdIgnoresPosition(fields: Fields, i: nat, j: nat, keys: seq<string>)
    requires CandidateIndex(fields, keys).Some?
    ensures ItemId(VObj(fields), i, keys) == ItemId(VObj(fields), j, keys)
    ensures ItemId(VObj(fields), i, keys) != []
  {
  }

  /** Renaming fields to names that lower-case alike leaves the first match unchanged. */
  lemma {:induction false} MatchIndexIgnoresCase(f1: Fields, f2: Fields, key: string)
    requires |f1| == |f2|
    requires forall i :: 0 <= i < |f1| ==> Lower(f1[i].0) == Lower(f2[i].0)
    ensures MatchIndex(f1, key) == MatchIndex(f2, key)
  {
    if f1 != [] && Lower(f1[0].0) != Lower(key) {
      MatchIndexIgnoresCase(f1[1..], f2[1..], key);
    }
  }

  lemma {:induction false} CandidateIndexIgnoresCase(f1: Fields, f2: Fields, keys: seq<string>)
    requires |f1| == |f2|
    requires forall i :: 0 <= i < |f1| ==> Lower(f1[i].0) == Lower(f2[i].0) && f1[i].1 == f2[i].1
    ensures CandidateIndex(f1, keys) == CandidateIndex(f2, keys)
    ensures forall k :: 0 <= k < |keys| ==> MatchIndex(f1, keys[k]) == MatchIndex(f2, keys[k])
  {
    forall k | 0 <= k < |keys|
      ensures MatchIndex(f1, keys[k]) == MatchIndex(f2, keys[k])
    {
      MatchIndexIgnoresCase(f1, f2, keys[k]);
    }
    if keys != [] {
      CandidateIndexIgnoresCase(f1, f2, keys[1..]);
      assert forall k :: 0 <= k < |keys[1..]| ==> keys[1..][k] == keys[k + 1];
    }
  }

  /** Identifier matching ignores the case of field names: renaming a field to another case keeps the identifier. */
  lemma ItemIdIgnoresKeyCase(f1: Fields, f2: Fields, idx: nat, keys: seq<string>)
    requires |f1| == |f2|
    requires forall i :: 0 <= i < |f1| ==> Lower(f1[i].0) == Lower(f2[i].0) && f1[i].1 == f2[i].1
    ensures ItemId(VObj(f1), idx, keys) == ItemId(VObj(f2), idx, keys)
  {
    CandidateIndexIgnoresCase(f1, f2, keys);
  }

  /**
   * find_invoice_by_id gives None exactly when no derived identifier, no candidate
   * field value and no 1-based position matches; otherwise it gives one of the items.
   */
  lemma FindNoneIff(data: seq<Value>, id: string, keys: seq<string>)
    ensures FindInvoice(data, id, keys).None? <==>
      (forall i :: 0 <= i < |data| ==> ItemId(data[i], i, keys) != id)
      && (forall n :: 0 <= n < |data| ==> !FallbackHit(data, n, id, keys))
    ensures FindInvoice(data, id, keys).Some? ==> FindInvoice(data, id, keys).value in data
  {
    var ids := Ids(data, keys);
    var hits := Hits(data, id, keys);
    if true in hits {
      var n :| 0 <= n < |hits| && hits[n];
      assert FallbackHit(data, n, id, keys);
    }
    assert forall i :: 0 <= i < |data| ==> ids[i] == ItemId(data[i], i, keys);
    if id in ids {
      var k :| 0 <= k < |ids| && ids[k] == id;
      assert ItemId(data[k], k, keys) == id;
    }
  }

  /**
   * Looking up the identifier derived for item i gives the first item whose identifier
   * is the same: the first match wins, and it is never an item after i.
   */
  lemma FindFirstMatchWins(data: seq<Value>, i: nat, keys: seq<string>) returns (j: nat)
    requires i < |data|
    ensures j <= i && ItemId(data[j], j, keys) == ItemId(data[i], i, keys)
    ensures forall k :: 0 <= k < j ==> ItemId(data[k], k, keys) != ItemId(data[i], i, keys)
    ensures FindInvoice(data, ItemId(data[i], i, keys), keys) == Some(data[j])
  {
    var ids := Ids(data, keys);
    var id := ids[i];
    assert id == ItemId(data[i], i, keys);
    var found := FirstIndexOf(ids, id);
    assert found.Some?;
    j := found.value;
    assert j <= i;
    assert ids[j] == ItemId(data[j], j, keys);
    forall k | 0 <= k < j
      ensures ItemId(data[k], k, keys) != id
    {
      assert ids[k] == ItemId(data[k], k, keys);
    }
  }

  /** When identifiers are distinct, looking up the identifier of item i gives item i. */
  lemma FindDistinctIds(data: seq<Value>, i: nat, keys: seq<string>)
    requires i < |data|
    requires forall a, b :: 0 <= a < b < |data| ==> ItemId(data[a], a, keys) != ItemId(data[b], b, keys)
    ensures FindInvoice(data, ItemId(data[i], i, keys), keys) == Some(data[i])
  {
    var j := FindFirstMatchWins(data, i, keys);
    assert j == i;
  }

  /** Items that are not objects are found by their 1-based position. */
  lemma FindScalarByPosition(data: seq<Value>, i: nat, keys: seq<string>)
    requires i < |data|
    requires forall n :: 0 <= n < |data| ==> !data[n].VObj?
    ensures FindInvoice(data, NatToString(i + 1), keys) == Some(data[i])
  {
    forall a, b | 0 <= a < b < |data|
      ensures ItemId(data[a], a, keys) != ItemId(data[b], b, keys)
    {
      NatToStringInjective(a + 1, b + 1);
    }
    FindDistinctIds(data, i, keys);
  }

  /**
   * Five of the candidate names (invoice-id, номер, номер_счета, счет, check-id) are not
   * ASCII identifiers, so no template placeholder can refer to them.
   */
  lemma CandidatesNotPlaceholders()
    ensures !IsIdentifier(PossibleKeys[2]) && !IsIdentifier(PossibleKeys[7])
    ensures !IsIdentifier(PossibleKeys[8]) && !IsIdentifier(PossibleKeys[9])
    ensures !IsIdentifier(PossibleKeys[12])
  {
    assert PossibleKeys[2][7] == '-';
    assert !IsIdentStart(PossibleKeys[7][0]);
    assert !IsIdentStart(PossibleKeys[8][0]);
    assert !IsIdentStart(PossibleKeys[9][0]);
    assert PossibleKeys[12][5] == '-';
  }

  /** A record field under one of those names never changes the substituted template. */
  lemma CandidateFieldUnreachable(t: string, m1: Fields, k: nat, v: Value, m2: Fields)
    requires k == 2 || k == 7 || k == 8 || k == 9 || k == 12
    ensures SafeSubstitute(t, m1 + [(PossibleKeys[k], v)] + m2) == SafeSubstitute(t, m1 + m2)
  {
    CandidatesNotPlaceholders();
    UnreachableKey(t, m1, PossibleKeys[k], v, m2);
  }
}
