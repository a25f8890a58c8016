/**
 * The shape normalisation of read_json_file: whatever json.load returned becomes
 * the list of records the rest of the program iterates over.
 */
module Normalize {
  import opened Wrappers
  import opened Json

  /** The outcome of json.load: a value, or any exception while opening or parsing. */
  datatype Parsed = Parsed(value: Value) | ParseFailure

  /** Position of the first list-valued field of an object, in key order. */
  function FirstListField(fields: Fields): (r: Option<nat>)
    ensures r.Some? ==> r.value < |fields| && fields[r.value].1.VList?
    ensures r.Some? ==> forall j :: 0 <= j < r.value ==> !fields[j].1.VList?
    ensures r.None? ==> forall j :: 0 <= j < |fields| ==> !fields[j].1.VList?
  {
    if fields == [] then None
    else if fields[0].1.VList? then Some(0)
    else match FirstListField(fields[1..])
      case None => None
      case Some(k) => Some(k + 1)
  }

  /** The records read_json_file returns for a parse outcome. */
  function ReadJson(p: Parsed): (r: seq<Value>)
    ensures p.ParseFailure? ==> r == []
    ensures p.Parsed? && p.value.VList? ==> r == p.value.items
    ensures p.Parsed? && p.value.VObj? ==>
      var fs := p.value.fields;
      (exists i :: 0 <= i < |fs| && fs[i].1.VList? && r == fs[i].1.items
                   && forall j :: 0 <= j < i ==> !fs[j].1.VList?)
      || ((forall j :: 0 <= j < |fs| ==> !fs[j].1.VList?) && r == [p.value])
    ensures p.Parsed? && !p.value.VList? && !p.value.VObj? ==> r == [p.value]
  {
    match p
    case ParseFailure => []
    case Parsed(v) =>
      match v
      case VObj(fields) =>
        (match FirstListField(fields)
         case Some(i) => fields[i].1.items
         case None => [v])
      case VList(items) => items
      case _ => [v]
  }

  /** A file holding a dict of records yields that dict as a single record, not its values. */
  lemma DictOfRecordsIsOneRecord(fields: Fields)
    requires fields != []
    requires forall j :: 0 <= j < |fields| ==> fields[j].1.VObj?
    ensures ReadJson(Parsed(VObj(fields))) == [VObj(fields)]
  {
  }
}
