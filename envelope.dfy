/**
 * The JSON file between the scraper and the analysis: the writer wraps the
 * record list as `{"records": {"record": records}}`, the reader takes
 * `data["records"]["record"]` and builds one row per record.
 */
module Envelope {
  import opened Wrappers
  import opened Records

  /** JSON values as `json.dump` writes them and `json.load` reads them back. */
  datatype Json =
    | JStr(s: string)
    | JInt(i: int)
    | JBool(b: bool)
    | JArr(items: seq<Json>)
    | JObj(fields: map<string, Json>)

  const RECORDS_KEY := "records"
  const RECORD_KEY := "record"

  predicate IsScalar(j: Json) {
    j.JStr? || j.JInt? || j.JBool?
  }

  function JsonToValue(j: Json): Value
    requires IsScalar(j)
  {
    match j
    case JStr(s) => Str(s)
    case JInt(i) => Int(i)
    case JBool(b) => Bool(b)
  }

  /** A value as the JSON scalar `json.dump` writes; reading it back gives the value. */
  function ValueToJson(v: Value): (j: Json)
    ensures IsScalar(j) && JsonToValue(j) == v
  {
    match v
    case Str(s) => JStr(s)
    case Int(i) => JInt(i)
    case Bool(b) => JBool(b)
  }

  /** A record as a JSON object with the same keys. */
  function RecordToJson(r: Record): (j: Json)
    ensures j.JObj? && j.fields.Keys == r.Keys
    ensures forall k | k in r :: IsScalar(j.fields[k]) && JsonToValue(j.fields[k]) == r[k]
  {
    JObj(map k | k in r :: ValueToJson(r[k]))
  }

  /** A JSON object of scalars as a row; anything else is not a record. */
  function JsonToRecord(j: Json): (r: Option<Record>)
    ensures r.Some? <==> j.JObj? && forall k | k in j.fields :: IsScalar(j.fields[k])
    ensures r.Some? ==> r.value.Keys == j.fields.Keys
    ensures r.Some? ==> forall k | k in r.value :: ValueToJson(r.value[k]) == j.fields[k]
  {
    if j.JObj? && forall k | k in j.fields :: IsScalar(j.fields[k]) then
      Some(map k | k in j.fields :: JsonToValue(j.fields[k]))
    else None
  }

  /** `extract_projects_data_to_json`: the output document. */
  function Wrap(records: seq<Record>): (j: Json)
    ensures Unwrap(j).Some? && Unwrap(j).value.JArr?
    ensures |Unwrap(j).value.items| == |records|
    ensures forall i | 0 <= i < |records| :: Unwrap(j).value.items[i] == RecordToJson(records[i])
  {
    JObj(map[RECORDS_KEY := JObj(map[RECORD_KEY := JArr(seq(|records|, i requires 0 <= i < |records| => RecordToJson(records[i])))])])
  }

  /** `data[key]`: KeyError when the key is missing, TypeError when `data` is not an object. */
  function Member(data: Json, key: string): (r: Option<Json>)
    ensures r.Some? <==> data.JObj? && key in data.fields
  {
    if data.JObj? && key in data.fields then Some(data.fields[key]) else None
  }

  /** `data["records"]["record"]` in `load_problem1_json_to_dataframe`; `None` when either lookup raises. */
  function Unwrap(data: Json): (r: Option<Json>)
    ensures r.Some? <==>
      data.JObj? && RECORDS_KEY in data.fields
      && data.fields[RECORDS_KEY].JObj? && RECORD_KEY in data.fields[RECORDS_KEY].fields
  {
    match Member(data, RECORDS_KEY)
    case None => None
    case Some(inner) => Member(inner, RECORD_KEY)
  }

  /** Every element of a JSON list as a row, or `None` when one of them is not a record. */
  function RowsOf(items: seq<Json>): (r: Option<seq<Record>>)
    ensures r.Some? <==> forall i | 0 <= i < |items| :: JsonToRecord(items[i]).Some?
    ensures r.Some? ==> |r.value| == |items|
    ensures r.Some? ==> forall i | 0 <= i < |items| :: Some(r.value[i]) == JsonToRecord(items[i])
  {
    if items == [] then Some([])
    else
      match (JsonToRecord(items[0]), RowsOf(items[1..]))
      case (Some(x), Some(xs)) =>
        assert forall i | 1 <= i < |items| :: items[i] == items[1..][i - 1];
        Some([x] + xs)
      case (None, _) => None
      case (_, None) =>
        assert forall i | 0 <= i < |items| - 1 :: items[1..][i] == items[i + 1];
        None
  }

  /** Loading the document: the unwrapped list, one row per record. */
  function LoadRecords(data: Json): (r: Option<seq<Record>>)
    ensures r.Some? <==>
      && Unwrap(data).Some? && Unwrap(data).value.JArr?
      && forall i | 0 <= i < |Unwrap(data).value.items| :: JsonToRecord(Unwrap(data).value.items[i]).Some?
    ensures r.Some? ==> Unwrap(data).Some? && Unwrap(data).value.JArr?
    ensures r.Some? ==> |r.value| == |Unwrap(data).value.items|
    ensures r.Some? ==> forall i | 0 <= i < |r.value| :: JsonToRecord(Unwrap(data).value.items[i]) == Some(r.value[i])
  {
    match Unwrap(data)
    case Some(JArr(items)) => RowsOf(items)
    case _ => None
  }

  lemma RecordRoundTrip(r: Record)
    ensures JsonToRecord(RecordToJson(r)) == Some(r)
  {
    var j := RecordToJson(r);
    var back := map k | k in j.fields :: JsonToValue(j.fields[k]);
    assert forall k | k in r :: back[k] == r[k] by {
      forall k | k in r ensures back[k] == r[k] {
        match r[k]
        case Str(s) =>
        case Int(i) =>
        case Bool(b) =>
      }
    }
    assert JsonToRecord(j).Some?;
    assert JsonToRecord(j).value == back;
    assert back == r;
  }

  /**
   * The reader gets back exactly the list the writer wrapped: the same
   * records, in the same order.
   */
  lemma LoadWrap(records: seq<Record>)
    ensures LoadRecords(Wrap(records)) == Some(records)
  {
    var items := seq(|records|, i requires 0 <= i < |records| => RecordToJson(records[i]));
    assert Unwrap(Wrap(records)) == Some(JArr(items));
    forall i | 0 <= i < |items| ensures JsonToRecord(items[i]) == Some(records[i]) {
      RecordRoundTrip(records[i]);
    }
    var rows := RowsOf(items);
    assert rows.Some?;
    assert rows.value == records;
  }

  /** A document without the envelope (a bare list, or an object without the keys) loads nothing. */
  lemma BareListFails(records: seq<Record>)
    ensures LoadRecords(JArr(seq(|records|, i requires 0 <= i < |records| => RecordToJson(records[i])))) == None
    ensures LoadRecords(JObj(map[RECORD_KEY := Wrap(records)])) == None
  {
  }
}
