/** Column values as SQLite returns them, and `row_to_dict`, which turns a
    row into a dictionary and decodes the text columns that look like JSON. */
module Db {
  import opened Wrappers
  import Json
  import Sorting

  /** A REAL column's value; its arithmetic plays no part in the model. */
  datatype Float = Float(bits: bv64)

  /** The storage classes of a SQLite value. */
  datatype SqlValue = SqlNull | SqlInt(i: int) | SqlReal(f: Float) | SqlText(t: string)

  /** A `sqlite3.Row`: column name to value. */
  type Row = map<string, SqlValue>

  /** A row as `SELECT *` returns it: the stored columns and the id. */
  function WithId(id: int, row: Row): (r: Row)
    ensures r.Keys == row.Keys + {"id"} && r["id"] == SqlInt(id)
    ensures forall k | k in row && k != "id" :: r[k] == row[k]
  {
    row["id" := SqlInt(id)]
  }

  /** A dictionary value after `row_to_dict`: the column as stored, or the
      result of `json.loads`. */
  datatype PyValue = Column(v: SqlValue) | Decoded(json: Json.Value)

  /** The decode test of `row_to_dict`: a string whose first character is
      '[' or '{'. */
  predicate LooksLikeJson(v: SqlValue)
  {
    v.SqlText? && |v.t| > 0 && (v.t[0] == '[' || v.t[0] == '{')
  }

  /** The per-key decision: candidates that `json.loads` accepts are
      replaced; a decode failure is swallowed and the value is kept. */
  function DecodeValue(v: SqlValue): (r: PyValue)
    ensures r.Decoded? ==> LooksLikeJson(v) && Json.Loads(v.t) == Some(r.json)
    ensures r.Column? ==> r.v == v && (LooksLikeJson(v) ==> Json.Loads(v.t).None?)
  {
    if LooksLikeJson(v) then
      match Json.Loads(v.t)
      case Some(j) => Decoded(j)
      case None => Column(v)
    else Column(v)
  }

  /** The dictionary `row_to_dict` returns for a row. */
  function DictOf(row: Row): map<string, PyValue>
  {
    map k | k in row :: DecodeValue(row[k])
  }

  /** The dictionary entry of a stored column after the id is added. */
  lemma DictOfWithId(id: int, row: Row, k: string)
    requires k in row && k != "id"
    ensures k in DictOf(WithId(id, row)) && DictOf(WithId(id, row))[k] == DecodeValue(row[k])
  {
  }

  /** `row_to_dict`: copy the row, then overwrite each decodable value. */
  method RowToDict(row: Row) returns (d: map<string, PyValue>)
    ensures d == DictOf(row)
    ensures d.Keys == row.Keys && forall k | k in row :: d[k] == DecodeValue(row[k])
  {
    d := map k | k in row :: Column(row[k]);
    var todo := row.Keys;
    while todo != {}
      invariant todo <= row.Keys
      invariant d.Keys == row.Keys
      invariant forall k | k in row :: d[k] == if k in todo then Column(row[k]) else DecodeValue(row[k])
      decreases |todo|
    {
      var key :| key in todo;
      d := DecodeEntry(d, key, row[key]);
      todo := todo - {key};
    }
  }

  /** One pass of the loop of `row_to_dict`: a text value that opens with
      `[` or `{` is replaced by its decoding when `json.loads` accepts it. */
  method DecodeEntry(d: map<string, PyValue>, key: string, val: SqlValue) returns (d': map<string, PyValue>)
    requires key in d && d[key] == Column(val)
    ensures d' == d[key := DecodeValue(val)]
  {
    d' := d;
    if val.SqlText? && |val.t| > 0 && (val.t[0] == '[' || val.t[0] == '{') {
      var parsed := Json.Loads(val.t);
      if parsed.Some? {
        d' := d'[key := Decoded(parsed.value)];
      }
    }
  }

  /** `fetchone_dict`: no row gives None. */
  function FetchOneDict(row: Option<Row>): (r: Option<map<string, PyValue>>)
    ensures r.Some? <==> row.Some?
    ensures row.Some? ==> r.value.Keys == row.value.Keys
  {
    match row
    case Some(x) => Some(DictOf(x))
    case None => None
  }

  /** `fetchall_dicts`: every row converted, in the order fetched. */
  function FetchAllDicts(rows: seq<Row>): (r: seq<map<string, PyValue>>)
    ensures |r| == |rows|
    ensures forall i | 0 <= i < |rows| :: r[i] == DictOf(rows[i])
  {
    seq(|rows|, i requires 0 <= i < |rows| => DictOf(rows[i]))
  }

  /** A column written as `json.dumps(list_of_strings)` reads back as that
      same list. */
  lemma StoredListReadsBack(xs: seq<string>)
    ensures DecodeValue(SqlText(Json.DumpStrings(xs))) == Decoded(Json.Array(Json.StringValues(xs)))
  {
    Json.DumpStringsRoundTrip(xs);
  }

  /** A list column stored as JSON text reads back as the list once the row
      is returned with its id. */
  lemma StoredListEntry(id: int, row: Row, k: string, xs: seq<string>)
    requires k in row && k != "id" && row[k] == SqlText(Json.DumpStrings(xs))
    ensures k in DictOf(WithId(id, row)) && DictOf(WithId(id, row))[k] == Decoded(Json.Array(Json.StringValues(xs)))
  {
    DictOfWithId(id, row, k);
    StoredListReadsBack(xs);
  }

  /** A whole row of such columns: each one reads back as its list, and
      every other column is returned as stored. */
  lemma StoredRowReadsBack(row: Row, lists: map<string, seq<string>>)
    requires forall k | k in lists :: k in row && row[k] == SqlText(Json.DumpStrings(lists[k]))
    ensures DictOf(row).Keys == row.Keys
    ensures forall k | k in lists :: DictOf(row)[k] == Decoded(Json.Array(Json.StringValues(lists[k])))
  {
    forall k | k in lists
      ensures DictOf(row)[k] == Decoded(Json.Array(Json.StringValues(lists[k])))
    {
      StoredListReadsBack(lists[k]);
    }
  }

  /** Only the first character is tested: text that `json.loads` accepts
      but that starts with whitespace stays a string. */
  lemma LeadingSpaceNotDecoded(t: string)
    requires t != [] && Json.IsWs(t[0])
    ensures DecodeValue(SqlText(t)) == Column(SqlText(t))
  {
  }

  /** For instance " " followed by a stored list, which `json.loads`
      reads as that list. */
  lemma LeadingSpaceExample(xs: seq<string>)
    ensures Json.Loads(" " + Json.DumpStrings(xs)) == Some(Json.Array(Json.StringValues(xs)))
    ensures DecodeValue(SqlText(" " + Json.DumpStrings(xs))) == Column(SqlText(" " + Json.DumpStrings(xs)))
  {
    var t := Json.DumpStrings(xs);
    Json.DumpStringsRoundTrip(xs);
    Json.LoadsAfterSpace(t);
  }

  // ------------------------------------------------------- catalogue queries

  /** `WHERE available = 1`. */
  predicate IsAvailable(row: Row)
  {
    "available" in row && row["available"] == SqlInt(1)
  }

  /** The ids `SELECT * FROM … WHERE available = 1` visits, in scan order
      (every id of a table lies below its next id). */
  function AvailableIds(rows: map<int, Row>, nextId: int): seq<int>
  {
    Sorting.ScanOrder(set id | id in rows && IsAvailable(rows[id]), 1, nextId)
  }

  /** The rows of a table at `ids`, each with its id column. */
  function Records(rows: map<int, Row>, ids: seq<int>): (r: seq<Row>)
    requires forall i | 0 <= i < |ids| :: ids[i] in rows
    ensures |r| == |ids|
  {
    seq(|ids|, i requires 0 <= i < |ids| => WithId(ids[i], rows[ids[i]]))
  }

  /** `fetchall_dicts("SELECT * FROM … WHERE available = 1")`. */
  function SelectAvailable(rows: map<int, Row>, nextId: int): seq<map<string, PyValue>>
  {
    var ids := AvailableIds(rows, nextId);
    assert forall i | 0 <= i < |ids| :: ids[i] in ids;
    FetchAllDicts(Records(rows, ids))
  }

  /** Every listed entry is an available row with its id. */
  lemma SelectAvailableEntries(rows: map<int, Row>, nextId: int)
    ensures |SelectAvailable(rows, nextId)| == |AvailableIds(rows, nextId)|
    ensures forall i | 0 <= i < |SelectAvailable(rows, nextId)| ::
              var id := AvailableIds(rows, nextId)[i];
              id in rows && IsAvailable(rows[id]) &&
              SelectAvailable(rows, nextId)[i] == DictOf(WithId(id, rows[id])) &&
              "id" in SelectAvailable(rows, nextId)[i] &&
              SelectAvailable(rows, nextId)[i]["id"] == Column(SqlInt(id)) &&
              "available" in SelectAvailable(rows, nextId)[i] &&
              SelectAvailable(rows, nextId)[i]["available"] == Column(SqlInt(1))
  {
    var ids := AvailableIds(rows, nextId);
    assert forall i | 0 <= i < |ids| :: ids[i] in ids;
  }

  /** The listing holds every available row of the table once, in id
      order, and nothing else. */
  lemma SelectAvailableExact(rows: map<int, Row>, nextId: int)
    requires forall id | id in rows :: 1 <= id < nextId
    ensures Sorting.Ascending(AvailableIds(rows, nextId))
    ensures forall id :: id in AvailableIds(rows, nextId) <==> id in rows && IsAvailable(rows[id])
  {
  }

  /** `fetchone_dict("SELECT * FROM … WHERE id = ?")`. */
  function SelectById(rows: map<int, Row>, id: int): (r: Option<map<string, PyValue>>)
    ensures r.Some? <==> id in rows
    ensures r.Some? ==> r.value == DictOf(WithId(id, rows[id])) && "id" in r.value && r.value["id"] == Column(SqlInt(id))
  {
    if id in rows then FetchOneDict(Some(WithId(id, rows[id]))) else None
  }
}
