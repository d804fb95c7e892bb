/** The last-trips endpoints: a public gallery of past trips with visitor
    comments, and the admin operations that add, patch and delete trips and
    moderate comments. The `trip` payload is a plain JSON object, so its
    fields arrive with JSON types and are converted by the handler itself. */
module LastTripsApi {
  import opened Wrappers
  import opened DbOps
  import opened Db
  import opened Patch
  import Json
  import Sorting
  import Uploads
  import opened PyText

  // ------------------------------------------------------------ the payload

  /** The `spots` value of a trip object: a list of strings, a string, or
      some other JSON value, which is only ever tested for truthiness. */
  datatype SpotsValue = SpotList(items: seq<string>) | SpotText(text: string) | SpotOther(truthy: bool)

  /** An argument of Python's `int()` as it can arrive in JSON. */
  datatype IntArg = IntNum(n: int) | IntBool(b: bool) | IntText(s: string) | IntOther

  /** `int(x)`: integers as they are, booleans as 1/0, strings parsed; any
      other value raises (None). */
  function PyInt(a: IntArg): (r: Option<int>)
    ensures a.IntNum? ==> r == Some(a.n)
    ensures a.IntBool? ==> r == Some(if a.b then 1 else 0)
    ensures a.IntOther? ==> r.None?
    ensures a.IntText? ==> r == ParseInt(a.s)
  {
    match a
    case IntNum(n) => Some(n)
    case IntBool(b) => Some(if b then 1 else 0)
    case IntText(s) => ParseInt(s)
    case IntOther => None
  }

  /** A trip object. Each field is missing, `null` or given; `available`
      is any JSON value and None when the key is missing. `otherKeys`
      records whether the object has keys besides these, which makes it
      non-empty. */
  datatype TripInput = TripInput(
    destination: Field<string>, spots: Field<SpotsValue>, days: Field<IntArg>, persons: Field<IntArg>,
    images: Field<seq<string>>, startDate: Field<string>, endDate: Field<string>, feedback: Field<string>,
    available: Option<Json.Value>, otherKeys: bool)

  /** `{}`: the object that `not trip` also refuses. */
  predicate EmptyTrip(t: TripInput)
  {
    t.destination.Absent? && t.spots.Absent? && t.days.Absent? && t.persons.Absent? && t.images.Absent? &&
    t.startDate.Absent? && t.endDate.Absent? && t.feedback.Absent? && t.available.None? && !t.otherKeys
  }

  /** `not trip`: no trip object (missing or `null`) or an empty one. */
  predicate MissingTrip(trip: Option<TripInput>)
  {
    trip.None? || EmptyTrip(trip.value)
  }

  // ---------------------------------------------------- spots normalisation

  /** One piece of the split text, stripped, or nothing when it is blank. */
  function Kept(p: string): seq<string>
  {
    if Strip(p) != "" then [Strip(p)] else []
  }

  /** The pieces that are not blank, each stripped. */
  function KeepStripped(parts: seq<string>): seq<string>
    decreases |parts|
  {
    if parts == [] then [] else Kept(parts[0]) + KeepStripped(parts[1..])
  }

  /** An item a normalised spots list can hold: non-blank, stripped,
      without commas. */
  predicate NormalItem(s: string)
  {
    s != "" && Stripped(s) && ',' !in s
  }

  /** The items of a normalised spots list. */
  predicate NormalItems(items: seq<string>)
  {
    forall i | 0 <= i < |items| :: NormalItem(items[i])
  }

  lemma NormalItemsAppend(a: seq<string>, b: seq<string>)
    requires NormalItems(a) && NormalItems(b)
    ensures NormalItems(a + b)
  {
    forall i | 0 <= i < |a + b|
      ensures NormalItem((a + b)[i])
    {
      if i >= |a| {
        assert (a + b)[i] == b[i - |a|];
      }
    }
  }

  /** The kept pieces are non-blank and stripped, and hold no comma when
      the pieces hold none. */
  lemma {:induction false} KeepStrippedItems(parts: seq<string>)
    requires forall i | 0 <= i < |parts| :: ',' !in parts[i]
    ensures NormalItems(KeepStripped(parts))
    decreases |parts|
  {
    if parts != [] {
      StripWithin(parts[0]);
      assert NormalItems(Kept(parts[0]));
      assert forall i | 0 <= i < |parts[1..]| :: parts[1..][i] == parts[i + 1];
      KeepStrippedItems(parts[1..]);
      NormalItemsAppend(Kept(parts[0]), KeepStripped(parts[1..]));
    }
  }

  /** `[s.strip() for s in text.split(",") if s.strip()]`. */
  function NormalizeSpots(text: string): seq<string>
  {
    KeepStripped(Split(text, ','))
  }

  /** Every normalised item is non-blank, stripped and comma-free. */
  lemma NormalizedItems(text: string)
    ensures NormalItems(NormalizeSpots(text))
  {
    KeepStrippedItems(Split(text, ','));
  }

  /** Pieces that each strip to their item keep exactly those items. */
  lemma {:induction false} KeepEach(parts: seq<string>, items: seq<string>)
    requires |parts| == |items|
    requires forall i | 0 <= i < |parts| :: Kept(parts[i]) == [items[i]]
    ensures KeepStripped(parts) == items
    decreases |parts|
  {
    if parts != [] {
      assert Kept(parts[0]) == [items[0]];
      assert forall i | 0 <= i < |parts[1..]| :: parts[1..][i] == parts[i + 1] && items[1..][i] == items[i + 1];
      KeepEach(parts[1..], items[1..]);
      assert items == [items[0]] + items[1..];
    }
  }

  /** An item is kept as it is. */
  lemma KeptItem(s: string)
    requires NormalItem(s)
    ensures Kept(s) == [s]
  {
    StripUnchanged(s);
  }

  /** Already normalised items pass through unchanged. */
  lemma KeepStrippedNormal(items: seq<string>)
    requires NormalItems(items)
    ensures KeepStripped(items) == items
  {
    forall i | 0 <= i < |items|
      ensures Kept(items[i]) == [items[i]]
    {
      KeptItem(items[i]);
    }
    KeepEach(items, items);
  }

  /** Normalisation undoes `", ".join`: a normalised list written back as
      comma-separated text normalises to itself. */
  lemma NormalizeJoin(items: seq<string>)
    requires NormalItems(items)
    ensures NormalizeSpots(Join(items, ",")) == items
  {
    if items == [] {
      assert ',' !in "";
      assert Split("", ',') == [""];
      assert KeepStripped([""]) == Kept("") + KeepStripped([]);
    } else {
      assert forall i | 0 <= i < |items| :: ',' !in items[i] by {
        forall i | 0 <= i < |items| ensures ',' !in items[i] {
          assert NormalItem(items[i]);
        }
      }
      SplitJoin(items, ',');
      KeepStrippedNormal(items);
    }
  }

  /** Normalising comma-separated text keeps the stripped, non-blank
      pieces between the commas. */
  lemma NormalizePieces(parts: seq<string>)
    requires |parts| >= 1 && forall i | 0 <= i < |parts| :: ',' !in parts[i]
    ensures NormalizeSpots(Join(parts, ",")) == KeepStripped(parts)
  {
    SplitJoin(parts, ',');
  }

  /** Blank pieces and spaces before a comma are dropped too: for the
      spots `x` and `y`, the text "x,,y ," stores `[x, y]`, the same as the
      list itself. */
  lemma PaddedSpots(x: string, y: string)
    requires NormalItems([x, y])
    ensures NormalizeSpots(x + ",," + y + " ,") == [x, y]
    ensures AddSpotItems(Given(SpotText(x + ",," + y + " ,"))) == AddSpotItems(Given(SpotList([x, y])))
  {
    assert NormalItem([x, y][0]) && NormalItem([x, y][1]);
    var parts := [x] + [""] + [y + " "] + [""];
    PaddedJoin(x, y);
    assert ',' !in y + " ";
    assert forall i | 0 <= i < |parts| :: ',' !in parts[i];
    NormalizePieces(parts);
    PaddedKeep(x, y);
  }

  lemma PaddedJoin(x: string, y: string)
    ensures Join([x] + [""] + [y + " "] + [""], ",") == x + ",," + y + " ,"
  {
    var parts := [x] + [""] + [y + " "] + [""];
    assert parts[1..] == [""] + [y + " "] + [""];
    assert parts[2..] == [y + " "] + [""];
    assert parts[3..] == [""];
    assert Join(parts[3..], ",") == "";
    assert Join(parts[2..], ",") == y + " " + "," + "";
    assert Join(parts[1..], ",") == "" + "," + (y + " " + "," + "");
  }

  lemma PaddedKeep(x: string, y: string)
    requires NormalItem(x) && NormalItem(y)
    ensures KeepStripped([x] + [""] + [y + " "] + [""]) == [x, y]
  {
    var z := y + " ";
    KeepAppend([x] + [""] + [z], [""]);
    KeepAppend([x] + [""], [z]);
    KeepAppend([x], [""]);
    KeepOne(x);
    KeepOne("");
    KeepOne(z);
    KeptItem(x);
    KeptBlank();
    KeptSpaceAfter(y);
  }

  /** Keeping distributes over concatenation. */
  lemma {:induction false} KeepAppend(p: seq<string>, q: seq<string>)
    ensures KeepStripped(p + q) == KeepStripped(p) + KeepStripped(q)
    decreases |p|
  {
    if p == [] {
      assert p + q == q;
    } else {
      assert (p + q)[1..] == p[1..] + q;
      KeepAppend(p[1..], q);
    }
  }

  lemma KeepOne(p: string)
    ensures KeepStripped([p]) == Kept(p)
  {
    assert [p][1..] == [];
  }

  /** A blank piece is dropped. */
  lemma KeptBlank()
    ensures Kept("") == []
  {
    assert Strip("") == "";
  }

  /** An item followed by a space is kept as the item. */
  lemma KeptSpaceAfter(y: string)
    requires NormalItem(y)
    ensures Kept(y + " ") == [y]
  {
    StripSpaceAfter(y, ' ');
    assert y + " " == y + [' '];
  }

  /** Normalising twice changes nothing. */
  lemma NormalizeIdempotent(text: string)
    ensures NormalizeSpots(Join(NormalizeSpots(text), ",")) == NormalizeSpots(text)
  {
    NormalizedItems(text);
    NormalizeJoin(NormalizeSpots(text));
  }

  /** The spots list a trip object denotes, or None when reading it raises:
      `spots_value or ""` turns every falsy value into the empty list, while
      a truthy value that is neither a list nor a string has no `split`. */
  function AddSpotItems(f: Field<SpotsValue>): (r: Option<seq<string>>)
    ensures r.Some? <==> !(f.Given? && f.value == SpotOther(true))
    ensures f.Absent? || f.JsonNull? ==> r == Some([])
  {
    match f
    case Given(SpotList(items)) => Some(items)
    case Given(SpotText(text)) => Some(NormalizeSpots(text))
    case Given(SpotOther(truthy)) => if truthy then None else Some([])
    case _ => Some([])
  }

  /** A list and the same spots written as comma-separated text store the
      same value. */
  lemma SpotsAgree(items: seq<string>)
    requires NormalItems(items)
    ensures AddSpotItems(Given(SpotList(items))) == Some(items)
    ensures AddSpotItems(Given(SpotText(Join(items, ",")))) == Some(items)
  {
    var text := Join(items, ",");
    NormalizeJoin(items);
    assert NormalizeSpots(text) == items;
    assert AddSpotItems(Given(SpotText(text))) == Some(NormalizeSpots(text));
  }

  /** So does the text with a space after each comma. */
  lemma SpacedSpotsAgree(items: seq<string>)
    requires NormalItems(items)
    ensures AddSpotItems(Given(SpotText(Join(items, ", ")))) == Some(items)
  {
    var spaced := Join(items, ", ");
    NormalizeSpaced(items);
    assert NormalizeSpots(spaced) == items;
    assert AddSpotItems(Given(SpotText(spaced))) == Some(NormalizeSpots(spaced));
  }

  /** Spaces after the commas are stripped away. */
  lemma NormalizeSpaced(items: seq<string>)
    requires NormalItems(items)
    ensures NormalizeSpots(Join(items, ", ")) == items
  {
    if items == [] {
      assert Split("", ',') == [""];
      assert KeepStripped([""]) == [] + KeepStripped([]);
    } else {
      var parts := Spaced(items);
      SpacedJoin(items);
      SplitJoin(parts, ',');
      SpacedStrips(items);
    }
  }

  /** Each item after the first, with the space that follows the comma. */
  function Spaced(items: seq<string>): (r: seq<string>)
    requires items != []
    ensures |r| == |items| && r[0] == items[0]
    ensures forall i | 0 < i < |items| :: r[i] == " " + items[i]
  {
    [items[0]] + Prefixed(items[1..], " ")
  }

  lemma SpacedJoin(items: seq<string>)
    requires items != []
    ensures Join(items, ", ") == Join(Spaced(items), ",")
  {
    if |items| > 1 {
      var rest := items[1..];
      var tail := Prefixed(rest, " ");
      assert ([items[0]] + tail)[1..] == tail;
      PrefixedJoin(rest, ",", " ");
      assert "," + " " == ", ";
      assert Join(Spaced(items), ",") == items[0] + "," + Join(tail, ",");
      assert Join(items, ", ") == items[0] + ", " + Join(rest, ", ");
    }
  }

  /** Each piece with `pre` in front. */
  function Prefixed(xs: seq<string>, pre: string): (r: seq<string>)
    ensures |r| == |xs| && forall i | 0 <= i < |xs| :: r[i] == pre + xs[i]
  {
    seq(|xs|, i requires 0 <= i < |xs| => pre + xs[i])
  }

  /** Joining prefixed pieces moves the prefix into the separator. */
  lemma {:induction false} PrefixedJoin(xs: seq<string>, sep: string, pre: string)
    requires xs != []
    ensures Join(Prefixed(xs, pre), sep) == pre + Join(xs, sep + pre)
    decreases |xs|
  {
    var p := Prefixed(xs, pre);
    if |xs| > 1 {
      PrefixedJoin(xs[1..], sep, pre);
      assert p[1..] == Prefixed(xs[1..], pre);
      var j := Join(xs[1..], sep + pre);
      assert Join(p, sep) == pre + xs[0] + sep + (pre + j);
      assert Join(xs, sep + pre) == xs[0] + (sep + pre) + j;
      assert pre + xs[0] + sep + (pre + j) == pre + (xs[0] + (sep + pre) + j);
    }
  }

  /** The spaced pieces hold no comma and strip back to the items. */
  lemma SpacedStrips(items: seq<string>)
    requires items != [] && NormalItems(items)
    ensures forall i | 0 <= i < |Spaced(items)| :: ',' !in Spaced(items)[i]
    ensures KeepStripped(Spaced(items)) == items
  {
    var parts := Spaced(items);
    forall i | 0 <= i < |parts|
      ensures ',' !in parts[i] && Kept(parts[i]) == [items[i]]
    {
      assert NormalItem(items[i]);
      KeptItem(items[i]);
      if i > 0 {
        assert parts[i] == [' '] + items[i];
        StripSpaceBefore(' ', items[i]);
      }
    }
    KeepEach(parts, items);
  }
  // --------------------------------------------------------- add_last_trip

  /** `int(trip.get(key, 0))`: a missing key counts 0, `null` raises. */
  function AddCount(f: Field<IntArg>): (r: Option<int>)
    ensures f.Absent? ==> r == Some(0)
    ensures f.JsonNull? ==> r.None?
  {
    match f
    case Absent => Some(0)
    case JsonNull => None
    case Given(a) => PyInt(a)
  }

  /** A nullable text column's value: `None` is bound as NULL. */
  function TextOrNull(f: Field<string>): SqlValue
  {
    if f.Given? then SqlText(f.value) else SqlNull
  }

  /** The columns `add_last_trip` writes (every column but the id). */
  const TripDataColumns: set<string> :=
    {"destination", "spots", "days", "persons", "images", "start_date", "end_date", "feedback", "created_at", "available"}

  /** The columns of `last_trips` declared NOT NULL. */
  const TripRequired: set<string> :=
    {"destination", "spots", "days", "persons", "images", "start_date", "end_date", "created_at"}

  /** The INSERT of `add_last_trip`, or None when building it raises or a
      NOT NULL column would receive NULL. `now` is the UTC clock reading. */
  function AddRow(t: TripInput, now: string): (r: Option<Row>)
  {
    var spots := AddSpotItems(t.spots);
    var days := AddCount(t.days);
    var persons := AddCount(t.persons);
    if spots.None? || days.None? || persons.None? then None
    else if !(t.destination.Given? && t.startDate.Given? && t.endDate.Given?) then None
    else
      Some(TripRow(t.destination.value, spots.value, days.value, persons.value,
                   if t.images.Given? then t.images.value else [],
                   t.startDate.value, t.endDate.value, TextOrNull(t.feedback), now))
  }

  /** The row `add_last_trip` inserts: lists as JSON text, the trip listed. */
  function TripRow(destination: string, spots: seq<string>, days: int, persons: int, images: seq<string>,
                   startDate: string, endDate: string, feedback: SqlValue, now: string): (row: Row)
    ensures row.Keys == TripDataColumns
    ensures forall c | c in TripRequired :: c in row && row[c] != SqlNull
    ensures row["spots"] == SqlText(Json.DumpStrings(spots))
  {
    map["destination" := SqlText(destination),
        "days" := SqlInt(days),
        "persons" := SqlInt(persons),
        "images" := SqlText(Json.DumpStrings(images)),
        "start_date" := SqlText(startDate),
        "end_date" := SqlText(endDate),
        "feedback" := feedback,
        "created_at" := SqlText(now),
        "available" := SqlInt(1),
        "spots" := SqlText(Json.DumpStrings(spots))]
  }

  /** The row an accepted trip inserts, column by column. */
  lemma AddRowIs(t: TripInput, now: string)
    requires AddRow(t, now).Some?
    ensures AddSpotItems(t.spots).Some? && AddCount(t.days).Some? && AddCount(t.persons).Some?
    ensures !t.spots.Given? ==> AddSpotItems(t.spots) == Some([])
    ensures AddRow(t, now).value ==
      TripRow(t.destination.value, AddSpotItems(t.spots).value, AddCount(t.days).value, AddCount(t.persons).value,
              if t.images.Given? then t.images.value else [],
              t.startDate.value, t.endDate.value, TextOrNull(t.feedback), now)
  {
  }

  /** An inserted trip fills exactly the table's non-id columns and
      satisfies every NOT NULL constraint; the insert fails only for a
      missing destination or date, a `null` count, an unconvertible count
      or a truthy non-list, non-string `spots`. */
  lemma AddRowSchema(t: TripInput, now: string)
    ensures AddRow(t, now).Some? ==> AddRow(t, now).value.Keys == TripDataColumns
    ensures AddRow(t, now).Some? ==> forall c | c in TripRequired :: c in AddRow(t, now).value && AddRow(t, now).value[c] != SqlNull
    ensures TripDataColumns + {"id"} == set k | k in TripColumns
    ensures AddRow(t, now).None? <==>
              !t.destination.Given? || !t.startDate.Given? || !t.endDate.Given? ||
              t.spots == Given(SpotOther(true)) || AddCount(t.days).None? || AddCount(t.persons).None?
  {
    if AddRow(t, now).Some? {
      AddRowFilled(t, now);
    }
    AddRowFails(t, now);
  }

  /** The columns an accepted trip fills, and that none of them is NULL. */
  lemma AddRowFilled(t: TripInput, now: string)
    requires AddRow(t, now).Some?
    ensures AddRow(t, now).value.Keys == TripDataColumns
    ensures forall c | c in TripRequired :: c in AddRow(t, now).value && AddRow(t, now).value[c] != SqlNull
  {
    AddRowIs(t, now);
  }

  /** The inputs `add_last_trip` turns away. */
  lemma AddRowFails(t: TripInput, now: string)
    ensures AddRow(t, now).None? <==>
              !t.destination.Given? || !t.startDate.Given? || !t.endDate.Given? ||
              t.spots == Given(SpotOther(true)) || AddCount(t.days).None? || AddCount(t.persons).None?
  {
    if AddRow(t, now).Some? {
      AddRowIs(t, now);
    }
  }

  /** The defaults of `add_last_trip`: the trip is listed, stamped with the
      clock reading, missing counts are 0 and missing lists are empty. */
  lemma AddRowDefaults(t: TripInput, now: string)
    requires AddRow(t, now).Some?
    ensures var row := AddRow(t, now).value;
            row["available"] == SqlInt(1) && row["created_at"] == SqlText(now) &&
            (t.days.Absent? ==> row["days"] == SqlInt(0)) &&
            (t.persons.Absent? ==> row["persons"] == SqlInt(0)) &&
            (!t.spots.Given? ==> row["spots"] == SqlText(Json.DumpStrings([]))) &&
            (!t.images.Given? ==> row["images"] == SqlText(Json.DumpStrings([]))) &&
            (!t.feedback.Given? ==> row["feedback"] == SqlNull)
  {
    AddRowIs(t, now);
  }

  /** A trip's spots read back as the list they denote; text given as
      "X, Y" reads back as ["X", "Y"]. */
  lemma AddedSpotsReadBack(id: int, t: TripInput, now: string)
    requires AddRow(t, now).Some?
    ensures AddSpotItems(t.spots).Some?
    ensures var d := DictOf(WithId(id, AddRow(t, now).value));
            "spots" in d && d["spots"] == Decoded(Json.Array(Json.StringValues(AddSpotItems(t.spots).value)))
  {
    var row := AddRow(t, now).value;
    AddRowIs(t, now);
    StoredListEntry(id, row, "spots", AddSpotItems(t.spots).value);
  }

  /** `add_last_trip`: 401 unless the admin object verifies, 400 for a
      missing or empty trip object, 500 when building the insert raises or
      a NOT NULL constraint fails; otherwise one row and its id. */
  method AddLastTrip(trips: Table<Row>, admins: map<int, AdminRow>, admin: Option<AdminField>,
                     trip: Option<TripInput>, now: string)
    returns (r: Response<Created>)
    requires trips.Valid()
    modifies trips
    ensures trips.Valid()
    ensures !AdminGate(admins, admin) ==> r == Error(401, "Unauthorized")
    ensures AdminGate(admins, admin) && MissingTrip(trip) ==> r == Error(400, "Missing trip data")
    ensures AdminGate(admins, admin) && !MissingTrip(trip) && AddRow(trip.value, now).None? ==>
              r == Error(500, InternalServerError)
    ensures r.Ok? <==> AdminGate(admins, admin) && !MissingTrip(trip) && AddRow(trip.value, now).Some?
    ensures r.Ok? ==> r.body == Created("Trip added", old(trips.nextId)) &&
                      trips.rows == old(trips.rows)[old(trips.nextId) := AddRow(trip.value, now).value]
    ensures r.Error? ==> trips.rows == old(trips.rows) && trips.nextId == old(trips.nextId)
  {
    if !AdminGate(admins, admin) {
      return Error(401, "Unauthorized");
    }
    if trip.None? || EmptyTrip(trip.value) {
      return Error(400, "Missing trip data");
    }
    var row := AddRow(trip.value, now);
    if row.None? {
      return Error(500, InternalServerError);
    }
    var id := trips.Insert(row.value);
    r := Ok(Created("Trip added", id));
  }

  // ------------------------------------------------------ update_last_trip

  /** What one `if key in trip and trip[key] is not None:` block does:
      nothing, bind a value, or raise. */
  datatype Bound = Skip | Bind(v: SqlValue) | Raise

  function Present(b: Bound): Option<SqlValue>
  {
    if b.Bind? then Some(b.v) else None
  }

  function TextBound(f: Field<string>): Bound
  {
    if f.Given? then Bind(SqlText(f.value)) else Skip
  }

  /** A list is bound as its JSON text, a string is normalised first, and
      any other value raises on `split`. */
  function SpotsBound(f: Field<SpotsValue>): Bound
  {
    match f
    case Given(SpotList(items)) => Bind(SqlText(Json.DumpStrings(items)))
    case Given(SpotText(text)) => Bind(SqlText(Json.DumpStrings(NormalizeSpots(text))))
    case Given(SpotOther(_)) => Raise
    case _ => Skip
  }

  function CountBound(f: Field<IntArg>): Bound
  {
    if f.Given? then (if PyInt(f.value).Some? then Bind(SqlInt(PyInt(f.value).value)) else Raise) else Skip
  }

  function ListBound(f: Field<seq<string>>): Bound
  {
    if f.Given? then Bind(SqlText(Json.DumpStrings(f.value))) else Skip
  }

  /** Python truthiness of a JSON value. A number is false when its
      digits before any exponent are all zero. */
  predicate Truthy(v: Json.Value)
  {
    match v
    case Null => false
    case Bool(b) => b
    case Number(lexeme) => !ZeroMantissa(lexeme)
    case String(s) => s != ""
    case Array(items) => items != []
    case Object(members) => members != []
  }

  predicate ZeroMantissa(lexeme: string)
    decreases |lexeme|
  {
    lexeme == [] || lexeme[0] == 'e' || lexeme[0] == 'E' ||
    ((lexeme[0] == '-' || lexeme[0] == '0' || lexeme[0] == '.') && ZeroMantissa(lexeme[1..]))
  }

  /** `1 if trip["available"] else 0`. */
  function AvailableBound(o: Option<Json.Value>): Bound
  {
    if o.Some? && o.value != Json.Null then Bind(SqlBool(Truthy(o.value))) else Skip
  }

  /** The columns `update_last_trip` tests, in the order it tests them. */
  const TripUpdateColumns: seq<string> :=
    ["destination", "spots", "days", "persons", "images", "start_date", "end_date", "feedback", "available"]

  /** The value each column would be set to, if present. */
  function TripUpdateValues(t: TripInput): (vals: seq<Option<SqlValue>>)
    ensures |vals| == |TripUpdateColumns|
  {
    [Present(TextBound(t.destination)), Present(SpotsBound(t.spots)), Present(CountBound(t.days)),
     Present(CountBound(t.persons)), Present(ListBound(t.images)), Present(TextBound(t.startDate)),
     Present(TextBound(t.endDate)), Present(TextBound(t.feedback)), Present(AvailableBound(t.available))]
  }

  /** Building the SET list raises: `split` on a non-string, non-list
      `spots`, or `int()` on a count it cannot convert. */
  predicate UpdateFails(t: TripInput)
  {
    SpotsBound(t.spots).Raise? || CountBound(t.days).Raise? || CountBound(t.persons).Raise?
  }

  lemma TripUpdateColumnsDistinct(names: seq<string>)
    requires names == TripUpdateColumns
    ensures Distinct(names)
  {
    forall i, j | 0 <= i < j < |names|
      ensures names[i] != names[j]
    {
      assert names[i][0] != names[j][0] || |names[i]| != |names[j]|;
    }
  }

  function TripSets(t: TripInput): seq<Assignment>
  {
    Chosen(TripUpdateColumns, TripUpdateValues(t))
  }

  /** Every field is missing or `null`. */
  predicate NoTripFields(t: TripInput)
  {
    !t.destination.Given? && !t.spots.Given? && !t.days.Given? && !t.persons.Given? && !t.images.Given? &&
    !t.startDate.Given? && !t.endDate.Given? && !t.feedback.Given? &&
    (t.available.None? || t.available == Some(Json.Null))
  }

  /** When nothing raises, there is nothing to update exactly when every
      field is missing or `null`. */
  lemma TripSetsEmpty(t: TripInput)
    ensures !UpdateFails(t) ==> (TripSets(t) == [] <==> NoTripFields(t))
  {
    if !UpdateFails(t) {
      if TripSets(t) == [] {
        NoTripSetsNoFields(t);
      }
      if NoTripFields(t) {
        NoFieldsNoTripSets(t);
      }
    }
  }

  lemma NoTripSetsNoFields(t: TripInput)
    requires !UpdateFails(t) && TripSets(t) == []
    ensures NoTripFields(t)
  {
    var vals := TripUpdateValues(t);
    assert forall i | 0 <= i < |vals| :: vals[i].None?;
    AbsentFields(t, vals);
  }

  lemma AbsentFields(t: TripInput, vals: seq<Option<SqlValue>>)
    requires !UpdateFails(t) && vals == TripUpdateValues(t)
    requires forall i | 0 <= i < |vals| :: vals[i].None?
    ensures NoTripFields(t)
  {
    assert !t.destination.Given? by { assert vals[0].None?; }
    assert !t.spots.Given? by { assert vals[1].None?; }
    assert !t.days.Given? by { assert vals[2].None?; }
    assert !t.persons.Given? by { assert vals[3].None?; }
    assert !t.images.Given? by { assert vals[4].None?; }
    assert !t.startDate.Given? by { assert vals[5].None?; }
    assert !t.endDate.Given? by { assert vals[6].None?; }
    assert !t.feedback.Given? by { assert vals[7].None?; }
    assert vals[8].None?;
  }

  lemma NoFieldsNoTripSets(t: TripInput)
    requires NoTripFields(t)
    ensures TripSets(t) == []
  {
    TripSetsChain(t);
  }

  lemma TripSetsOrdered(t: TripInput)
    ensures IsSubsequence(Columns(TripSets(t)), TripUpdateColumns)
    ensures Distinct(Columns(TripSets(t)))
  {
    TripUpdateColumnsDistinct(TripUpdateColumns);
    ChosenOrdered(TripUpdateColumns, TripUpdateValues(t));
    ChosenDistinct(TripUpdateColumns, TripUpdateValues(t));
  }

  /** One raising block of the builder: stop, or append as usual. */
  method AddBound(fields: seq<string>, values: seq<SqlValue>, ghost sets: seq<Assignment>,
                  column: string, b: Bound)
    returns (ok: bool, fields': seq<string>, values': seq<SqlValue>)
    requires fields == Columns(sets) && values == Values(sets)
    ensures ok <==> !b.Raise?
    ensures ok ==> fields' == Columns(sets + Opt(column, Present(b))) && values' == Values(sets + Opt(column, Present(b)))
  {
    if b.Raise? {
      return false, fields, values;
    }
    ok := true;
    fields', values' := AddIfPresent(fields, values, sets, column, Present(b));
  }

  /** The SET list, as the builder appends it: the entry of each tested
      column in turn. */
  lemma TripSetsChain(t: TripInput)
    ensures TripSets(t) ==
      [] + Opt("destination", Present(TextBound(t.destination))) + Opt("spots", Present(SpotsBound(t.spots)))
        + Opt("days", Present(CountBound(t.days))) + Opt("persons", Present(CountBound(t.persons)))
        + Opt("images", Present(ListBound(t.images))) + Opt("start_date", Present(TextBound(t.startDate)))
        + Opt("end_date", Present(TextBound(t.endDate))) + Opt("feedback", Present(TextBound(t.feedback)))
        + Opt("available", Present(AvailableBound(t.available)))
  {
    var names := TripUpdateColumns;
    var vals := TripUpdateValues(t);
    ChosenNine(names, vals);
  }

  /** The `fields` and `values` lists of `update_last_trip`, or `ok` false
      when building them raises. */
  method BuildTripUpdate(t: TripInput) returns (ok: bool, fields: seq<string>, values: seq<SqlValue>)
    ensures ok <==> !UpdateFails(t)
    ensures ok ==> fields == Columns(TripSets(t)) && values == Values(TripSets(t))
  {
    ghost var sets: seq<Assignment> := [];
    fields, values := [], [];
    fields, values := AddIfPresent(fields, values, sets, "destination", Present(TextBound(t.destination)));
    sets := sets + Opt("destination", Present(TextBound(t.destination)));
    ok, fields, values := AddBound(fields, values, sets, "spots", SpotsBound(t.spots));
    if !ok {
      return;
    }
    sets := sets + Opt("spots", Present(SpotsBound(t.spots)));
    ok, fields, values := AddBound(fields, values, sets, "days", CountBound(t.days));
    if !ok {
      return;
    }
    sets := sets + Opt("days", Present(CountBound(t.days)));
    ok, fields, values := AddBound(fields, values, sets, "persons", CountBound(t.persons));
    if !ok {
      return;
    }
    sets := sets + Opt("persons", Present(CountBound(t.persons)));
    fields, values := AddIfPresent(fields, values, sets, "images", Present(ListBound(t.images)));
    sets := sets + Opt("images", Present(ListBound(t.images)));
    fields, values := AddIfPresent(fields, values, sets, "start_date", Present(TextBound(t.startDate)));
    sets := sets + Opt("start_date", Present(TextBound(t.startDate)));
    fields, values := AddIfPresent(fields, values, sets, "end_date", Present(TextBound(t.endDate)));
    sets := sets + Opt("end_date", Present(TextBound(t.endDate)));
    fields, values := AddIfPresent(fields, values, sets, "feedback", Present(TextBound(t.feedback)));
    sets := sets + Opt("feedback", Present(TextBound(t.feedback)));
    fields, values := AddIfPresent(fields, values, sets, "available", Present(AvailableBound(t.available)));
    sets := sets + Opt("available", Present(AvailableBound(t.available)));
    TripSetsChain(t);
  }

  /** The guard chain of `update_last_trip`: 401, 400 for a missing trip
      object, 500 when the builder raises, 400 when no field is given. */
  function UpdateTripOutcome(admins: map<int, AdminRow>, admin: Option<AdminField>, trip: Option<TripInput>)
    : (r: Response<string>)
    ensures r.Ok? <==> AdminGate(admins, admin) && !MissingTrip(trip) && !UpdateFails(trip.value) && !NoTripFields(trip.value)
    ensures !AdminGate(admins, admin) ==> r == Error(401, "Unauthorized")
    ensures AdminGate(admins, admin) && MissingTrip(trip) ==> r == Error(400, "Missing trip data")
    ensures AdminGate(admins, admin) && !MissingTrip(trip) && !UpdateFails(trip.value) && NoTripFields(trip.value) ==>
              r == Error(400, "No fields to update")
  {
    if !AdminGate(admins, admin) then Error(401, "Unauthorized")
    else if trip.None? || EmptyTrip(trip.value) then Error(400, "Missing trip data")
    else if UpdateFails(trip.value) then Error(500, InternalServerError)
    else
      TripSetsEmpty(trip.value);
      if TripSets(trip.value) == [] then Error(400, "No fields to update")
      else Ok("Trip updated")
  }

  /** `update_last_trip`: after the guards, `UPDATE last_trips SET … WHERE
      id = ?`; an unknown id updates nothing and still succeeds. */
  method UpdateLastTrip(trips: Table<Row>, admins: map<int, AdminRow>, tripId: int, admin: Option<AdminField>,
                        trip: Option<TripInput>)
    returns (r: Response<string>)
    requires trips.Valid()
    modifies trips
    ensures trips.Valid() && trips.nextId == old(trips.nextId)
    ensures r == UpdateTripOutcome(admins, admin, trip)
    ensures r.Ok? && tripId in old(trips.rows) ==>
              trips.rows == old(trips.rows)[tripId := Apply(old(trips.rows)[tripId], TripSets(trip.value))]
    ensures !(r.Ok? && tripId in old(trips.rows)) ==> trips.rows == old(trips.rows)
  {
    if !AdminGate(admins, admin) {
      return Error(401, "Unauthorized");
    }
    if trip.None? || EmptyTrip(trip.value) {
      return Error(400, "Missing trip data");
    }
    var ok, fields, values := BuildTripUpdate(trip.value);
    if !ok {
      return Error(500, InternalServerError);
    }
    TripSetsEmpty(trip.value);
    if fields == [] {
      return Error(400, "No fields to update");
    }
    values := values + [SqlInt(tripId)];
    assert values[..|fields|] == Values(TripSets(trip.value));
    PairsOfSplit(TripSets(trip.value));
    var count := ExecuteUpdate(trips, fields, values);
    r := Ok("Trip updated");
  }

  /** After an update each tested column holds its new value or, when that
      field was not given, its old one; every other column is unchanged. */
  lemma UpdatedTripRow(row: Row, t: TripInput, column: string)
    requires column in row
    ensures column in Apply(row, TripSets(t))
    ensures column !in TripUpdateColumns ==> Apply(row, TripSets(t))[column] == row[column]
    ensures forall i | 0 <= i < |TripUpdateColumns| && TripUpdateColumns[i] == column ::
              Apply(row, TripSets(t))[column] == OrElse(TripUpdateValues(t)[i], row[column])
  {
    TripUpdateColumnsDistinct(TripUpdateColumns);
    UpdatedRow(row, TripUpdateColumns, TripUpdateValues(t), column);
  }

  /** A given `available` is stored as 1 or 0 by its truthiness. */
  lemma UpdatedAvailable(row: Row, t: TripInput, v: Json.Value)
    requires "available" in row && t.available == Some(v) && v != Json.Null
    ensures "available" in Apply(row, TripSets(t))
    ensures Apply(row, TripSets(t))["available"] == SqlInt(if Truthy(v) then 1 else 0)
  {
    assert TripUpdateColumns[8] == "available";
    TripUpdateColumnsDistinct(TripUpdateColumns);
    UpdatedColumn(row, TripUpdateColumns, TripUpdateValues(t), 8);
  }

  /** Truthiness, not the text: the string "false" lists the trip. */
  lemma FalseTextKeepsListed(row: Row, t: TripInput)
    requires "available" in row && t.available == Some(Json.String("false"))
    ensures "available" in Apply(row, TripSets(t))
    ensures Apply(row, TripSets(t))["available"] == SqlInt(1)
  {
    assert Truthy(Json.String("false"));
    UpdatedAvailable(row, t, Json.String("false"));
  }

  /** The columns the update never writes keep their values. */
  lemma UpdateKeepsCreated(row: Row, t: TripInput)
    requires "created_at" in row
    ensures "created_at" in Apply(row, TripSets(t))
    ensures Apply(row, TripSets(t))["created_at"] == row["created_at"]
  {
    assert "created_at" !in TripUpdateColumns by {
      forall i | 0 <= i < |TripUpdateColumns|
        ensures TripUpdateColumns[i] != "created_at"
      {
        assert TripUpdateColumns[i][0] != 'c';
      }
    }
    UpdatedTripRow(row, t, "created_at");
  }

  /** `int()` of a count given as text: "12" and " +12 " store 12. */
  lemma CountFromText(row: Row, t: TripInput, n: int)
    requires "days" in row && t.days == Given(IntText(IntString(n)))
    ensures !CountBound(t.days).Raise?
    ensures "days" in Apply(row, TripSets(t))
    ensures Apply(row, TripSets(t))["days"] == SqlInt(n)
  {
    ParseIntString(n);
    assert TripUpdateColumns[2] == "days";
    TripUpdateColumnsDistinct(TripUpdateColumns);
    UpdatedColumn(row, TripUpdateColumns, TripUpdateValues(t), 2);
  }

  // --------------------------------------------------------------- comments

  /** A comment row belongs to trip `tripId`. */
  predicate OfTrip(row: Row, tripId: int)
  {
    "trip_id" in row && row["trip_id"] == SqlInt(tripId)
  }

  /** `SELECT 1 FROM last_trip_comments WHERE id = ? AND trip_id = ?`. */
  predicate Linked(comments: map<int, Row>, commentId: int, tripId: int)
  {
    commentId in comments && OfTrip(comments[commentId], tripId)
  }

  /** The declared foreign key: every comment names an existing trip. */
  predicate CommentsReferenceTrips(trips: map<int, Row>, comments: map<int, Row>)
  {
    forall c | c in comments :: "trip_id" in comments[c] && comments[c]["trip_id"].SqlInt? &&
                                comments[c]["trip_id"].i in trips
  }

  /** The row `add_trip_comment` inserts. */
  function CommentRow(tripId: int, name: string, comment: string, now: string): (row: Row)
    ensures OfTrip(row, tripId)
  {
    map["trip_id" := SqlInt(tripId), "name" := SqlText(name), "comment" := SqlText(comment),
        "created_at" := SqlText(now)]
  }

  /** `payload.get("name") or "Guest"`. */
  function CommenterName(name: Option<string>): (r: string)
    ensures r != ""
    ensures name.Some? && name.value != "" ==> r == name.value
  {
    if name.Some? && name.value != "" then name.value else "Guest"
  }

  /** `add_trip_comment`: 400 for a missing or empty comment, before the
      trip is looked up; 404 for an unknown trip; otherwise one comment
      row, signed "Guest" when no name is given. */
  method AddTripComment(trips: Table<Row>, comments: Table<Row>, tripId: int,
                        name: Option<string>, comment: Option<string>, now: string)
    returns (r: Response<string>)
    requires comments.Valid() && trips != comments
    modifies comments
    ensures comments.Valid()
    ensures comment.None? || comment.value == "" ==> r == Error(400, "Comment required")
    ensures comment.Some? && comment.value != "" && tripId !in trips.rows ==> r == Error(404, "Trip not found")
    ensures r.Ok? <==> comment.Some? && comment.value != "" && tripId in trips.rows
    ensures r.Ok? ==> r.body == "Comment added" &&
                      comments.rows == old(comments.rows)[old(comments.nextId) :=
                        CommentRow(tripId, CommenterName(name), comment.value, now)]
    ensures r.Error? ==> comments.rows == old(comments.rows) && comments.nextId == old(comments.nextId)
    ensures CommentsReferenceTrips(trips.rows, old(comments.rows)) ==> CommentsReferenceTrips(trips.rows, comments.rows)
  {
    var author := if name.Some? && name.value != "" then name.value else "Guest";
    if comment.None? || comment.value == "" {
      return Error(400, "Comment required");
    }
    if tripId !in trips.rows {
      return Error(404, "Trip not found");
    }
    var id := comments.Insert(CommentRow(tripId, author, comment.value, now));
    r := Ok("Comment added");
  }

  /** The `update` object of `admin_update_comment`; a missing or `null`
      object has neither field. */
  datatype CommentPatch = CommentPatch(name: Option<string>, comment: Option<string>)

  const CommentUpdateColumns: seq<string> := ["name", "comment"]

  function CommentSets(u: CommentPatch): seq<Assignment>
  {
    Chosen(CommentUpdateColumns, [TextOpt(u.name), TextOpt(u.comment)])
  }

  /** Only the name and the text of a comment can change; both, either or
      neither, in that order. */
  lemma CommentSetsShape(u: CommentPatch)
    ensures CommentSets(u) == [] <==> u.name.None? && u.comment.None?
    ensures Columns(CommentSets(u)) == (if u.name.Some? then ["name"] else []) + (if u.comment.Some? then ["comment"] else [])
  {
    var vals := [TextOpt(u.name), TextOpt(u.comment)];
    assert CommentSets(u) == Opt("name", vals[0]) + (Opt("comment", vals[1]) + Chosen([], []));
  }

  method BuildCommentUpdate(u: CommentPatch) returns (fields: seq<string>, values: seq<SqlValue>)
    ensures fields == Columns(CommentSets(u)) && values == Values(CommentSets(u))
  {
    ghost var names := CommentUpdateColumns;
    ghost var vals := [TextOpt(u.name), TextOpt(u.comment)];
    ghost var sets: seq<Assignment> := [];
    fields, values := [], [];
    fields, values := AddIfPresent(fields, values, sets, "name", TextOpt(u.name));
    BuilderStep(names, vals, 0);
    sets := sets + Opt("name", TextOpt(u.name));
    fields, values := AddIfPresent(fields, values, sets, "comment", TextOpt(u.comment));
    BuilderStep(names, vals, 1);
    sets := sets + Opt("comment", TextOpt(u.comment));
    BuilderDone(names, vals, 2);
  }

  /** The guard chain the two moderation endpoints share. */
  function ModerationGate(trips: map<int, Row>, comments: map<int, Row>, admins: map<int, AdminRow>,
                          admin: Option<AdminField>, tripId: int, commentId: int)
    : (r: Option<Response<string>>)
    ensures r.None? <==> AdminGate(admins, admin) && tripId in trips && Linked(comments, commentId, tripId)
    ensures !AdminGate(admins, admin) ==> r == Some(Error(401, "Unauthorized"))
    ensures AdminGate(admins, admin) && tripId !in trips ==> r == Some(Error(404, "Trip not found"))
    ensures AdminGate(admins, admin) && tripId in trips && !Linked(comments, commentId, tripId) ==>
              r == Some(Error(404, "Comment not found"))
  {
    if !AdminGate(admins, admin) then Some(Error(401, "Unauthorized"))
    else if tripId !in trips then Some(Error(404, "Trip not found"))
    else if !Linked(comments, commentId, tripId) then Some(Error(404, "Comment not found"))
    else None
  }

  /** `admin_update_comment`: the shared guards, 400 when the update has
      neither field, then `UPDATE last_trip_comments SET … WHERE id = ?`. */
  method AdminUpdateComment(trips: Table<Row>, comments: Table<Row>, admins: map<int, AdminRow>,
                            tripId: int, commentId: int, admin: Option<AdminField>, update: Option<CommentPatch>)
    returns (r: Response<string>)
    requires comments.Valid() && trips != comments
    modifies comments
    ensures comments.Valid() && comments.nextId == old(comments.nextId)
    ensures var u := OrElse(update, CommentPatch(None, None));
            var gate := ModerationGate(trips.rows, old(comments.rows), admins, admin, tripId, commentId);
            (gate.Some? ==> r == gate.value) &&
            (gate.None? && CommentSets(u) == [] ==> r == Error(400, "No fields to update")) &&
            (gate.None? && CommentSets(u) != [] ==>
               r == Ok("Comment updated") &&
               comments.rows == old(comments.rows)[commentId := Apply(old(comments.rows)[commentId], CommentSets(u))])
    ensures r.Error? ==> comments.rows == old(comments.rows)
  {
    var u := if update.Some? then update.value else CommentPatch(None, None);
    if !AdminGate(admins, admin) {
      return Error(401, "Unauthorized");
    }
    if tripId !in trips.rows {
      return Error(404, "Trip not found");
    }
    if !(commentId in comments.rows && OfTrip(comments.rows[commentId], tripId)) {
      return Error(404, "Comment not found");
    }
    var fields, values := BuildCommentUpdate(u);
    if fields == [] {
      return Error(400, "No fields to update");
    }
    values := values + [SqlInt(commentId)];
    assert values[..|fields|] == Values(CommentSets(u));
    PairsOfSplit(CommentSets(u));
    var count := ExecuteUpdate(comments, fields, values);
    r := Ok("Comment updated");
  }

  /** Moderation keeps a comment on its trip and keeps its time stamp; the
      name and the text take the given values. */
  lemma ModeratedComment(row: Row, u: CommentPatch)
    requires "trip_id" in row && "created_at" in row && "name" in row && "comment" in row
    ensures var after := Apply(row, CommentSets(u));
            after.Keys == row.Keys &&
            after["trip_id"] == row["trip_id"] && after["created_at"] == row["created_at"] &&
            after["name"] == OrElse(TextOpt(u.name), row["name"]) &&
            after["comment"] == OrElse(TextOpt(u.comment), row["comment"])
  {
    var names := CommentUpdateColumns;
    var vals := [TextOpt(u.name), TextOpt(u.comment)];
    assert Distinct(names);
    ChosenDistinct(names, vals);
    ApplyAt(row, CommentSets(u), "trip_id");
    assert (set a | a in CommentSets(u) :: a.0) <= row.Keys by {
      CommentSetsShape(u);
      forall a | a in CommentSets(u)
        ensures a.0 in row
      {
        var i :| 0 <= i < |CommentSets(u)| && CommentSets(u)[i] == a;
        assert Columns(CommentSets(u))[i] == a.0;
      }
    }
    UpdatedRow(row, names, vals, "trip_id");
    UpdatedRow(row, names, vals, "created_at");
    UpdatedRow(row, names, vals, "name");
    UpdatedRow(row, names, vals, "comment");
  }

  /** `admin_delete_comment`: the shared guards, then the comment goes. */
  method AdminDeleteComment(trips: Table<Row>, comments: Table<Row>, admins: map<int, AdminRow>,
                            tripId: int, commentId: int, admin: Option<AdminField>)
    returns (r: Response<string>)
    requires comments.Valid() && trips != comments
    modifies comments
    ensures comments.Valid() && comments.nextId == old(comments.nextId)
    ensures var gate := ModerationGate(trips.rows, old(comments.rows), admins, admin, tripId, commentId);
            (gate.Some? ==> r == gate.value && comments.rows == old(comments.rows)) &&
            (gate.None? ==> r == Ok("Comment deleted") && comments.rows == old(comments.rows) - {commentId})
    ensures CommentsReferenceTrips(trips.rows, old(comments.rows)) ==> CommentsReferenceTrips(trips.rows, comments.rows)
  {
    if !AdminGate(admins, admin) {
      return Error(401, "Unauthorized");
    }
    if tripId !in trips.rows {
      return Error(404, "Trip not found");
    }
    if !(commentId in comments.rows && OfTrip(comments.rows[commentId], tripId)) {
      return Error(404, "Comment not found");
    }
    var count := comments.DeleteAt(commentId);
    r := Ok("Comment deleted");
  }

  // ------------------------------------------------------------ trip delete

  /** `delete_last_trip` as written: only the trip row is deleted. The
      comments table declares `ON DELETE CASCADE`, but the connection never
      enables foreign keys, so SQLite does not apply it. */
  method DeleteLastTrip(trips: Table<Row>, admins: map<int, AdminRow>, tripId: int, admin: Option<AdminField>)
    returns (r: Response<string>)
    requires trips.Valid()
    modifies trips
    ensures trips.Valid() && trips.nextId == old(trips.nextId)
    ensures !AdminGate(admins, admin) ==> r == Error(401, "Unauthorized") && trips.rows == old(trips.rows)
    ensures AdminGate(admins, admin) ==> r == Ok("Trip deleted") && trips.rows == old(trips.rows) - {tripId}
  {
    if !AdminGate(admins, admin) {
      return Error(401, "Unauthorized");
    }
    var count := trips.DeleteAt(tripId);
    r := Ok("Trip deleted");
  }

  /** Deleting a trip that has a comment, as written, leaves that comment
      pointing at no trip, and the public comment list still shows it. */
  lemma DeleteLeavesOrphans(trips: map<int, Row>, comments: map<int, Row>, nextId: int, tripId: int, commentId: int)
    requires forall c | c in comments :: 1 <= c < nextId
    requires Linked(comments, commentId, tripId)
    ensures !CommentsReferenceTrips(trips - {tripId}, comments)
    ensures commentId in TripCommentIds(comments, nextId, tripId)
  {
    TripCommentIdsExact(comments, nextId, tripId);
  }

  /** The delete the schema describes: the trip and, by `ON DELETE
      CASCADE`, its comments. */
  method DeleteLastTripCascade(trips: Table<Row>, comments: Table<Row>, admins: map<int, AdminRow>,
                               tripId: int, admin: Option<AdminField>)
    returns (r: Response<string>)
    requires trips.Valid() && comments.Valid() && trips != comments
    modifies trips, comments
    ensures trips.Valid() && comments.Valid()
    ensures trips.nextId == old(trips.nextId) && comments.nextId == old(comments.nextId)
    ensures !AdminGate(admins, admin) ==>
              r == Error(401, "Unauthorized") && trips.rows == old(trips.rows) && comments.rows == old(comments.rows)
    ensures AdminGate(admins, admin) ==>
              r == Ok("Trip deleted") && trips.rows == old(trips.rows) - {tripId} &&
              comments.rows == Without(old(comments.rows), (row: Row) => OfTrip(row, tripId))
    ensures CommentsReferenceTrips(old(trips.rows), old(comments.rows)) ==>
              CommentsReferenceTrips(trips.rows, comments.rows)
  {
    if !AdminGate(admins, admin) {
      return Error(401, "Unauthorized");
    }
    var count := trips.DeleteAt(tripId);
    var removed := comments.DeleteWhere((row: Row) => OfTrip(row, tripId));
    CascadeKeepsReferences(old(trips.rows), old(comments.rows), tripId);
    r := Ok("Trip deleted");
  }

  /** The cascade keeps every remaining comment on an existing trip and
      leaves none on the deleted one. */
  lemma CascadeKeepsReferences(trips: map<int, Row>, comments: map<int, Row>, tripId: int)
    ensures var kept := Without(comments, (row: Row) => OfTrip(row, tripId));
            (CommentsReferenceTrips(trips, comments) ==> CommentsReferenceTrips(trips - {tripId}, kept)) &&
            forall c | c in kept :: !OfTrip(kept[c], tripId)
  {
    var p := (row: Row) => OfTrip(row, tripId);
    var kept := Without(comments, p);
    forall c | c in kept
      ensures !OfTrip(kept[c], tripId)
    {
      assert c !in Matching(comments, p);
    }
  }

  // ------------------------------------------------------------------ reads

  /** The sort key of `ORDER BY datetime(created_at) DESC`: `stamp` is
      SQLite's `datetime()` reading of the stored text, as a number. */
  function CreatedKey(rows: map<int, Row>, stamp: string -> int, id: int): int
  {
    if id in rows && "created_at" in rows[id] && rows[id]["created_at"].SqlText? then stamp(rows[id]["created_at"].t)
    else 0
  }

  /** Sorting keeps exactly the ids it was given. */
  lemma SortedIdsIn(ids: seq<int>, key: int -> int, rows: map<int, Row>)
    requires forall i | 0 <= i < |ids| :: ids[i] in rows
    ensures forall i | 0 <= i < |Sorting.SortDesc(ids, key)| :: Sorting.SortDesc(ids, key)[i] in rows
    ensures |Sorting.SortDesc(ids, key)| == |ids|
  {
    var s := Sorting.SortDesc(ids, key);
    Sorting.SortDescCorrect(ids, key);
    assert |multiset(s)| == |s| && |multiset(ids)| == |ids|;
    forall i | 0 <= i < |s|
      ensures s[i] in rows
    {
      assert s[i] in multiset(ids);
      var j :| 0 <= j < |ids| && ids[j] == s[i];
    }
  }

  /** The ids a trip listing returns, newest first. */
  function TripOrder(rows: map<int, Row>, ids: seq<int>, stamp: string -> int): (r: seq<int>)
    requires forall i | 0 <= i < |ids| :: ids[i] in rows
    ensures |r| == |ids| && forall i | 0 <= i < |r| :: r[i] in rows
  {
    SortedIdsIn(ids, id => CreatedKey(rows, stamp, id), rows);
    Sorting.SortDesc(ids, id => CreatedKey(rows, stamp, id))
  }

  /** `list_last_trips`: the available trips, newest `created_at` first. */
  function ListLastTrips(rows: map<int, Row>, nextId: int, stamp: string -> int): (r: seq<map<string, PyValue>>)
  {
    var ids := AvailableIds(rows, nextId);
    assert forall i | 0 <= i < |ids| :: ids[i] in ids;
    var order := TripOrder(rows, ids, stamp);
    FetchAllDicts(Records(rows, order))
  }

  /** The public list holds each available trip once and nothing else,
      ordered by non-increasing creation stamp. */
  lemma ListLastTripsCorrect(rows: map<int, Row>, nextId: int, stamp: string -> int)
    requires forall id | id in rows :: 1 <= id < nextId
    ensures var ids := AvailableIds(rows, nextId);
            (forall i | 0 <= i < |ids| :: ids[i] in rows) &&
            var order := TripOrder(rows, ids, stamp);
            var list := ListLastTrips(rows, nextId, stamp);
            multiset(order) == multiset(ids) &&
            (forall id :: id in ids <==> id in rows && IsAvailable(rows[id])) &&
            Sorting.SortedDesc(order, id => CreatedKey(rows, stamp, id)) &&
            |list| == |order| &&
            forall i | 0 <= i < |list| :: list[i] == DictOf(WithId(order[i], rows[order[i]]))
  {
    var ids := AvailableIds(rows, nextId);
    assert forall i | 0 <= i < |ids| :: ids[i] in ids;
    SelectAvailableExact(rows, nextId);
    Sorting.SortDescCorrect(ids, id => CreatedKey(rows, stamp, id));
  }

  /** `admin_list_last_trips`: 401, or every trip, newest first. */
  function AdminListLastTrips(rows: map<int, Row>, nextId: int, stamp: string -> int,
                              admins: map<int, AdminRow>, admin: Option<AdminField>)
    : (r: Response<seq<map<string, PyValue>>>)
    ensures !AdminGate(admins, admin) <==> r == Error(401, "Unauthorized")
    ensures r.Ok? ==> |r.body| == |Sorting.ScanOrder(rows.Keys, 1, nextId)|
  {
    if !AdminGate(admins, admin) then Error(401, "Unauthorized")
    else
      var ids := Sorting.ScanOrder(rows.Keys, 1, nextId);
      assert forall i | 0 <= i < |ids| :: ids[i] in ids;
      Ok(FetchAllDicts(Records(rows, TripOrder(rows, ids, stamp))))
  }

  /** Unlike the public list, the admin list includes unlisted trips. */
  lemma AdminListHasAll(rows: map<int, Row>, nextId: int, stamp: string -> int, id: int)
    requires forall k | k in rows :: 1 <= k < nextId
    requires id in rows
    ensures var ids := Sorting.ScanOrder(rows.Keys, 1, nextId);
            (forall i | 0 <= i < |ids| :: ids[i] in rows) && id in TripOrder(rows, ids, stamp)
  {
    var ids := Sorting.ScanOrder(rows.Keys, 1, nextId);
    assert forall i | 0 <= i < |ids| :: ids[i] in rows by {
      assert forall i | 0 <= i < |ids| :: ids[i] in ids;
    }
    assert id in multiset(ids);
    Sorting.SortDescCorrect(ids, x => CreatedKey(rows, stamp, x));
    assert id in multiset(TripOrder(rows, ids, stamp));
  }

  /** The admin list holds every stored trip once and nothing else,
      ordered by non-increasing creation stamp. */
  lemma AdminListLastTripsCorrect(rows: map<int, Row>, nextId: int, stamp: string -> int,
                                  admins: map<int, AdminRow>, admin: Option<AdminField>)
    requires forall id | id in rows :: 1 <= id < nextId
    requires AdminGate(admins, admin)
    ensures var ids := Sorting.ScanOrder(rows.Keys, 1, nextId);
            (forall i | 0 <= i < |ids| :: ids[i] in rows) &&
            var order := TripOrder(rows, ids, stamp);
            var r := AdminListLastTrips(rows, nextId, stamp, admins, admin);
            multiset(order) == multiset(ids) &&
            (forall id :: id in ids <==> id in rows) &&
            Sorting.SortedDesc(order, id => CreatedKey(rows, stamp, id)) &&
            r.Ok? && |r.body| == |order| &&
            forall i | 0 <= i < |order| :: r.body[i] == DictOf(WithId(order[i], rows[order[i]]))
  {
    var ids := Sorting.ScanOrder(rows.Keys, 1, nextId);
    assert forall i | 0 <= i < |ids| :: ids[i] in ids;
    Sorting.SortDescCorrect(ids, id => CreatedKey(rows, stamp, id));
  }

  /** The comment ids of a trip, `ORDER BY id DESC`. */
  function TripCommentIds(comments: map<int, Row>, nextId: int, tripId: int): seq<int>
  {
    Sorting.SortByIdDesc(Sorting.ScanOrder(set c | c in comments && OfTrip(comments[c], tripId), 1, nextId))
  }

  /** The trip's comments, each once, strictly newest first. */
  lemma TripCommentIdsExact(comments: map<int, Row>, nextId: int, tripId: int)
    requires forall c | c in comments :: 1 <= c < nextId
    ensures var ids := TripCommentIds(comments, nextId, tripId);
            (forall c :: c in ids <==> Linked(comments, c, tripId)) &&
            forall i, j | 0 <= i < j < |ids| :: ids[i] > ids[j]
  {
    var scan := Sorting.ScanOrder(set c | c in comments && OfTrip(comments[c], tripId), 1, nextId);
    Sorting.ByIdDesc(scan);
    forall c
      ensures c in TripCommentIds(comments, nextId, tripId) <==> c in scan
    {
      assert c in multiset(TripCommentIds(comments, nextId, tripId)) <==> c in multiset(scan);
    }
  }

  /** Every id the comment query returns is a comment of the trip. */
  lemma TripCommentIdsLinked(comments: map<int, Row>, nextId: int, tripId: int)
    ensures var ids := TripCommentIds(comments, nextId, tripId);
            forall i | 0 <= i < |ids| :: Linked(comments, ids[i], tripId)
  {
    var scan := Sorting.ScanOrder(set c | c in comments && OfTrip(comments[c], tripId), 1, nextId);
    var ids := TripCommentIds(comments, nextId, tripId);
    Sorting.ByIdDesc(scan);
    forall i | 0 <= i < |ids|
      ensures Linked(comments, ids[i], tripId)
    {
      assert ids == Sorting.SortByIdDesc(scan);
      assert ids[i] in multiset(ids);
      assert ids[i] in scan;
    }
  }

  /** The columns the comment queries select. */
  const CommentListColumns: set<string> := {"id", "name", "comment", "created_at"}

  /** `SELECT id, name, comment, created_at`: the selected columns only. */
  function Project(row: Row, columns: set<string>): (r: Row)
    ensures r.Keys == row.Keys * columns
    ensures forall k | k in r :: r[k] == row[k]
  {
    map k | k in row && k in columns :: row[k]
  }

  /** `get_trip_comments`: the trip's comments, newest first, without
      their trip id. */
  function GetTripComments(comments: map<int, Row>, nextId: int, tripId: int): (r: seq<map<string, PyValue>>)
    ensures |r| == |TripCommentIds(comments, nextId, tripId)|
    ensures forall i | 0 <= i < |r| :: "trip_id" !in r[i]
    ensures forall i | 0 <= i < |r| ::
              var id := TripCommentIds(comments, nextId, tripId)[i];
              Linked(comments, id, tripId) && r[i] == DictOf(Project(WithId(id, comments[id]), CommentListColumns))
  {
    var ids := TripCommentIds(comments, nextId, tripId);
    TripCommentIdsLinked(comments, nextId, tripId);
    var rows := seq(|ids|, i requires 0 <= i < |ids| =>
                  if ids[i] in comments then Project(WithId(ids[i], comments[ids[i]]), CommentListColumns)
                  else map[]);
    FetchAllDicts(rows)
  }

  /** A trip with its comments: `trip["comments"] = comments`. */
  datatype TripDetail = TripDetail(trip: map<string, PyValue>, comments: seq<map<string, PyValue>>)

  /** `get_last_trip`: any trip by id, listed or not, with its comments. */
  function GetLastTrip(trips: map<int, Row>, comments: map<int, Row>, commentsNext: int, tripId: int)
    : (r: Response<TripDetail>)
    ensures r.Ok? <==> tripId in trips
    ensures r.Error? ==> r == Error(404, "Trip not found")
    ensures r.Ok? ==> r.body.trip == DictOf(WithId(tripId, trips[tripId])) &&
                      r.body.comments == GetTripComments(comments, commentsNext, tripId)
  {
    match SelectById(trips, tripId)
    case Some(d) => Ok(TripDetail(d, GetTripComments(comments, commentsNext, tripId)))
    case None => Error(404, "Trip not found")
  }

  /** `upload_trip_images`: the shared upload helper on "last_trips". */
  method UploadTripImages(admins: map<int, AdminRow>, username: string, password: string,
                          filenames: seq<Option<string>>, suffixes: seq<string>)
    returns (r: Response<seq<string>>)
    requires |suffixes| == |filenames|
    ensures !VerifyAdmin(admins, username, password) ==> r == Error(401, "Unauthorized")
    ensures VerifyAdmin(admins, username, password) ==> r == Ok(Uploads.StoredPaths("last_trips", filenames, suffixes))
  {
    r := Uploads.UploadImages(admins, username, password, "last_trips", filenames, suffixes);
  }
}
