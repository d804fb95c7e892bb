/** The picnic-spot endpoints: the public list of available spots, one spot
    by id, and the admin operations (add, sparse update, delete, image
    upload). A spot carries three image lists stored as JSON text. */
module SpotsApi {
  import opened Wrappers
  import opened DbOps
  import opened Db
  import opened Patch
  import Json
  import Uploads

  /** The `spot` object of `add_spot` as the `PicnicSpot` model reads it.
      A required field that is missing or `null` is None; the two optional
      image lists are None when missing or `null`; `available` defaults to
      true when the key is missing. */
  datatype SpotInput = SpotInput(
    name: Option<string>, price: Option<Float>, location: Option<string>, images: Option<seq<string>>,
    shortDescription: Option<string>, detailedDescription: Option<string>,
    tripImages: Option<seq<string>>, hotelImages: Option<seq<string>>, available: Field<bool>)

  /** The `PicnicSpot` model accepts the object. */
  predicate ValidSpot(s: SpotInput)
  {
    s.name.Some? && s.price.Some? && s.location.Some? && s.images.Some? &&
    s.shortDescription.Some? && s.detailedDescription.Some? && !s.available.JsonNull?
  }

  /** `trip_images or []`: a missing list and an empty list are the same. */
  function ListOrEmpty(o: Option<seq<string>>): seq<string>
  {
    if o.Some? then o.value else []
  }

  /** The columns `add_spot` writes (every column but the id, including
      the two that `init_db` appends). */
  const SpotDataColumns: set<string> :=
    {"name", "price", "location", "images", "short_description", "detailed_description",
     "trip_images", "hotel_images", "available"}

  /** The row `add_spot` inserts for a validated spot. */
  function SpotRow(s: SpotInput): Row
    requires ValidSpot(s)
  {
    map["name" := SqlText(s.name.value),
        "price" := SqlReal(s.price.value),
        "location" := SqlText(s.location.value),
        "images" := SqlText(Json.DumpStrings(s.images.value)),
        "short_description" := SqlText(s.shortDescription.value),
        "detailed_description" := SqlText(s.detailedDescription.value),
        "trip_images" := SqlText(Json.DumpStrings(ListOrEmpty(s.tripImages))),
        "hotel_images" := SqlText(Json.DumpStrings(ListOrEmpty(s.hotelImages))),
        "available" := SqlBool(if s.available.Given? then s.available.value else true)]
  }

  /** An inserted spot fills exactly the non-id columns of the table as
      `init_db` leaves it on a fresh database (`InitSchemaFresh`). */
  lemma SpotRowColumns(s: SpotInput)
    requires ValidSpot(s)
    ensures SpotRow(s).Keys == SpotDataColumns
    ensures SpotDataColumns + {"id"} == set k | k in SpotColumns + ["trip_images", "hotel_images"]
    ensures s.available.Absent? ==> SpotRow(s)["available"] == SqlInt(1)
  {
  }

  /** `get_spot` on a freshly added spot returns all three image lists as
      lists; a spot added without trip or hotel images has empty ones. */
  lemma AddedSpotReadsBack(id: int, s: SpotInput)
    requires ValidSpot(s)
    ensures var d := DictOf(WithId(id, SpotRow(s)));
            "images" in d && d["images"] == Decoded(Json.Array(Json.StringValues(s.images.value))) &&
            "trip_images" in d && d["trip_images"] == Decoded(Json.Array(Json.StringValues(ListOrEmpty(s.tripImages)))) &&
            "hotel_images" in d && d["hotel_images"] == Decoded(Json.Array(Json.StringValues(ListOrEmpty(s.hotelImages)))) &&
            "id" in d && d["id"] == Column(SqlInt(id))
  {
    var row := SpotRow(s);
    assert row["images"] == SqlText(Json.DumpStrings(s.images.value));
    assert row["trip_images"] == SqlText(Json.DumpStrings(ListOrEmpty(s.tripImages)));
    assert row["hotel_images"] == SqlText(Json.DumpStrings(ListOrEmpty(s.hotelImages)));
    DictOfWithId(id, row, "images");
    DictOfWithId(id, row, "trip_images");
    DictOfWithId(id, row, "hotel_images");
    StoredListReadsBack(s.images.value);
    StoredListReadsBack(ListOrEmpty(s.tripImages));
    StoredListReadsBack(ListOrEmpty(s.hotelImages));
  }

  /** `add_spot`: 401, 500 for a refused (or missing) spot object, or the
      row is inserted under a fresh id. */
  method AddSpot(spots: Table<Row>, admins: map<int, AdminRow>, admin: Option<AdminField>, spot: Option<SpotInput>)
    returns (r: Response<Created>)
    requires spots.Valid()
    modifies spots
    ensures spots.Valid()
    ensures !AdminGate(admins, admin) ==> r == Error(401, "Unauthorized")
    ensures AdminGate(admins, admin) && !(spot.Some? && ValidSpot(spot.value)) ==> r == Error(500, InternalServerError)
    ensures r.Ok? <==> AdminGate(admins, admin) && spot.Some? && ValidSpot(spot.value)
    ensures r.Ok? ==> r.body == Created("Spot added successfully", old(spots.nextId))
    ensures r.Ok? ==> spots.rows == old(spots.rows)[old(spots.nextId) := SpotRow(spot.value)]
    ensures r.Error? ==> spots.rows == old(spots.rows) && spots.nextId == old(spots.nextId)
  {
    if !AdminGate(admins, admin) {
      return Error(401, "Unauthorized");
    }
    if spot.None? || !ValidSpot(spot.value) {
      return Error(500, InternalServerError);
    }
    var id := spots.Insert(SpotRow(spot.value));
    r := Ok(Created("Spot added successfully", id));
  }

  // ------------------------------------------------------------------ reads

  /** `get_spots`: only available spots are listed, each with its id. */
  function GetSpots(rows: map<int, Row>, nextId: int): (r: seq<map<string, PyValue>>)
    ensures forall i | 0 <= i < |r| :: "available" in r[i] && r[i]["available"] == Column(SqlInt(1))
  {
    SelectAvailableEntries(rows, nextId);
    SelectAvailable(rows, nextId)
  }

  /** `get_spot`: any spot with this id, listed or not, or 404. */
  function GetSpot(rows: map<int, Row>, spotId: int): (r: Response<map<string, PyValue>>)
    ensures r.Ok? <==> spotId in rows
    ensures r.Error? ==> r == Error(404, "Spot not found")
    ensures r.Ok? ==> r.body == DictOf(WithId(spotId, rows[spotId])) && "id" in r.body && r.body["id"] == Column(SqlInt(spotId))
  {
    match SelectById(rows, spotId)
    case Some(d) => Ok(d)
    case None => Error(404, "Spot not found")
  }

  // ----------------------------------------------------------------- update

  /** The `spot` object of `update_spot` as `PicnicSpotUpdate` reads it. */
  datatype SpotPatch = SpotPatch(
    name: Option<string>, price: Option<Float>, location: Option<string>, images: Option<seq<string>>,
    shortDescription: Option<string>, detailedDescription: Option<string>,
    tripImages: Option<seq<string>>, hotelImages: Option<seq<string>>, available: Option<bool>)

  /** The columns `update_spot` tests, in the order it tests them. */
  const SpotUpdateColumns: seq<string> :=
    ["name", "price", "location", "images", "short_description", "detailed_description",
     "trip_images", "hotel_images", "available"]

  function SpotUpdateValues(u: SpotPatch): (vals: seq<Option<SqlValue>>)
    ensures |vals| == |SpotUpdateColumns|
  {
    [TextOpt(u.name), RealOpt(u.price), TextOpt(u.location), ListOpt(u.images),
     TextOpt(u.shortDescription), TextOpt(u.detailedDescription), ListOpt(u.tripImages),
     ListOpt(u.hotelImages), BoolOpt(u.available)]
  }

  /** No column is tested twice. */
  lemma SpotUpdateColumnsDistinct(names: seq<string>)
    requires names == SpotUpdateColumns
    ensures Distinct(names)
  {
    forall i, j | 0 <= i < j < |names|
      ensures names[i] != names[j]
    {
      assert names[i][0] != names[j][0];
    }
  }

  /** The SET list of an update. */
  function SpotSets(u: SpotPatch): seq<Assignment>
  {
    Chosen(SpotUpdateColumns, SpotUpdateValues(u))
  }

  const NoSpotFields := SpotPatch(None, None, None, None, None, None, None, None, None)

  /** There is nothing to update exactly when every field is `null`/missing. */
  lemma SpotSetsEmpty(u: SpotPatch)
    ensures SpotSets(u) == [] <==> u == NoSpotFields
  {
    var vals := SpotUpdateValues(u);
    if SpotSets(u) == [] {
      assert vals[0].None? && vals[1].None? && vals[2].None? && vals[3].None? && vals[4].None?;
      assert vals[5].None? && vals[6].None? && vals[7].None? && vals[8].None?;
    }
  }

  /** The builder's SET list names columns in testing order, none twice. */
  lemma SpotSetsOrdered(u: SpotPatch)
    ensures IsSubsequence(Columns(SpotSets(u)), SpotUpdateColumns)
    ensures Distinct(Columns(SpotSets(u)))
  {
    SpotUpdateColumnsDistinct(SpotUpdateColumns);
    ChosenOrdered(SpotUpdateColumns, SpotUpdateValues(u));
    ChosenDistinct(SpotUpdateColumns, SpotUpdateValues(u));
  }

  /** The SET list, as the builder appends it: the entry of each tested
      column in turn. */
  lemma SpotSetsChain(u: SpotPatch)
    ensures SpotSets(u) ==
      [] + Opt("name", TextOpt(u.name)) + Opt("price", RealOpt(u.price))
        + Opt("location", TextOpt(u.location)) + Opt("images", ListOpt(u.images))
        + Opt("short_description", TextOpt(u.shortDescription))
        + Opt("detailed_description", TextOpt(u.detailedDescription))
        + Opt("trip_images", ListOpt(u.tripImages)) + Opt("hotel_images", ListOpt(u.hotelImages))
        + Opt("available", BoolOpt(u.available))
  {
    var names := SpotUpdateColumns;
    var vals := SpotUpdateValues(u);
    ChosenNine(names, vals);
  }

  /** The `update_fields` and `values` lists of `update_spot`. */
  method BuildSpotUpdate(u: SpotPatch) returns (fields: seq<string>, values: seq<SqlValue>)
    ensures fields == Columns(SpotSets(u)) && values == Values(SpotSets(u))
  {
    ghost var sets: seq<Assignment> := [];
    fields, values := [], [];
    fields, values := AddIfPresent(fields, values, sets, "name", TextOpt(u.name));
    sets := sets + Opt("name", TextOpt(u.name));
    fields, values := AddIfPresent(fields, values, sets, "price", RealOpt(u.price));
    sets := sets + Opt("price", RealOpt(u.price));
    fields, values := AddIfPresent(fields, values, sets, "location", TextOpt(u.location));
    sets := sets + Opt("location", TextOpt(u.location));
    fields, values := AddIfPresent(fields, values, sets, "images", ListOpt(u.images));
    sets := sets + Opt("images", ListOpt(u.images));
    fields, values := AddIfPresent(fields, values, sets, "short_description", TextOpt(u.shortDescription));
    sets := sets + Opt("short_description", TextOpt(u.shortDescription));
    fields, values := AddIfPresent(fields, values, sets, "detailed_description", TextOpt(u.detailedDescription));
    sets := sets + Opt("detailed_description", TextOpt(u.detailedDescription));
    fields, values := AddIfPresent(fields, values, sets, "trip_images", ListOpt(u.tripImages));
    sets := sets + Opt("trip_images", ListOpt(u.tripImages));
    fields, values := AddIfPresent(fields, values, sets, "hotel_images", ListOpt(u.hotelImages));
    sets := sets + Opt("hotel_images", ListOpt(u.hotelImages));
    fields, values := AddIfPresent(fields, values, sets, "available", BoolOpt(u.available));
    sets := sets + Opt("available", BoolOpt(u.available));
    SpotSetsChain(u);
  }

  /** The guard chain of `update_spot`: 401, 500 for a missing spot object,
      400 when no field is given, then success. */
  function UpdateSpotOutcome(admins: map<int, AdminRow>, admin: Option<AdminField>, spot: Option<SpotPatch>)
    : (r: Response<string>)
    ensures r.Ok? <==> AdminGate(admins, admin) && spot.Some? && spot.value != NoSpotFields
    ensures !AdminGate(admins, admin) ==> r == Error(401, "Unauthorized")
    ensures AdminGate(admins, admin) && spot == Some(NoSpotFields) ==> r == Error(400, "No fields to update")
  {
    if !AdminGate(admins, admin) then Error(401, "Unauthorized")
    else if spot.None? then Error(500, InternalServerError)
    else
      SpotSetsEmpty(spot.value);
      if SpotSets(spot.value) == [] then Error(400, "No fields to update")
      else Ok("Spot updated successfully")
  }

  /** `update_spot`: after the guards, `UPDATE picnic_spots SET … WHERE
      id = ?`. An unknown id updates nothing and still reports success. */
  method UpdateSpot(spots: Table<Row>, admins: map<int, AdminRow>, spotId: int, admin: Option<AdminField>,
                    spot: Option<SpotPatch>)
    returns (r: Response<string>)
    requires spots.Valid()
    modifies spots
    ensures spots.Valid() && spots.nextId == old(spots.nextId)
    ensures r == UpdateSpotOutcome(admins, admin, spot)
    ensures r.Ok? && spotId in old(spots.rows) ==>
              spots.rows == old(spots.rows)[spotId := Apply(old(spots.rows)[spotId], SpotSets(spot.value))]
    ensures !(r.Ok? && spotId in old(spots.rows)) ==> spots.rows == old(spots.rows)
  {
    if !AdminGate(admins, admin) {
      return Error(401, "Unauthorized");
    }
    if spot.None? {
      return Error(500, InternalServerError);
    }
    var fields, values := BuildSpotUpdate(spot.value);
    SpotSetsEmpty(spot.value);
    if fields == [] {
      return Error(400, "No fields to update");
    }
    values := values + [SqlInt(spotId)];
    assert values[..|fields|] == Values(SpotSets(spot.value));
    PairsOfSplit(SpotSets(spot.value));
    var count := ExecuteUpdate(spots, fields, values);
    r := Ok("Spot updated successfully");
  }

  /** After an update each tested column holds its new value or, when that
      field was not given, its old one; every other column is unchanged. */
  lemma UpdatedSpotRow(row: Row, u: SpotPatch, column: string)
    requires column in row
    ensures column in Apply(row, SpotSets(u))
    ensures column !in SpotUpdateColumns ==> Apply(row, SpotSets(u))[column] == row[column]
    ensures forall i | 0 <= i < |SpotUpdateColumns| && SpotUpdateColumns[i] == column ::
              Apply(row, SpotSets(u))[column] == OrElse(SpotUpdateValues(u)[i], row[column])
  {
    SpotUpdateColumnsDistinct(SpotUpdateColumns);
    UpdatedRow(row, SpotUpdateColumns, SpotUpdateValues(u), column);
  }

  /** Hotel images given to an update read back as the given list, and
      leave the trip images as they were. */
  lemma UpdatedHotelImages(id: int, row: Row, u: SpotPatch)
    requires "hotel_images" in row && "trip_images" in row && u.hotelImages.Some? && u.tripImages.None?
    ensures "hotel_images" in DictOf(WithId(id, Apply(row, SpotSets(u))))
    ensures DictOf(WithId(id, Apply(row, SpotSets(u))))["hotel_images"] ==
            Decoded(Json.Array(Json.StringValues(u.hotelImages.value)))
    ensures "trip_images" in Apply(row, SpotSets(u)) && Apply(row, SpotSets(u))["trip_images"] == row["trip_images"]
  {
    var after := Apply(row, SpotSets(u));
    HotelImagesStored(row, u);
    TripImagesKept(row, u);
    DictOfWithId(id, after, "hotel_images");
    StoredListReadsBack(u.hotelImages.value);
  }

  lemma HotelImagesStored(row: Row, u: SpotPatch)
    requires "hotel_images" in row && u.hotelImages.Some?
    ensures "hotel_images" in Apply(row, SpotSets(u))
    ensures Apply(row, SpotSets(u))["hotel_images"] == SqlText(Json.DumpStrings(u.hotelImages.value))
  {
    assert SpotUpdateColumns[7] == "hotel_images";
    SpotUpdateColumnsDistinct(SpotUpdateColumns);
    UpdatedColumn(row, SpotUpdateColumns, SpotUpdateValues(u), 7);
  }

  lemma TripImagesKept(row: Row, u: SpotPatch)
    requires "trip_images" in row && u.tripImages.None?
    ensures "trip_images" in Apply(row, SpotSets(u)) && Apply(row, SpotSets(u))["trip_images"] == row["trip_images"]
  {
    assert SpotUpdateColumns[6] == "trip_images";
    SpotUpdateColumnsDistinct(SpotUpdateColumns);
    UpdatedColumn(row, SpotUpdateColumns, SpotUpdateValues(u), 6);
  }

  // ----------------------------------------------------------------- delete

  /** `delete_spot`: 401, or the row goes; an unknown id still succeeds. */
  method DeleteSpot(spots: Table<Row>, admins: map<int, AdminRow>, spotId: int, admin: Option<AdminField>)
    returns (r: Response<string>)
    requires spots.Valid()
    modifies spots
    ensures spots.Valid() && spots.nextId == old(spots.nextId)
    ensures !AdminGate(admins, admin) ==> r == Error(401, "Unauthorized") && spots.rows == old(spots.rows)
    ensures AdminGate(admins, admin) ==> r == Ok("Spot deleted successfully") && spots.rows == old(spots.rows) - {spotId}
  {
    if !AdminGate(admins, admin) {
      return Error(401, "Unauthorized");
    }
    var count := spots.DeleteAt(spotId);
    r := Ok("Spot deleted successfully");
  }

  /** `upload_spot_images`: the shared upload helper on the "spots" folder. */
  method UploadSpotImages(admins: map<int, AdminRow>, username: string, password: string,
                          filenames: seq<Option<string>>, suffixes: seq<string>)
    returns (r: Response<seq<string>>)
    requires |suffixes| == |filenames|
    ensures !VerifyAdmin(admins, username, password) ==> r == Error(401, "Unauthorized")
    ensures VerifyAdmin(admins, username, password) ==> r == Ok(Uploads.StoredPaths("spots", filenames, suffixes))
  {
    r := Uploads.UploadImages(admins, username, password, "spots", filenames, suffixes);
  }
}
