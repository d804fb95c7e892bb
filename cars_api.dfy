/** The car endpoints: the public catalogue (available cars, one car by
    id) and the admin operations (add, sparse update, delete, image upload),
    each gated on the credentials in the request body. */
module CarsApi {
  import opened Wrappers
  import opened DbOps
  import opened Db
  import opened Patch
  import Json
  import Sorting
  import Uploads

  /** The `car` object of `add_car` as the `Car` model reads it. A required
      field that is missing or `null` is None; `description` defaults to ""
      and `available` to true when the key is missing. */
  datatype CarInput = CarInput(
    name: Option<string>, model: Option<string>, pricePerDay: Option<Float>, seats: Option<int>,
    transmission: Option<string>, fuelType: Option<string>, images: Option<seq<string>>,
    description: Field<string>, available: Field<bool>)

  /** The `Car` model accepts the object: every required field is present
      and `available`, a plain `bool`, is not `null`. */
  predicate ValidCar(c: CarInput)
  {
    c.name.Some? && c.model.Some? && c.pricePerDay.Some? && c.seats.Some? &&
    c.transmission.Some? && c.fuelType.Some? && c.images.Some? && !c.available.JsonNull?
  }

  /** The columns `add_car` writes (every column but the id). */
  const CarDataColumns: set<string> :=
    {"name", "model", "price_per_day", "seats", "transmission", "fuel_type", "images", "description", "available"}

  /** The row `add_car` inserts for a validated car. */
  function CarRow(c: CarInput): Row
    requires ValidCar(c)
  {
    map["name" := SqlText(c.name.value),
        "model" := SqlText(c.model.value),
        "price_per_day" := SqlReal(c.pricePerDay.value),
        "seats" := SqlInt(c.seats.value),
        "transmission" := SqlText(c.transmission.value),
        "fuel_type" := SqlText(c.fuelType.value),
        "images" := SqlText(Json.DumpStrings(c.images.value)),
        "description" := (match c.description
                          case Absent => SqlText("")
                          case JsonNull => SqlNull
                          case Given(d) => SqlText(d)),
        "available" := SqlBool(if c.available.Given? then c.available.value else true)]
  }

  /** An inserted car fills exactly the table's non-id columns, so reading
      it back adds only the id; a car added without `available` is listed. */
  lemma CarRowColumns(c: CarInput)
    requires ValidCar(c)
    ensures CarRow(c).Keys == CarDataColumns
    ensures CarDataColumns + {"id"} == set k | k in CarColumns
    ensures c.available.Absent? ==> CarRow(c)["available"] == SqlInt(1)
    ensures c.description.Absent? ==> CarRow(c)["description"] == SqlText("")
  {
  }

  /** `get_car` on a freshly added car returns its image list as a list,
      its id, and every other written column as stored. */
  lemma AddedCarReadsBack(id: int, c: CarInput)
    requires ValidCar(c)
    ensures var d := DictOf(WithId(id, CarRow(c)));
            "images" in d && d["images"] == Decoded(Json.Array(Json.StringValues(c.images.value))) &&
            "id" in d && d["id"] == Column(SqlInt(id)) &&
            "seats" in d && d["seats"] == Column(SqlInt(c.seats.value)) &&
            "price_per_day" in d && d["price_per_day"] == Column(SqlReal(c.pricePerDay.value))
  {
    var row := CarRow(c);
    assert row["images"] == SqlText(Json.DumpStrings(c.images.value));
    assert row["seats"] == SqlInt(c.seats.value);
    assert row["price_per_day"] == SqlReal(c.pricePerDay.value);
    DictOfWithId(id, row, "images");
    DictOfWithId(id, row, "seats");
    DictOfWithId(id, row, "price_per_day");
    StoredListReadsBack(c.images.value);
  }

  /** `row_to_dict` decodes any JSON-looking text, not only the image
      list: a description written as "[]" reads back as an empty list. */
  lemma DescriptionMayDecode(id: int, c: CarInput, text: string)
    requires ValidCar(c) && c.description == Given(text) && text == Json.DumpStrings([])
    ensures "description" in DictOf(WithId(id, CarRow(c)))
    ensures DictOf(WithId(id, CarRow(c)))["description"] == Decoded(Json.Array([]))
  {
    Json.EmptyListParses(text);
  }

  /** `add_car`: 401 unless the admin object verifies; a car object the
      model refuses (or no car object) fails with 500; otherwise the row is
      inserted and its new id returned. */
  method AddCar(cars: Table<Row>, admins: map<int, AdminRow>, admin: Option<AdminField>, car: Option<CarInput>)
    returns (r: Response<Created>)
    requires cars.Valid()
    modifies cars
    ensures cars.Valid()
    ensures !AdminGate(admins, admin) ==> r == Error(401, "Unauthorized")
    ensures AdminGate(admins, admin) && !(car.Some? && ValidCar(car.value)) ==> r == Error(500, InternalServerError)
    ensures r.Ok? <==> AdminGate(admins, admin) && car.Some? && ValidCar(car.value)
    ensures r.Ok? ==> r.body == Created("Car added successfully", old(cars.nextId))
    ensures r.Ok? ==> cars.rows == old(cars.rows)[old(cars.nextId) := CarRow(car.value)]
    ensures r.Error? ==> cars.rows == old(cars.rows) && cars.nextId == old(cars.nextId)
  {
    if !AdminGate(admins, admin) {
      return Error(401, "Unauthorized");
    }
    if car.None? || !ValidCar(car.value) {
      return Error(500, InternalServerError);
    }
    var id := cars.Insert(CarRow(car.value));
    r := Ok(Created("Car added successfully", id));
  }

  // ------------------------------------------------------------------ reads

  /** `get_cars`: only available cars are listed, each with its id. */
  function GetCars(rows: map<int, Row>, nextId: int): (r: seq<map<string, PyValue>>)
    ensures forall i | 0 <= i < |r| :: "available" in r[i] && r[i]["available"] == Column(SqlInt(1))
  {
    SelectAvailableEntries(rows, nextId);
    SelectAvailable(rows, nextId)
  }

  /** `get_car`: any car with this id, listed or not, or 404. */
  function GetCar(rows: map<int, Row>, carId: int): (r: Response<map<string, PyValue>>)
    ensures r.Ok? <==> carId in rows
    ensures r.Error? ==> r == Error(404, "Car not found")
    ensures r.Ok? ==> r.body == DictOf(WithId(carId, rows[carId])) && "id" in r.body && r.body["id"] == Column(SqlInt(carId))
  {
    match SelectById(rows, carId)
    case Some(d) => Ok(d)
    case None => Error(404, "Car not found")
  }

  // ----------------------------------------------------------------- update

  /** The `car` object of `update_car` as the `CarUpdate` model reads it:
      every field is optional, and a missing key is the same as `null`. */
  datatype CarPatch = CarPatch(
    name: Option<string>, model: Option<string>, pricePerDay: Option<Float>, seats: Option<int>,
    transmission: Option<string>, fuelType: Option<string>, images: Option<seq<string>>,
    description: Option<string>, available: Option<bool>)

  /** The columns `update_car` tests, in the order it tests them. */
  const CarUpdateColumns: seq<string> :=
    ["name", "model", "price_per_day", "seats", "transmission", "fuel_type", "images", "description", "available"]

  /** The value each column would be set to, if present. */
  function CarUpdateValues(u: CarPatch): (vals: seq<Option<SqlValue>>)
    ensures |vals| == |CarUpdateColumns|
  {
    [TextOpt(u.name), TextOpt(u.model), RealOpt(u.pricePerDay), IntOpt(u.seats),
     TextOpt(u.transmission), TextOpt(u.fuelType), ListOpt(u.images), TextOpt(u.description),
     BoolOpt(u.available)]
  }

  /** No column is tested twice. */
  lemma CarUpdateColumnsDistinct(names: seq<string>)
    requires names == CarUpdateColumns
    ensures Distinct(names)
  {
    forall i, j | 0 <= i < j < |names|
      ensures names[i] != names[j]
    {
      assert names[i][0] != names[j][0];
    }
  }

  /** The SET list of an update. */
  function CarSets(u: CarPatch): seq<Assignment>
  {
    Chosen(CarUpdateColumns, CarUpdateValues(u))
  }

  const NoCarFields := CarPatch(None, None, None, None, None, None, None, None, None)

  /** There is nothing to update exactly when every field is `null`/missing. */
  lemma CarSetsEmpty(u: CarPatch)
    ensures CarSets(u) == [] <==> u == NoCarFields
  {
    var vals := CarUpdateValues(u);
    if CarSets(u) == [] {
      assert vals[0].None? && vals[1].None? && vals[2].None? && vals[3].None? && vals[4].None?;
      assert vals[5].None? && vals[6].None? && vals[7].None? && vals[8].None?;
    }
  }

  /** The builder's SET list names columns in testing order, none twice. */
  lemma CarSetsOrdered(u: CarPatch)
    ensures IsSubsequence(Columns(CarSets(u)), CarUpdateColumns)
    ensures Distinct(Columns(CarSets(u)))
  {
    CarUpdateColumnsDistinct(CarUpdateColumns);
    ChosenOrdered(CarUpdateColumns, CarUpdateValues(u));
    ChosenDistinct(CarUpdateColumns, CarUpdateValues(u));
  }

  /** The SET list, as the builder appends it: the entry of each tested
      column in turn. */
  lemma CarSetsChain(u: CarPatch)
    ensures CarSets(u) ==
      [] + Opt("name", TextOpt(u.name)) + Opt("model", TextOpt(u.model))
        + Opt("price_per_day", RealOpt(u.pricePerDay)) + Opt("seats", IntOpt(u.seats))
        + Opt("transmission", TextOpt(u.transmission)) + Opt("fuel_type", TextOpt(u.fuelType))
        + Opt("images", ListOpt(u.images)) + Opt("description", TextOpt(u.description))
        + Opt("available", BoolOpt(u.available))
  {
    var names := CarUpdateColumns;
    var vals := CarUpdateValues(u);
    ChosenNine(names, vals);
  }

  /** The `update_fields` and `values` lists of `update_car`. */
  method BuildCarUpdate(u: CarPatch) returns (fields: seq<string>, values: seq<SqlValue>)
    ensures fields == Columns(CarSets(u)) && values == Values(CarSets(u))
  {
    ghost var sets: seq<Assignment> := [];
    fields, values := [], [];
    fields, values := AddIfPresent(fields, values, sets, "name", TextOpt(u.name));
    sets := sets + Opt("name", TextOpt(u.name));
    fields, values := AddIfPresent(fields, values, sets, "model", TextOpt(u.model));
    sets := sets + Opt("model", TextOpt(u.model));
    fields, values := AddIfPresent(fields, values, sets, "price_per_day", RealOpt(u.pricePerDay));
    sets := sets + Opt("price_per_day", RealOpt(u.pricePerDay));
    fields, values := AddIfPresent(fields, values, sets, "seats", IntOpt(u.seats));
    sets := sets + Opt("seats", IntOpt(u.seats));
    fields, values := AddIfPresent(fields, values, sets, "transmission", TextOpt(u.transmission));
    sets := sets + Opt("transmission", TextOpt(u.transmission));
    fields, values := AddIfPresent(fields, values, sets, "fuel_type", TextOpt(u.fuelType));
    sets := sets + Opt("fuel_type", TextOpt(u.fuelType));
    fields, values := AddIfPresent(fields, values, sets, "images", ListOpt(u.images));
    sets := sets + Opt("images", ListOpt(u.images));
    fields, values := AddIfPresent(fields, values, sets, "description", TextOpt(u.description));
    sets := sets + Opt("description", TextOpt(u.description));
    fields, values := AddIfPresent(fields, values, sets, "available", BoolOpt(u.available));
    sets := sets + Opt("available", BoolOpt(u.available));
    CarSetsChain(u);
  }

  /** The guard chain of `update_car`: 401, 500 for a missing car object,
      400 when no field is given, then success. */
  function UpdateCarOutcome(admins: map<int, AdminRow>, admin: Option<AdminField>, car: Option<CarPatch>)
    : (r: Response<string>)
    ensures r.Ok? <==> AdminGate(admins, admin) && car.Some? && car.value != NoCarFields
    ensures !AdminGate(admins, admin) ==> r == Error(401, "Unauthorized")
    ensures AdminGate(admins, admin) && car == Some(NoCarFields) ==> r == Error(400, "No fields to update")
  {
    if !AdminGate(admins, admin) then Error(401, "Unauthorized")
    else if car.None? then Error(500, InternalServerError)
    else
      CarSetsEmpty(car.value);
      if CarSets(car.value) == [] then Error(400, "No fields to update")
      else Ok("Car updated successfully")
  }

  /** `update_car`: after the guards, `UPDATE cars SET … WHERE id = ?`.
      An unknown id updates nothing and still reports success. */
  method UpdateCar(cars: Table<Row>, admins: map<int, AdminRow>, carId: int, admin: Option<AdminField>,
                   car: Option<CarPatch>)
    returns (r: Response<string>)
    requires cars.Valid()
    modifies cars
    ensures cars.Valid() && cars.nextId == old(cars.nextId)
    ensures r == UpdateCarOutcome(admins, admin, car)
    ensures r.Ok? && carId in old(cars.rows) ==>
              cars.rows == old(cars.rows)[carId := Apply(old(cars.rows)[carId], CarSets(car.value))]
    ensures !(r.Ok? && carId in old(cars.rows)) ==> cars.rows == old(cars.rows)
  {
    if !AdminGate(admins, admin) {
      return Error(401, "Unauthorized");
    }
    if car.None? {
      return Error(500, InternalServerError);
    }
    var fields, values := BuildCarUpdate(car.value);
    CarSetsEmpty(car.value);
    if fields == [] {
      return Error(400, "No fields to update");
    }
    values := values + [SqlInt(carId)];
    assert values[..|fields|] == Values(CarSets(car.value));
    PairsOfSplit(CarSets(car.value));
    var count := ExecuteUpdate(cars, fields, values);
    r := Ok("Car updated successfully");
  }

  /** After an update each tested column holds its new value or, when that
      field was not given, its old one; every other column is unchanged. */
  lemma UpdatedCarRow(row: Row, u: CarPatch, column: string)
    requires column in row
    ensures column in Apply(row, CarSets(u))
    ensures column !in CarUpdateColumns ==> Apply(row, CarSets(u))[column] == row[column]
    ensures forall i | 0 <= i < |CarUpdateColumns| && CarUpdateColumns[i] == column ::
              Apply(row, CarSets(u))[column] == OrElse(CarUpdateValues(u)[i], row[column])
  {
    CarUpdateColumnsDistinct(CarUpdateColumns);
    UpdatedRow(row, CarUpdateColumns, CarUpdateValues(u), column);
  }

  /** New images given to an update read back as the given list. */
  lemma UpdatedImagesReadBack(id: int, row: Row, u: CarPatch)
    requires "images" in row && u.images.Some?
    ensures "images" in DictOf(WithId(id, Apply(row, CarSets(u))))
    ensures DictOf(WithId(id, Apply(row, CarSets(u))))["images"] ==
            Decoded(Json.Array(Json.StringValues(u.images.value)))
  {
    var after := Apply(row, CarSets(u));
    CarImagesStored(row, u);
    DictOfWithId(id, after, "images");
    StoredListReadsBack(u.images.value);
  }

  lemma CarImagesStored(row: Row, u: CarPatch)
    requires "images" in row && u.images.Some?
    ensures "images" in Apply(row, CarSets(u))
    ensures Apply(row, CarSets(u))["images"] == SqlText(Json.DumpStrings(u.images.value))
  {
    assert CarUpdateColumns[6] == "images";
    CarUpdateColumnsDistinct(CarUpdateColumns);
    UpdatedColumn(row, CarUpdateColumns, CarUpdateValues(u), 6);
  }

  // ----------------------------------------------------------------- delete

  /** `delete_car`: 401, or the row goes; an unknown id still succeeds. */
  method DeleteCar(cars: Table<Row>, admins: map<int, AdminRow>, carId: int, admin: Option<AdminField>)
    returns (r: Response<string>)
    requires cars.Valid()
    modifies cars
    ensures cars.Valid() && cars.nextId == old(cars.nextId)
    ensures !AdminGate(admins, admin) ==> r == Error(401, "Unauthorized") && cars.rows == old(cars.rows)
    ensures AdminGate(admins, admin) ==> r == Ok("Car deleted successfully") && cars.rows == old(cars.rows) - {carId}
  {
    if !AdminGate(admins, admin) {
      return Error(401, "Unauthorized");
    }
    var count := cars.DeleteAt(carId);
    r := Ok("Car deleted successfully");
  }

  /** A deleted car is gone from both reads. */
  lemma DeletedCarGone(rows: map<int, Row>, nextId: int, carId: int)
    requires forall id | id in rows :: 1 <= id < nextId
    ensures GetCar(rows - {carId}, carId) == Error(404, "Car not found")
    ensures carId !in AvailableIds(rows - {carId}, nextId)
  {
    SelectAvailableExact(rows - {carId}, nextId);
  }

  /** `upload_car_images`: the shared upload helper on the "cars" folder. */
  method UploadCarImages(admins: map<int, AdminRow>, username: string, password: string,
                         filenames: seq<Option<string>>, suffixes: seq<string>)
    returns (r: Response<seq<string>>)
    requires |suffixes| == |filenames|
    ensures !VerifyAdmin(admins, username, password) ==> r == Error(401, "Unauthorized")
    ensures VerifyAdmin(admins, username, password) ==> r == Ok(Uploads.StoredPaths("cars", filenames, suffixes))
  {
    r := Uploads.UploadImages(admins, username, password, "cars", filenames, suffixes);
  }
}
