/** The storage layer: SQLite tables as maps from AUTOINCREMENT id to row,
    the admin credential lookup, and `init_db`'s idempotent schema creation
    with its default-admin seed. */
module DbOps {
  import opened Wrappers

  /** A table whose rows carry an `INTEGER PRIMARY KEY AUTOINCREMENT` id.
      `nextId` is the table's AUTOINCREMENT counter: ids are never reused. */
  class Table<R> {
    var rows: map<int, R>
    var nextId: int

    ghost predicate Valid()
      reads this
    {
      1 <= nextId && forall id | id in rows :: 1 <= id < nextId
    }

    constructor Empty()
      ensures Valid() && rows == map[] && nextId == 1
    {
      rows := map[];
      nextId := 1;
    }

    /** `Database.insert`: the row gets a fresh id, which `lastrowid` returns. */
    method Insert(r: R) returns (id: int)
      requires Valid()
      modifies this
      ensures Valid()
      ensures id == old(nextId) && id !in old(rows) && id >= 1
      ensures rows == old(rows)[id := r] && nextId == old(nextId) + 1
    {
      id := nextId;
      rows := rows[id := r];
      nextId := nextId + 1;
    }

    /** `UPDATE … SET … WHERE p`: every matching row is rewritten by `f`;
        the count is the number of rows the WHERE clause matched. */
    method UpdateWhere(p: R -> bool, f: R -> R) returns (count: nat)
      requires Valid()
      modifies this
      ensures Valid() && nextId == old(nextId)
      ensures rows == Updated(old(rows), p, f)
      ensures count == |Matching(old(rows), p)|
    {
      count := |Matching(rows, p)|;
      rows := Updated(rows, p, f);
    }

    /** `UPDATE … SET … WHERE id = ?`: one row at most is rewritten. */
    method UpdateAt(id: int, f: R -> R) returns (count: nat)
      requires Valid()
      modifies this
      ensures Valid() && nextId == old(nextId)
      ensures rows == if id in old(rows) then old(rows)[id := f(old(rows)[id])] else old(rows)
      ensures count == if id in old(rows) then 1 else 0
    {
      if id in rows {
        rows := rows[id := f(rows[id])];
        count := 1;
      } else {
        count := 0;
      }
    }

    /** `DELETE … WHERE id = ?`. */
    method DeleteAt(id: int) returns (count: nat)
      requires Valid()
      modifies this
      ensures Valid() && nextId == old(nextId)
      ensures rows == old(rows) - {id}
      ensures count == if id in old(rows) then 1 else 0
    {
      count := if id in rows then 1 else 0;
      rows := rows - {id};
    }

    /** `DELETE … WHERE p`; the count is the number of rows removed. */
    method DeleteWhere(p: R -> bool) returns (count: nat)
      requires Valid()
      modifies this
      ensures Valid() && nextId == old(nextId)
      ensures rows == Without(old(rows), p)
      ensures count == |Matching(old(rows), p)| == |old(rows).Keys| - |rows.Keys|
    {
      count := |Matching(rows, p)|;
      DeleteCountIsRemoved(rows, p, None);
      rows := Without(rows, p);
    }
  }

  /** The ids of the rows a WHERE clause selects. */
  function Matching<R>(rows: map<int, R>, p: R -> bool): (ids: set<int>)
    ensures ids <= rows.Keys
    ensures forall id | id in rows :: id in ids <==> p(rows[id])
  {
    set id | id in rows && p(rows[id])
  }

  /** The table after an UPDATE: same ids, matching rows rewritten. */
  function Updated<R>(rows: map<int, R>, p: R -> bool, f: R -> R): (r: map<int, R>)
    ensures r.Keys == rows.Keys
    ensures forall id | id in rows :: r[id] == (if p(rows[id]) then f(rows[id]) else rows[id])
  {
    map id | id in rows :: if p(rows[id]) then f(rows[id]) else rows[id]
  }

  /** The table after a DELETE: the matching rows are gone, the rest kept. */
  function Without<R>(rows: map<int, R>, p: R -> bool): (r: map<int, R>)
    ensures r.Keys == rows.Keys - Matching(rows, p)
    ensures forall id | id in r :: r[id] == rows[id]
  {
    map id | id in rows && !p(rows[id]) :: rows[id]
  }

  /** A deleted-by-WHERE table holds no row the WHERE clause selects, so
      deleting a second time removes nothing. */
  lemma WithoutIdempotent<R>(rows: map<int, R>, p: R -> bool)
    ensures Matching(Without(rows, p), p) == {}
    ensures Without(Without(rows, p), p) == Without(rows, p)
  {
    var once := Without(rows, p);
    assert forall id | id in once :: !p(once[id]);
  }

  /** `Database.execute`'s result: `cursor.rowcount`, or `SELECT changes()`
      when the driver reports -1, or 0 when that query raises (`None`). */
  function ExecuteCount(rowcount: int, changes: Option<int>): (count: int)
    ensures rowcount != -1 ==> count == rowcount
    ensures rowcount == -1 && changes.Some? ==> count == changes.value
    ensures rowcount == -1 && changes.None? ==> count == 0
  {
    if rowcount != -1 then rowcount else OrElse(changes, 0)
  }

  /** `execute` on the count a DELETE reports (a DML rowcount, never -1)
      gives the number of rows the DELETE removed from the table. */
  lemma DeleteCountIsRemoved<R>(rows: map<int, R>, p: R -> bool, changes: Option<int>)
    ensures ExecuteCount(|Matching(rows, p)|, changes) == |rows.Keys| - |Without(rows, p).Keys|
  {
    var m := Matching(rows, p);
    var kept := Without(rows, p).Keys;
    assert rows.Keys == kept + m;
    assert kept * m == {};
  }

  // ---------------------------------------------------------------- admins

  datatype AdminRow = AdminRow(username: string, password: string)

  /** `verify_admin`: some admin row has exactly this username and exactly
      this password. The module-level `verify_admin` is this same lookup. */
  predicate VerifyAdmin(admins: map<int, AdminRow>, username: string, password: string)
  {
    exists id | id in admins :: admins[id] == AdminRow(username, password)
  }

  /** The `admin` object of a request body, whose keys may be missing. */
  datatype AdminField = AdminField(username: Option<string>, password: Option<string>)

  /** The gate of every admin endpoint that takes a JSON body:
      `if not admin or not verify_admin(admin.get('username'), admin.get('password'))`.
      A missing key gives None, which never equals a stored value. */
  predicate AdminGate(admins: map<int, AdminRow>, admin: Option<AdminField>)
  {
    admin.Some? && admin.value.username.Some? && admin.value.password.Some? &&
    VerifyAdmin(admins, admin.value.username.value, admin.value.password.value)
  }

  /** The column constraint `username TEXT UNIQUE`. */
  ghost predicate UniqueUsernames(admins: map<int, AdminRow>)
  {
    forall i, j | i in admins && j in admins && admins[i].username == admins[j].username :: i == j
  }

  predicate HasAdminNamed(admins: map<int, AdminRow>, username: string)
  {
    exists id | id in admins :: admins[id].username == username
  }

  /** An unknown username and a wrong password are both refused. */
  lemma VerifyAdminRefuses(admins: map<int, AdminRow>, username: string, password: string)
    requires UniqueUsernames(admins)
    requires !HasAdminNamed(admins, username) ||
             exists id | id in admins :: admins[id].username == username && admins[id].password != password
    ensures !VerifyAdmin(admins, username, password)
  {
  }

  /** Because usernames are unique, at most one row matches a credential pair. */
  lemma AtMostOneMatch(admins: map<int, AdminRow>, username: string, password: string, i: int, j: int)
    requires UniqueUsernames(admins)
    requires i in admins && admins[i] == AdminRow(username, password)
    requires j in admins && admins[j] == AdminRow(username, password)
    ensures i == j
  {
  }

  // ---------------------------------------------------------------- schema

  /** The tables `init_db` creates. */
  datatype TableName = Cars | PicnicSpots | Admin | Users | Sessions | ChatLogs | LastTrips | LastTripComments

  /** Table name to column names, as SQLite keeps them. */
  type Schema = map<TableName, seq<string>>

  /** `CREATE TABLE IF NOT EXISTS`: an existing table is left as it is. */
  function CreateTable(s: Schema, name: TableName, columns: seq<string>): Schema
  {
    if name in s then s else s[name := columns]
  }

  /** `ALTER TABLE … ADD COLUMN`: fails (None) on a missing table or an
      existing column. */
  function AddColumn(s: Schema, name: TableName, column: string): (r: Option<Schema>)
    ensures r.Some? <==> name in s && column !in s[name]
    ensures r.Some? ==> r.value == s[name := s[name] + [column]]
  {
    if name in s && column !in s[name] then Some(s[name := s[name] + [column]]) else None
  }

  /** `try: db.execute("ALTER TABLE …") except Exception: pass`. */
  function TryAddColumn(s: Schema, name: TableName, column: string): Schema
  {
    OrElse(AddColumn(s, name, column), s)
  }

  const CarColumns: seq<string> :=
    ["id", "name", "model", "price_per_day", "seats", "transmission", "fuel_type", "images", "description", "available"]
  const SpotColumns: seq<string> :=
    ["id", "name", "price", "location", "images", "short_description", "detailed_description", "available"]
  const AdminColumns: seq<string> := ["id", "username", "password"]
  const UserColumns: seq<string> := ["id", "username", "email", "password_hash", "created_at"]
  const SessionColumns: seq<string> := ["id", "user_id", "token", "created_at"]
  const ChatLogColumns: seq<string> := ["id", "session_id", "user_id", "role", "message", "created_at"]
  const TripColumns: seq<string> :=
    ["id", "destination", "spots", "days", "persons", "images", "start_date", "end_date", "feedback", "created_at", "available"]
  const CommentColumns: seq<string> := ["id", "trip_id", "name", "comment", "created_at"]

  const TableNames: set<TableName> :=
    {Cars, PicnicSpots, Admin, Users, Sessions, ChatLogs, LastTrips, LastTripComments}

  /** The picnic-spot steps of `init_db`: create the table if needed, then
      add each image column unless it is already there. */
  function SpotSteps(s: Schema): Schema
  {
    var s2 := CreateTable(s, PicnicSpots, SpotColumns);
    TryAddColumn(TryAddColumn(s2, PicnicSpots, "trip_images"), PicnicSpots, "hotel_images")
  }

  lemma SpotStepsEstablish(s: Schema)
    ensures SpotSteps(s).Keys == s.Keys + {PicnicSpots}
    ensures "trip_images" in SpotSteps(s)[PicnicSpots] && "hotel_images" in SpotSteps(s)[PicnicSpots]
    ensures forall t | t in s && t != PicnicSpots :: SpotSteps(s)[t] == s[t]
    ensures PicnicSpots in s && "trip_images" in s[PicnicSpots] && "hotel_images" in s[PicnicSpots] ==> SpotSteps(s) == s
  {
    var s2 := CreateTable(s, PicnicSpots, SpotColumns);
    var s3 := TryAddColumn(s2, PicnicSpots, "trip_images");
    assert PicnicSpots in s3 && "trip_images" in s3[PicnicSpots];
    var s4 := TryAddColumn(s3, PicnicSpots, "hotel_images");
    assert s4[PicnicSpots] == s3[PicnicSpots] || s4[PicnicSpots] == s3[PicnicSpots] + ["hotel_images"];
    assert "trip_images" in s4[PicnicSpots];
  }

  /** The schema statements of `init_db`, in order. */
  function InitSchema(s: Schema): Schema
  {
    TailTables(SpotSteps(CreateTable(s, Cars, CarColumns)))
  }

  function TailTables(s4: Schema): Schema
  {
    var s5 := CreateTable(s4, Admin, AdminColumns);
    var s6 := CreateTable(s5, Users, UserColumns);
    var s7 := CreateTable(s6, Sessions, SessionColumns);
    var s8 := CreateTable(s7, ChatLogs, ChatLogColumns);
    var s9 := CreateTable(s8, LastTrips, TripColumns);
    CreateTable(s9, LastTripComments, CommentColumns)
  }

  /** After `init_db` every table exists, existing tables keep their
      columns apart from the two added picnic-spot columns, and
      picnic_spots has both image columns. */
  lemma InitSchemaEstablishes(s: Schema)
    ensures InitSchema(s).Keys == s.Keys + TableNames
    ensures "trip_images" in InitSchema(s)[PicnicSpots]
    ensures "hotel_images" in InitSchema(s)[PicnicSpots]
    ensures forall t | t in s && t != PicnicSpots :: InitSchema(s)[t] == s[t]
  {
    var s1 := CreateTable(s, Cars, CarColumns);
    var s4 := SpotSteps(s1);
    assert InitSchema(s) == TailTables(s4);
    assert InitSchema(s).Keys == s.Keys + TableNames by {
      SpotStepsEstablish(s1);
      CreateTableKeeps(s, Cars, CarColumns);
      InitSchemaTail(s4);
    }
    assert "trip_images" in InitSchema(s)[PicnicSpots] && "hotel_images" in InitSchema(s)[PicnicSpots] by {
      SpotStepsEstablish(s1);
      InitSchemaTail(s4);
      assert PicnicSpots in s4;
    }
    forall t | t in s && t != PicnicSpots
      ensures InitSchema(s)[t] == s[t]
    {
      CreateTableKeeps(s, Cars, CarColumns);
      assert t in s1 && s1[t] == s[t];
      SpotStepsEstablish(s1);
      assert t in s4 && s4[t] == s1[t];
      InitSchemaTail(s4);
    }
  }

  /** The six CREATEs after the picnic-spot steps. */
  lemma InitSchemaTail(s4: Schema)
    ensures TailTables(s4).Keys == s4.Keys + {Admin, Users, Sessions, ChatLogs, LastTrips, LastTripComments}
    ensures forall t | t in s4 :: TailTables(s4)[t] == s4[t]
  {
    var s5 := CreateTable(s4, Admin, AdminColumns);
    var s6 := CreateTable(s5, Users, UserColumns);
    var s7 := CreateTable(s6, Sessions, SessionColumns);
    var s8 := CreateTable(s7, ChatLogs, ChatLogColumns);
    var s9 := CreateTable(s8, LastTrips, TripColumns);
    CreateTableKeeps(s4, Admin, AdminColumns);
    CreateTableKeeps(s5, Users, UserColumns);
    CreateTableKeeps(s6, Sessions, SessionColumns);
    CreateTableKeeps(s7, ChatLogs, ChatLogColumns);
    CreateTableKeeps(s8, LastTrips, TripColumns);
    CreateTableKeeps(s9, LastTripComments, CommentColumns);
  }

  lemma CreateTableKeeps(s: Schema, name: TableName, columns: seq<string>)
    ensures CreateTable(s, name, columns).Keys == s.Keys + {name}
    ensures forall t | t in s :: CreateTable(s, name, columns)[t] == s[t]
  {
  }

  /** On an empty database `init_db` creates exactly the eight tables, with
      the two image columns appended to picnic_spots. */
  lemma InitSchemaFresh()
    ensures InitSchema(map[]) ==
      map[Cars := CarColumns,
          PicnicSpots := SpotColumns + ["trip_images", "hotel_images"],
          Admin := AdminColumns, Users := UserColumns, Sessions := SessionColumns,
          ChatLogs := ChatLogColumns, LastTrips := TripColumns,
          LastTripComments := CommentColumns]
  {
    var s1 := CreateTable(map[], Cars, CarColumns);
    assert s1 == map[Cars := CarColumns];
    SpotStepsFresh(s1);
    TailTablesFresh(s1[PicnicSpots := SpotColumns + ["trip_images", "hotel_images"]]);
  }

  /** The picnic-spot steps on a schema without picnic_spots. */
  lemma SpotStepsFresh(s1: Schema)
    requires PicnicSpots !in s1
    ensures SpotSteps(s1) == s1[PicnicSpots := SpotColumns + ["trip_images", "hotel_images"]]
  {
    var s2 := CreateTable(s1, PicnicSpots, SpotColumns);
    assert "trip_images" !in SpotColumns;
    var s3 := s2[PicnicSpots := SpotColumns + ["trip_images"]];
    assert TryAddColumn(s2, PicnicSpots, "trip_images") == s3;
    assert "hotel_images" !in SpotColumns + ["trip_images"];
    assert SpotColumns + ["trip_images"] + ["hotel_images"] == SpotColumns + ["trip_images", "hotel_images"];
    assert SpotSteps(s1) == s3[PicnicSpots := SpotColumns + ["trip_images", "hotel_images"]];
  }

  /** The six CREATEs on a schema that has none of their tables. */
  lemma TailTablesFresh(s4: Schema)
    requires Admin !in s4 && Users !in s4 && Sessions !in s4 && ChatLogs !in s4
    requires LastTrips !in s4 && LastTripComments !in s4
    ensures TailTables(s4) ==
      s4[Admin := AdminColumns][Users := UserColumns][Sessions := SessionColumns]
        [ChatLogs := ChatLogColumns][LastTrips := TripColumns][LastTripComments := CommentColumns]
  {
    var s5 := s4[Admin := AdminColumns];
    assert CreateTable(s4, Admin, AdminColumns) == s5;
    var s6 := s5[Users := UserColumns];
    assert CreateTable(s5, Users, UserColumns) == s6;
    var s7 := s6[Sessions := SessionColumns];
    assert CreateTable(s6, Sessions, SessionColumns) == s7;
    var s8 := s7[ChatLogs := ChatLogColumns];
    assert CreateTable(s7, ChatLogs, ChatLogColumns) == s8;
    var s9 := s8[LastTrips := TripColumns];
    assert CreateTable(s8, LastTrips, TripColumns) == s9;
  }

  /** A second `init_db` leaves the schema as the first one left it: every
      CREATE finds its table and both ALTERs fail and are swallowed. */
  lemma InitSchemaIdempotent(s: Schema)
    ensures InitSchema(InitSchema(s)) == InitSchema(s)
  {
    var once := InitSchema(s);
    InitSchemaEstablishes(s);
    SpotStepsEstablish(once);
  }

  const DefaultAdmin := AdminRow("admin", "admin123")

  /** The seed of `init_db`: the default admin is inserted under id `next`
      only when no admin is named "admin". */
  function SeedAdmin(admins: map<int, AdminRow>, next: int): (r: map<int, AdminRow>)
    ensures HasAdminNamed(r, DefaultAdmin.username)
    ensures HasAdminNamed(admins, DefaultAdmin.username) ==> r == admins
    ensures !HasAdminNamed(admins, DefaultAdmin.username) ==> r == admins[next := DefaultAdmin]
  {
    if HasAdminNamed(admins, DefaultAdmin.username) then admins
    else
      var r := admins[next := DefaultAdmin];
      assert r[next].username == DefaultAdmin.username;
      r
  }

  /** Seeding twice adds nothing more, and never resets the password of an
      admin named "admin". */
  lemma SeedAdminIdempotent(admins: map<int, AdminRow>, next: int, later: int, password: string)
    ensures SeedAdmin(SeedAdmin(admins, next), later) == SeedAdmin(admins, next)
    ensures VerifyAdmin(admins, "admin", password) ==> VerifyAdmin(SeedAdmin(admins, next), "admin", password)
  {
    if VerifyAdmin(admins, "admin", password) {
      var id :| id in admins && admins[id] == AdminRow("admin", password);
      assert HasAdminNamed(admins, DefaultAdmin.username);
    }
  }

  /** Seeding keeps usernames unique. */
  lemma SeedAdminUnique(admins: map<int, AdminRow>, next: int)
    requires UniqueUsernames(admins) && next !in admins
    ensures UniqueUsernames(SeedAdmin(admins, next))
  {
  }

  /** The database file: its schema and the admin table. The other tables'
      rows belong to the handlers that use them. */
  class Database {
    var schema: Schema
    const admin: Table<AdminRow>

    ghost predicate Valid()
      reads this, admin
    {
      admin.Valid() && UniqueUsernames(admin.rows)
    }

    constructor ()
      ensures Valid() && fresh(admin) && schema == map[] && admin.rows == map[]
    {
      schema := map[];
      admin := new Table.Empty();
    }

    /** `Database.verify_admin` / module `verify_admin`. */
    method CheckAdmin(username: string, password: string) returns (ok: bool)
      ensures ok == VerifyAdmin(admin.rows, username, password)
    {
      ok := exists id | id in admin.rows :: admin.rows[id] == AdminRow(username, password);
    }

    /** `init_db`: the schema statements, then the conditional seed. */
    method InitDb()
      requires Valid()
      modifies this, admin
      ensures Valid()
      ensures schema == InitSchema(old(schema))
      ensures admin.rows == SeedAdmin(old(admin.rows), old(admin.nextId))
    {
      schema := CreateTable(schema, Cars, CarColumns);
      schema := CreateTable(schema, PicnicSpots, SpotColumns);
      schema := TryAddColumn(schema, PicnicSpots, "trip_images");
      schema := TryAddColumn(schema, PicnicSpots, "hotel_images");
      schema := CreateTable(schema, Admin, AdminColumns);
      schema := CreateTable(schema, Users, UserColumns);
      schema := CreateTable(schema, Sessions, SessionColumns);
      schema := CreateTable(schema, ChatLogs, ChatLogColumns);
      schema := CreateTable(schema, LastTrips, TripColumns);
      schema := CreateTable(schema, LastTripComments, CommentColumns);
      if !HasAdminNamed(admin.rows, DefaultAdmin.username) {
        SeedAdminUnique(admin.rows, admin.nextId);
        var id := admin.Insert(DefaultAdmin);
      }
    }
  }
}
