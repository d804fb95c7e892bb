/** The one-off schema migration: `users` loses `username` and gains
    `full_name`, and `sessions` and `chat_logs` move from `user_id` to
    `user_email`. Each table is rebuilt or left alone according to the
    columns it has; every statement either succeeds or raises, and a raise
    ends the run with failure. */
module Migration {
  import opened Wrappers
  import opened Db

  /** A table: its columns as `PRAGMA table_info` lists them, and its rows
      in rowid order. */
  datatype Table = Table(columns: seq<string>, rows: seq<Row>)

  /** The database: table name to table. */
  type Schema = map<string, Table>

  const UsersNewColumns: seq<string> := ["id", "full_name", "email", "password_hash", "created_at"]
  const SessionsNewColumns: seq<string> := ["id", "user_email", "token", "created_at"]
  const ChatLogsNewColumns: seq<string> := ["id", "session_id", "user_email", "role", "message", "created_at"]

  /** A term of a `SELECT` list: a column of the source row, or `NULL`. */
  datatype Term = Col(name: string) | NullTerm

  const UsersCopyTargets: seq<string> := ["id", "full_name", "email", "password_hash", "created_at"]
  const UsersCopyTerms: seq<Term> := [Col("id"), NullTerm, Col("email"), Col("password_hash"), Col("created_at")]
  const ChatCopyTargets: seq<string> := ["session_id", "user_email", "role", "message", "created_at"]
  const ChatCopyTerms: seq<Term> := [Col("session_id"), NullTerm, Col("role"), Col("message"), Col("created_at")]

  // ------------------------------------------------- statements, as values

  /** `PRAGMA table_info(name)`: no columns for a table that does not exist. */
  function ColumnsOf(db: Schema, name: string): (cols: seq<string>)
    ensures name !in db ==> cols == []
  {
    if name in db then db[name].columns else []
  }

  /** `CREATE TABLE IF NOT EXISTS`: an existing table of that name is kept. */
  function CreateIfMissing(db: Schema, name: string, columns: seq<string>): (r: Schema)
    ensures name in r && r.Keys == db.Keys + {name}
    ensures name in db ==> r == db
    ensures name !in db ==> r[name] == Table(columns, [])
    ensures forall n | n in db && n != name :: r[n] == db[n]
  {
    if name in db then db else db[name := Table(columns, [])]
  }

  function Eval(row: Row, t: Term): SqlValue
  {
    match t
    case Col(c) => if c in row then row[c] else SqlNull
    case NullTerm => SqlNull
  }

  /** The row `INSERT INTO … (targets) SELECT terms` makes of `row`. */
  function CopyRow(row: Row, targets: seq<string>, terms: seq<Term>): (r: Row)
    requires |targets| == |terms|
    ensures r.Keys == set i | 0 <= i < |targets| :: targets[i]
    decreases |targets|
  {
    if targets == [] then map[]
    else CopyRow(row, targets[1..], terms[1..])[targets[0] := Eval(row, terms[0])]
  }

  /** The rows `INSERT INTO … SELECT` makes of a table's rows, in order. */
  function CopyRows(rows: seq<Row>, targets: seq<string>, terms: seq<Term>): (r: seq<Row>)
    requires |targets| == |terms|
    ensures |r| == |rows| && forall i | 0 <= i < |rows| :: r[i] == CopyRow(rows[i], targets, terms)
  {
    seq(|rows|, i requires 0 <= i < |rows| => CopyRow(rows[i], targets, terms))
  }

  /** A `SELECT` naming a column its table does not have raises. */
  predicate Readable(columns: seq<string>, terms: seq<Term>)
  {
    forall i | 0 <= i < |terms| :: terms[i].Col? ==> terms[i].name in columns
  }

  /** `INSERT INTO target (targets) SELECT terms FROM source`: the copies
      are appended; an unknown table or column raises. */
  function InsertSelect(db: Schema, target: string, targets: seq<string>, source: string, terms: seq<Term>)
    : (r: Option<Schema>)
    requires |targets| == |terms|
    ensures r.Some? <==> target in db && source in db && (forall c | c in targets :: c in db[target].columns) &&
                         Readable(db[source].columns, terms)
  {
    if target in db && source in db && (forall c | c in targets :: c in db[target].columns) &&
       Readable(db[source].columns, terms)
    then
      Some(db[target := Table(db[target].columns, db[target].rows + CopyRows(db[source].rows, targets, terms))])
    else None
  }

  /** `DROP TABLE`: raises when the table does not exist. */
  function Drop(db: Schema, name: string): (r: Option<Schema>)
    ensures r.Some? <==> name in db
    ensures r.Some? ==> r.value == db - {name}
  {
    if name in db then Some(db - {name}) else None
  }

  /** `ALTER TABLE source RENAME TO target`: raises when the source is
      missing or the target name is taken. */
  function Rename(db: Schema, source: string, target: string): (r: Option<Schema>)
    ensures r.Some? <==> source in db && target !in db
    ensures r.Some? ==> r.value.Keys == db.Keys - {source} + {target} && r.value[target] == db[source]
    ensures r.Some? ==> forall n | n in db && n != source :: r.value[n] == db[n]
  {
    if source in db && target !in db then Some((db - {source})[target := db[source]]) else None
  }

  /** `ALTER TABLE name ADD COLUMN column`: every row reads `NULL` there;
      raises when the table is missing or already has the column. */
  function AddColumn(db: Schema, name: string, column: string): (r: Option<Schema>)
    ensures r.Some? <==> name in db && column !in db[name].columns
  {
    if name in db && column !in db[name].columns then
      var t := db[name];
      Some(db[name := Table(t.columns + [column],
                            seq(|t.rows|, i requires 0 <= i < |t.rows| => t.rows[i][column := SqlNull]))])
    else None
  }

  // ---------------------------------------------------------- the three steps

  function Then(r: Option<Schema>, f: Schema -> Option<Schema>): Option<Schema>
  {
    if r.Some? then f(r.value) else None
  }

  /** Step 1: rebuild `users` without `username`, or add `full_name`. */
  function MigrateUsers(db: Schema): Option<Schema>
  {
    var cols := ColumnsOf(db, "users");
    if "username" in cols then
      var created := CreateIfMissing(db, "users_new", UsersNewColumns);
      Then(Then(InsertSelect(created, "users_new", UsersCopyTargets, "users", UsersCopyTerms),
                d => Drop(d, "users")),
           d => Rename(d, "users_new", "users"))
    else if "full_name" !in cols then AddColumn(db, "users", "full_name")
    else Some(db)
  }

  /** Step 2: replace a `user_id`-keyed `sessions` by an empty one. */
  function MigrateSessions(db: Schema): Option<Schema>
  {
    var cols := ColumnsOf(db, "sessions");
    if "user_id" in cols && "user_email" !in cols then
      var created := CreateIfMissing(db, "sessions_new", SessionsNewColumns);
      Rename(created - {"sessions"}, "sessions_new", "sessions")
    else Some(db)
  }

  /** Step 3: rebuild a `user_id`-keyed `chat_logs` with `user_email`. */
  function MigrateChatLogs(db: Schema): Option<Schema>
  {
    var cols := ColumnsOf(db, "chat_logs");
    if "user_id" in cols && "user_email" !in cols then
      var created := CreateIfMissing(db, "chat_logs_new", ChatLogsNewColumns);
      Then(Then(InsertSelect(created, "chat_logs_new", ChatCopyTargets, "chat_logs", ChatCopyTerms),
                d => Drop(d, "chat_logs")),
           d => Rename(d, "chat_logs_new", "chat_logs"))
    else Some(db)
  }

  /** `migrate_database`: the three steps in order; `None` when one raises. */
  function Migrate(db: Schema): Option<Schema>
  {
    Then(Then(MigrateUsers(db), MigrateSessions), MigrateChatLogs)
  }

  // --------------------------------------------------------------- properties

  /** No half-finished rebuild is lying around. */
  predicate NoLeftovers(db: Schema)
  {
    "users_new" !in db && "sessions_new" !in db && "chat_logs_new" !in db
  }

  /** A `users` table with `username` is rebuilt with the five new columns
      and one row per old row, `full_name` NULL and the rest copied; the
      rebuild raises exactly when `users` lacks a copied column. */
  lemma UsersRebuilt(db: Schema)
    requires "username" in ColumnsOf(db, "users") && "users_new" !in db
    ensures MigrateUsers(db).Some? <==> Readable(db["users"].columns, UsersCopyTerms)
    ensures MigrateUsers(db).Some? ==>
              var r := MigrateUsers(db).value;
              "users_new" !in r && "users" in r && r["users"].columns == UsersNewColumns &&
              r["users"].rows == CopyRows(db["users"].rows, UsersCopyTargets, UsersCopyTerms)
  {
    var created := CreateIfMissing(db, "users_new", UsersNewColumns);
    assert forall c | c in UsersCopyTargets :: c in created["users_new"].columns;
    var inserted := InsertSelect(created, "users_new", UsersCopyTargets, "users", UsersCopyTerms);
    assert created["users"] == db["users"];
    assert MigrateUsers(db) == Then(Then(inserted, d => Drop(d, "users")), d => Rename(d, "users_new", "users"));
    if inserted.Some? {
      var copies := inserted.value["users_new"].rows;
      assert copies == [] + CopyRows(db["users"].rows, UsersCopyTargets, UsersCopyTerms);
      var dropped := Drop(inserted.value, "users");
      assert dropped.Some?;
      var renamed := Rename(dropped.value, "users_new", "users");
      assert renamed.Some? && renamed.value["users"] == inserted.value["users_new"];
      assert MigrateUsers(db) == renamed;
    }
  }

  /** With a `users_new` left over from an earlier run, `CREATE TABLE IF NOT
      EXISTS` keeps it: the copies are appended after its stale rows, the
      rebuilt `users` keeps its columns, and the copy raises when one of them
      is missing. */
  lemma UsersLeftoverKept(db: Schema)
    requires "username" in ColumnsOf(db, "users") && "users_new" in db
    ensures MigrateUsers(db).Some? <==>
              (forall c | c in UsersCopyTargets :: c in db["users_new"].columns) && Readable(db["users"].columns, UsersCopyTerms)
    ensures MigrateUsers(db).Some? ==>
              var r := MigrateUsers(db).value;
              "users_new" !in r && "users" in r && r["users"].columns == db["users_new"].columns &&
              r["users"].rows == db["users_new"].rows + CopyRows(db["users"].rows, UsersCopyTargets, UsersCopyTerms)
  {
    var created := CreateIfMissing(db, "users_new", UsersNewColumns);
    assert created == db;
    var inserted := InsertSelect(db, "users_new", UsersCopyTargets, "users", UsersCopyTerms);
    assert MigrateUsers(db) == Then(Then(inserted, d => Drop(d, "users")), d => Rename(d, "users_new", "users"));
    if inserted.Some? {
      var dropped := Drop(inserted.value, "users");
      assert dropped.Some?;
      var renamed := Rename(dropped.value, "users_new", "users");
      assert renamed.Some? && renamed.value["users"] == inserted.value["users_new"];
      assert MigrateUsers(db) == renamed;
    }
  }

  /** The copied user row: `full_name` is NULL, the rest is the old row's. */
  lemma UserCopy(row: Row)
    ensures var r := CopyRow(row, UsersCopyTargets, UsersCopyTerms);
            r.Keys == {"id", "full_name", "email", "password_hash", "created_at"} && r["full_name"] == SqlNull &&
            r["id"] == Eval(row, Col("id")) && r["email"] == Eval(row, Col("email")) &&
            r["password_hash"] == Eval(row, Col("password_hash")) && r["created_at"] == Eval(row, Col("created_at"))
  {
    var r := map[]
      ["created_at" := Eval(row, Col("created_at"))]
      ["password_hash" := Eval(row, Col("password_hash"))]
      ["email" := Eval(row, Col("email"))]
      ["full_name" := SqlNull]
      ["id" := Eval(row, Col("id"))];
    assert r.Keys == {"id", "full_name", "email", "password_hash", "created_at"};
    assert r["id"] == Eval(row, Col("id"));
    assert r["full_name"] == SqlNull;
    assert r["email"] == Eval(row, Col("email"));
    assert r["password_hash"] == Eval(row, Col("password_hash"));
    assert r["created_at"] == Eval(row, Col("created_at"));
    UserCopyUnfold(row);
  }

  lemma UserCopyUnfold(row: Row)
    ensures CopyRow(row, UsersCopyTargets, UsersCopyTerms) ==
            map[]
              ["created_at" := Eval(row, Col("created_at"))]
              ["password_hash" := Eval(row, Col("password_hash"))]
              ["email" := Eval(row, Col("email"))]
              ["full_name" := SqlNull]
              ["id" := Eval(row, Col("id"))]
  {
    var t, m := UsersCopyTargets, UsersCopyTerms;
    var r4 := CopyRow(row, t[4..], m[4..]);
    assert r4 == map[]["created_at" := Eval(row, Col("created_at"))] by {
      assert t[4..][1..] == [];
    }
    var r3 := CopyRow(row, t[3..], m[3..]);
    assert r3 == r4["password_hash" := Eval(row, Col("password_hash"))] by {
      assert t[3..][1..] == t[4..] && m[3..][1..] == m[4..];
    }
    var r2 := CopyRow(row, t[2..], m[2..]);
    assert r2 == r3["email" := Eval(row, Col("email"))] by {
      assert t[2..][1..] == t[3..] && m[2..][1..] == m[3..];
    }
    var r1 := CopyRow(row, t[1..], m[1..]);
    assert r1 == r2["full_name" := SqlNull] by {
      assert t[1..][1..] == t[2..] && m[1..][1..] == m[2..];
    }
    assert CopyRow(row, t, m) == r1["id" := Eval(row, Col("id"))];
  }

  /** A `users` table with neither `username` nor `full_name` gains
      `full_name`; a missing `users` table makes the step raise. */
  lemma FullNameAdded(db: Schema)
    requires "username" !in ColumnsOf(db, "users") && "full_name" !in ColumnsOf(db, "users")
    ensures MigrateUsers(db).Some? <==> "users" in db
    ensures "users" in db ==>
              var r := MigrateUsers(db).value;
              r.Keys == db.Keys && r["users"].columns == db["users"].columns + ["full_name"] &&
              |r["users"].rows| == |db["users"].rows| &&
              forall i | 0 <= i < |db["users"].rows| :: r["users"].rows[i] == db["users"].rows[i]["full_name" := SqlNull]
  {
  }

  /** A `users` table that already has `full_name` and no `username` is
      left alone. */
  lemma UsersAlreadyMigrated(db: Schema)
    requires "username" !in ColumnsOf(db, "users") && "full_name" in ColumnsOf(db, "users")
    ensures MigrateUsers(db) == Some(db)
  {
  }

  /** The whole run raises when there is no `users` table. */
  lemma MissingUsersFails(db: Schema)
    requires "users" !in db
    ensures Migrate(db) == None
  {
    assert ColumnsOf(db, "users") == [];
  }

  /** A `user_id`-keyed `sessions` without `user_email` is replaced by an
      empty table: the old sessions are discarded. Any other `sessions` is
      left alone. */
  lemma SessionsReplaced(db: Schema)
    ensures var cols := ColumnsOf(db, "sessions");
            "user_id" in cols && "user_email" !in cols && "sessions_new" !in db ==>
              MigrateSessions(db).Some? && MigrateSessions(db).value == (db - {"sessions"})["sessions" := Table(SessionsNewColumns, [])]
    ensures var cols := ColumnsOf(db, "sessions");
            !("user_id" in cols && "user_email" !in cols) ==> MigrateSessions(db) == Some(db)
  {
    var cols := ColumnsOf(db, "sessions");
    if "user_id" in cols && "user_email" !in cols && "sessions_new" !in db {
      var created := CreateIfMissing(db, "sessions_new", SessionsNewColumns);
      var r := Rename(created - {"sessions"}, "sessions_new", "sessions");
      assert r.Some?;
      assert r.value == (db - {"sessions"})["sessions" := Table(SessionsNewColumns, [])];
    }
  }

  /** A `user_id`-keyed `chat_logs` without `user_email` is rebuilt with one
      row per old row, in order; the rebuild raises exactly when the old
      table lacks a copied column. */
  lemma ChatLogsRebuilt(db: Schema)
    requires var cols := ColumnsOf(db, "chat_logs"); "user_id" in cols && "user_email" !in cols
    requires "chat_logs_new" !in db
    ensures MigrateChatLogs(db).Some? <==> Readable(db["chat_logs"].columns, ChatCopyTerms)
    ensures MigrateChatLogs(db).Some? ==>
              var r := MigrateChatLogs(db).value;
              "chat_logs_new" !in r && "chat_logs" in r && r["chat_logs"].columns == ChatLogsNewColumns &&
              r["chat_logs"].rows == CopyRows(db["chat_logs"].rows, ChatCopyTargets, ChatCopyTerms)
  {
    var created := CreateIfMissing(db, "chat_logs_new", ChatLogsNewColumns);
    assert forall c | c in ChatCopyTargets :: c in created["chat_logs_new"].columns;
  }

  /** The copied chat row keeps the session, role, message and time, with
      `user_email` NULL. */
  lemma ChatCopy(row: Row)
    ensures var r := CopyRow(row, ChatCopyTargets, ChatCopyTerms);
            r.Keys == {"session_id", "user_email", "role", "message", "created_at"} && r["user_email"] == SqlNull &&
            r["session_id"] == Eval(row, Col("session_id")) && r["role"] == Eval(row, Col("role")) &&
            r["message"] == Eval(row, Col("message")) && r["created_at"] == Eval(row, Col("created_at"))
  {
    var r := map[]
      ["created_at" := Eval(row, Col("created_at"))]
      ["message" := Eval(row, Col("message"))]
      ["role" := Eval(row, Col("role"))]
      ["user_email" := SqlNull]
      ["session_id" := Eval(row, Col("session_id"))];
    assert r.Keys == {"session_id", "user_email", "role", "message", "created_at"};
    assert r["session_id"] == Eval(row, Col("session_id"));
    assert r["user_email"] == SqlNull;
    assert r["role"] == Eval(row, Col("role"));
    assert r["message"] == Eval(row, Col("message"));
    assert r["created_at"] == Eval(row, Col("created_at"));
    ChatCopyUnfold(row);
  }

  lemma ChatCopyUnfold(row: Row)
    ensures CopyRow(row, ChatCopyTargets, ChatCopyTerms) ==
            map[]
              ["created_at" := Eval(row, Col("created_at"))]
              ["message" := Eval(row, Col("message"))]
              ["role" := Eval(row, Col("role"))]
              ["user_email" := SqlNull]
              ["session_id" := Eval(row, Col("session_id"))]
  {
    var t, m := ChatCopyTargets, ChatCopyTerms;
    var r4 := CopyRow(row, t[4..], m[4..]);
    assert r4 == map[]["created_at" := Eval(row, Col("created_at"))] by {
      assert t[4..][1..] == [];
    }
    var r3 := CopyRow(row, t[3..], m[3..]);
    assert r3 == r4["message" := Eval(row, Col("message"))] by {
      assert t[3..][1..] == t[4..] && m[3..][1..] == m[4..];
    }
    var r2 := CopyRow(row, t[2..], m[2..]);
    assert r2 == r3["role" := Eval(row, Col("role"))] by {
      assert t[2..][1..] == t[3..] && m[2..][1..] == m[3..];
    }
    var r1 := CopyRow(row, t[1..], m[1..]);
    assert r1 == r2["user_email" := SqlNull] by {
      assert t[1..][1..] == t[2..] && m[1..][1..] == m[2..];
    }
    assert CopyRow(row, t, m) == r1["session_id" := Eval(row, Col("session_id"))];
  }

  /** The state a successful run leaves behind: `users` has `full_name` and
      no `username`, and neither `sessions` nor `chat_logs` is keyed by
      `user_id` alone. */
  predicate Migrated(db: Schema)
  {
    var users := ColumnsOf(db, "users");
    var sessions := ColumnsOf(db, "sessions");
    var chats := ColumnsOf(db, "chat_logs");
    "username" !in users && "full_name" in users &&
    !("user_id" in sessions && "user_email" !in sessions) &&
    !("user_id" in chats && "user_email" !in chats)
  }

  /** Each step leaves the other tables as they were. */
  lemma UsersStepKeeps(db: Schema)
    requires "users_new" !in db && MigrateUsers(db).Some?
    ensures var r := MigrateUsers(db).value;
            "users_new" !in r && "users" in r && "username" !in r["users"].columns && "full_name" in r["users"].columns &&
            r.Keys == db.Keys && forall n | n in db && n != "users" :: r[n] == db[n]
  {
    if "username" in ColumnsOf(db, "users") {
      UsersRebuilt(db);
    }
  }

  lemma SessionsStepKeeps(db: Schema)
    requires "sessions_new" !in db && MigrateSessions(db).Some?
    ensures var r := MigrateSessions(db).value;
            "sessions_new" !in r && (forall n | n in db && n != "sessions" :: n in r && r[n] == db[n]) &&
            (forall n | n in r && n != "sessions" :: n in db) &&
            !("user_id" in ColumnsOf(r, "sessions") && "user_email" !in ColumnsOf(r, "sessions"))
  {
    SessionsReplaced(db);
    assert "user_id" !in SessionsNewColumns;
  }

  lemma ChatStepKeeps(db: Schema)
    requires "chat_logs_new" !in db && MigrateChatLogs(db).Some?
    ensures var r := MigrateChatLogs(db).value;
            "chat_logs_new" !in r && (forall n | n in r :: n in db) &&
            (forall n | n in db && n != "chat_logs" :: r[n] == db[n]) &&
            !("user_id" in ColumnsOf(r, "chat_logs") && "user_email" !in ColumnsOf(r, "chat_logs"))
  {
    var cols := ColumnsOf(db, "chat_logs");
    if "user_id" in cols && "user_email" !in cols {
      ChatLogsRebuilt(db);
      assert "user_id" !in ChatLogsNewColumns;
    }
  }

  /** A successful run from a database without leftover `*_new` tables
      reaches the migrated state and leaves every other table untouched. */
  lemma MigrateReachesMigrated(db: Schema)
    requires NoLeftovers(db) && Migrate(db).Some?
    ensures NoLeftovers(Migrate(db).value) && Migrated(Migrate(db).value)
    ensures forall n | n in db && n !in {"users", "sessions", "chat_logs"} :: n in Migrate(db).value && Migrate(db).value[n] == db[n]
  {
    MigrateReachesState(db);
    MigrateKeepsOthers(db);
  }

  lemma MigrateReachesState(db: Schema)
    requires NoLeftovers(db) && Migrate(db).Some?
    ensures NoLeftovers(Migrate(db).value) && Migrated(Migrate(db).value)
  {
    var d1 := MigrateUsers(db).value;
    UsersStepKeeps(db);
    var d2 := MigrateSessions(d1).value;
    SessionsStepKeeps(d1);
    ChatStepKeeps(d2);
  }

  lemma MigrateKeepsOthers(db: Schema)
    requires NoLeftovers(db) && Migrate(db).Some?
    ensures forall n | n in db && n !in {"users", "sessions", "chat_logs"} :: n in Migrate(db).value && Migrate(db).value[n] == db[n]
  {
    var d1 := MigrateUsers(db).value;
    UsersStepKeeps(db);
    var d2 := MigrateSessions(d1).value;
    SessionsStepKeeps(d1);
    ChatStepKeeps(d2);
  }

  /** Every step of an already-migrated database takes its no-op branch. */
  lemma MigratedIsFixed(db: Schema)
    requires Migrated(db)
    ensures Migrate(db) == Some(db)
  {
  }

  /** Running the migration twice is the same as running it once. */
  lemma MigrateIdempotent(db: Schema)
    requires NoLeftovers(db) && Migrate(db).Some?
    ensures Migrate(Migrate(db).value) == Migrate(db)
  {
    MigrateReachesMigrated(db);
    MigratedIsFixed(Migrate(db).value);
  }

  // ------------------------------------------------------ the running script

  /** The connection the script works through; each statement method
      raises (returns `false`) exactly when its value model does. */
  class Connection {
    var tables: Schema

    constructor(tables0: Schema)
      ensures tables == tables0
    {
      tables := tables0;
    }

    method TableInfo(name: string) returns (cols: seq<string>)
      ensures cols == ColumnsOf(tables, name)
    {
      cols := ColumnsOf(tables, name);
    }

    method CreateTableIfNotExists(name: string, columns: seq<string>)
      modifies this
      ensures tables == CreateIfMissing(old(tables), name, columns)
    {
      tables := CreateIfMissing(tables, name, columns);
    }

    method Copy(target: string, targets: seq<string>, source: string, terms: seq<Term>) returns (ok: bool)
      requires |targets| == |terms|
      modifies this
      ensures var r := InsertSelect(old(tables), target, targets, source, terms);
              ok == r.Some? && tables == (if ok then r.value else old(tables))
    {
      var r := InsertSelect(tables, target, targets, source, terms);
      ok := r.Some?;
      if ok {
        tables := r.value;
      }
    }

    method DropTable(name: string, ifExists: bool) returns (ok: bool)
      modifies this
      ensures ok == (ifExists || name in old(tables))
      ensures tables == if ok then old(tables) - {name} else old(tables)
    {
      ok := ifExists || name in tables;
      if ok {
        tables := tables - {name};
      }
    }

    method RenameTable(source: string, target: string) returns (ok: bool)
      modifies this
      ensures var r := Rename(old(tables), source, target);
              ok == r.Some? && tables == (if ok then r.value else old(tables))
    {
      var r := Rename(tables, source, target);
      ok := r.Some?;
      if ok {
        tables := r.value;
      }
    }

    method AddTableColumn(name: string, column: string) returns (ok: bool)
      modifies this
      ensures var r := AddColumn(old(tables), name, column);
              ok == r.Some? && tables == (if ok then r.value else old(tables))
    {
      var r := AddColumn(tables, name, column);
      ok := r.Some?;
      if ok {
        tables := r.value;
      }
    }
  }

  /** `migrate_database`: `true` and the migrated tables when every
      statement succeeds, `false` as soon as one raises. */
  method MigrateDatabase(conn: Connection) returns (success: bool)
    modifies conn
    ensures success <==> Migrate(old(conn.tables)).Some?
    ensures success ==> conn.tables == Migrate(old(conn.tables)).value
  {
    ghost var db0 := conn.tables;
    // Step 1: users
    var users := conn.TableInfo("users");
    if "username" in users {
      conn.CreateTableIfNotExists("users_new", UsersNewColumns);
      var ok := conn.Copy("users_new", UsersCopyTargets, "users", UsersCopyTerms);
      if !ok { return false; }
      ok := conn.DropTable("users", false);
      if !ok { return false; }
      ok := conn.RenameTable("users_new", "users");
      if !ok { return false; }
    } else if "full_name" !in users {
      var ok := conn.AddTableColumn("users", "full_name");
      if !ok { return false; }
    }
    assert MigrateUsers(db0) == Some(conn.tables);
    ghost var db1 := conn.tables;
    // Step 2: sessions
    var sessions := conn.TableInfo("sessions");
    if "user_id" in sessions && "user_email" !in sessions {
      conn.CreateTableIfNotExists("sessions_new", SessionsNewColumns);
      var ok := conn.DropTable("sessions", true);
      ok := conn.RenameTable("sessions_new", "sessions");
      if !ok { return false; }
    }
    assert MigrateSessions(db1) == Some(conn.tables);
    ghost var db2 := conn.tables;
    // Step 3: chat_logs
    var chats := conn.TableInfo("chat_logs");
    if "user_id" in chats && "user_email" !in chats {
      conn.CreateTableIfNotExists("chat_logs_new", ChatLogsNewColumns);
      var ok := conn.Copy("chat_logs_new", ChatCopyTargets, "chat_logs", ChatCopyTerms);
      if !ok { return false; }
      ok := conn.DropTable("chat_logs", false);
      if !ok { return false; }
      ok := conn.RenameTable("chat_logs_new", "chat_logs");
      if !ok { return false; }
    }
    assert MigrateChatLogs(db2) == Some(conn.tables);
    return true;
  }

  /** The script's exit status: 0 after a successful run, 1 otherwise. */
  method RunScript(conn: Connection) returns (status: int)
    modifies conn
    ensures status == (if Migrate(old(conn.tables)).Some? then 0 else 1)
    ensures status == 0 ==> conn.tables == Migrate(old(conn.tables)).value
  {
    var success := MigrateDatabase(conn);
    status := if success then 0 else 1;
  }
}
