/** The admin-management endpoints: an existing admin authorises the
    creation of another admin, or the change of ANOTHER admin's password. */
module AdminApi {
  import opened Wrappers
  import opened DbOps

  datatype Credentials = Credentials(username: string, password: string)

  /** `CreateAdminPayload`: the authorising admin and the admin to create. */
  datatype CreateAdminPayload = CreateAdminPayload(admin: Credentials, newAdmin: Credentials)

  /** `ChangePasswordPayload`: the authorising admin and the new password. */
  datatype ChangePasswordPayload = ChangePasswordPayload(admin: Credentials, newPassword: string)

  const Unauthorized := Error(401, "Unauthorized")
  const AdminExists := Error(400, "Admin with this username already exists")
  const AdminNotFound := Error(404, "Admin not found")
  const SelfChange := Error(403, "Password change must be authorized by a different admin")

  predicate Authorized(admins: map<int, AdminRow>, c: Credentials)
  {
    VerifyAdmin(admins, c.username, c.password)
  }

  /** The guard chain of `create_admin`: 401, then 400, then success. */
  function CreateOutcome(admins: map<int, AdminRow>, p: CreateAdminPayload): (r: Response<string>)
    ensures r.Ok? <==> Authorized(admins, p.admin) && !HasAdminNamed(admins, p.newAdmin.username)
    ensures !Authorized(admins, p.admin) ==> r == Unauthorized
    ensures Authorized(admins, p.admin) && HasAdminNamed(admins, p.newAdmin.username) ==> r == AdminExists
  {
    if !Authorized(admins, p.admin) then Unauthorized
    else if HasAdminNamed(admins, p.newAdmin.username) then AdminExists
    else Ok("Admin created successfully")
  }

  /** The guard chain of `change_admin_password`: 401, 404, 403, success. */
  function ChangeOutcome(admins: map<int, AdminRow>, target: string, p: ChangePasswordPayload): (r: Response<string>)
    ensures r.Ok? <==> Authorized(admins, p.admin) && HasAdminNamed(admins, target) && p.admin.username != target
    ensures !Authorized(admins, p.admin) ==> r == Unauthorized
    ensures Authorized(admins, p.admin) && !HasAdminNamed(admins, target) ==> r == AdminNotFound
    ensures Authorized(admins, p.admin) && HasAdminNamed(admins, target) && p.admin.username == target ==> r == SelfChange
  {
    if !Authorized(admins, p.admin) then Unauthorized
    else if !HasAdminNamed(admins, target) then AdminNotFound
    else if p.admin.username == target then SelfChange
    else Ok("Password updated successfully")
  }

  /** `UPDATE admin SET password = ? WHERE username = ?`. */
  function SetPassword(admins: map<int, AdminRow>, target: string, password: string): map<int, AdminRow>
  {
    Updated(admins, (a: AdminRow) => a.username == target, (a: AdminRow) => AdminRow(a.username, password))
  }

  /** A verified authorizer's own row carries its username. */
  lemma AuthorizerIsNamed(admins: map<int, AdminRow>, c: Credentials)
    requires Authorized(admins, c)
    ensures HasAdminNamed(admins, c.username)
  {
    var id :| id in admins && admins[id] == AdminRow(c.username, c.password);
    assert admins[id].username == c.username;
  }

  /** A new admin can never take the authorizer's own username: either the
      authorizer fails (401) or the duplicate check fires (400). */
  lemma CreateNeverTakesAuthorizerName(admins: map<int, AdminRow>, p: CreateAdminPayload)
    requires p.newAdmin.username == p.admin.username
    ensures CreateOutcome(admins, p) == (if Authorized(admins, p.admin) then AdminExists else Unauthorized)
  {
    if Authorized(admins, p.admin) {
      AuthorizerIsNamed(admins, p.admin);
    }
  }

  /** A self-change is 403 with valid credentials and 401 without. */
  lemma SelfChangeRejected(admins: map<int, AdminRow>, p: ChangePasswordPayload)
    ensures ChangeOutcome(admins, p.admin.username, p) ==
            (if Authorized(admins, p.admin) then SelfChange else Unauthorized)
  {
    if Authorized(admins, p.admin) {
      AuthorizerIsNamed(admins, p.admin);
    }
  }

  /** Only the target's password changes: the ids and usernames stay, every
      other admin keeps its password, and usernames stay unique. */
  lemma SetPasswordFrame(admins: map<int, AdminRow>, target: string, password: string)
    requires UniqueUsernames(admins)
    ensures SetPassword(admins, target, password).Keys == admins.Keys
    ensures forall id | id in admins ::
              SetPassword(admins, target, password)[id].username == admins[id].username &&
              SetPassword(admins, target, password)[id].password ==
                (if admins[id].username == target then password else admins[id].password)
    ensures UniqueUsernames(SetPassword(admins, target, password))
  {
  }

  /** After a successful change the authorizer still verifies with its old
      password and the target verifies with the new one. */
  lemma ChangeKeepsAuthorizer(admins: map<int, AdminRow>, target: string, p: ChangePasswordPayload)
    requires UniqueUsernames(admins)
    requires ChangeOutcome(admins, target, p).Ok?
    ensures Authorized(SetPassword(admins, target, p.newPassword), p.admin)
    ensures VerifyAdmin(SetPassword(admins, target, p.newPassword), target, p.newPassword)
  {
    var after := SetPassword(admins, target, p.newPassword);
    SetPasswordFrame(admins, target, p.newPassword);
    var a :| a in admins && admins[a] == AdminRow(p.admin.username, p.admin.password);
    assert after[a] == admins[a];
    var t :| t in admins && admins[t].username == target;
    assert after[t] == AdminRow(target, p.newPassword);
  }

  /** `create_admin`. */
  method CreateAdmin(table: Table<AdminRow>, p: CreateAdminPayload) returns (r: Response<string>)
    requires table.Valid() && UniqueUsernames(table.rows)
    modifies table
    ensures table.Valid() && UniqueUsernames(table.rows)
    ensures r == CreateOutcome(old(table.rows), p)
    ensures r.Ok? ==> table.rows == old(table.rows)[old(table.nextId) := AdminRow(p.newAdmin.username, p.newAdmin.password)]
    ensures r.Error? ==> table.rows == old(table.rows) && table.nextId == old(table.nextId)
  {
    var authOk := exists id | id in table.rows :: table.rows[id] == AdminRow(p.admin.username, p.admin.password);
    if !authOk {
      return Unauthorized;
    }
    var existing := exists id | id in table.rows :: table.rows[id].username == p.newAdmin.username;
    if existing {
      return AdminExists;
    }
    var id := table.Insert(AdminRow(p.newAdmin.username, p.newAdmin.password));
    r := Ok("Admin created successfully");
  }

  /** `change_admin_password`. */
  method ChangeAdminPassword(table: Table<AdminRow>, target: string, p: ChangePasswordPayload) returns (r: Response<string>)
    requires table.Valid() && UniqueUsernames(table.rows)
    modifies table
    ensures table.Valid() && UniqueUsernames(table.rows) && table.nextId == old(table.nextId)
    ensures r == ChangeOutcome(old(table.rows), target, p)
    ensures table.rows == if r.Ok? then SetPassword(old(table.rows), target, p.newPassword) else old(table.rows)
  {
    var authOk := exists id | id in table.rows :: table.rows[id] == AdminRow(p.admin.username, p.admin.password);
    if !authOk {
      return Unauthorized;
    }
    var found := exists id | id in table.rows :: table.rows[id].username == target;
    if !found {
      return AdminNotFound;
    }
    if p.admin.username == target {
      return SelfChange;
    }
    SetPasswordFrame(table.rows, target, p.newPassword);
    var count := table.UpdateWhere((a: AdminRow) => a.username == target, (a: AdminRow) => AdminRow(a.username, p.newPassword));
    r := Ok("Password updated successfully");
  }
}
