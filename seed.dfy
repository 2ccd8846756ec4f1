/**
 * The permission seed script of the server: upsert the fixed permission
 * catalog by name, build a name-to-id map, then overwrite every superAdmin's
 * and admin's permission set with the whole table and every plain user's set
 * with the ids of the four "user" grants that exist.
 *
 * The database is modelled in memory: the permission table as a sequence of
 * rows (the order `findMany` returns them in), the users' roles and their
 * permission relations as maps keyed by user id. Fresh permission ids come
 * from a counter standing for the database's id generator.
 */
module Seed {

  type PermId = nat
  type UserId = string

  datatype Permission = Permission(id: PermId, name: string)

  /** The catalog upserted on every run, in order. */
  const CatalogNames: seq<string> :=
    ["event.create", "event.update.own", "event.update.all",
     "event.delete.own", "event.delete.all", "event.rsvp"]

  /** The permissions granted to the "user" role, in the order they are looked up. */
  const UserRoleNames: seq<string> :=
    ["event.create", "event.update.own", "event.delete.own", "event.rsvp"]

  const SuperAdminRole := "superAdmin"
  const AdminRole := "admin"
  const UserRole := "user"

  /** The database: permission rows, the next fresh id, users' roles and users' permission ids. */
  datatype Db = Db(
    permissions: seq<Permission>,
    nextId: PermId,
    roles: map<UserId, string>,
    grants: map<UserId, set<PermId>>)

  /** Whether the table holds a row with this name. */
  predicate HasName(perms: seq<Permission>, name: string) {
    exists p :: p in perms && p.name == name
  }

  /** Names are unique (the `name` column is a unique key). */
  ghost predicate UniqueNames(perms: seq<Permission>) {
    forall i, j :: 0 <= i < j < |perms| ==> perms[i].name != perms[j].name
  }

  /** Ids are unique (the primary key). */
  ghost predicate UniqueIds(perms: seq<Permission>) {
    forall i, j :: 0 <= i < j < |perms| ==> perms[i].id != perms[j].id
  }

  /** The invariant of the database: unique keys, fresh ids above every stored id, one relation per user. */
  ghost predicate WellFormed(db: Db) {
    && UniqueNames(db.permissions)
    && UniqueIds(db.permissions)
    && (forall p :: p in db.permissions ==> p.id < db.nextId)
    && db.grants.Keys == db.roles.Keys
  }

  /** All ids in the table: `allPermissions.map((perm) => ({ id: perm.id }))` as a relation. */
  function AllIds(perms: seq<Permission>): set<PermId> {
    set p | p in perms :: p.id
  }

  /** The ids of the rows whose name is in `names`. */
  function IdsNamed(perms: seq<Permission>, names: set<string>): set<PermId> {
    set p | p in perms && p.name in names :: p.id
  }

  // ---------------------------------------------------------------------------
  // The catalog upsert

  /** `permission.upsert({ where: { name }, update: {}, create: { name } })`. */
  function Upsert(db: Db, name: string): (r: Db)
    ensures HasName(r.permissions, name)
    ensures HasName(db.permissions, name) ==> r == db
    ensures !HasName(db.permissions, name) ==>
              r == db.(permissions := db.permissions + [Permission(db.nextId, name)], nextId := db.nextId + 1)
  {
    if HasName(db.permissions, name) then db
    else
      var row := Permission(db.nextId, name);
      assert row in db.permissions + [row];
      db.(permissions := db.permissions + [row], nextId := db.nextId + 1)
  }

  /** The upsert loop over `names`, in order. */
  function UpsertAll(db: Db, names: seq<string>): (r: Db)
    decreases |names|
  {
    if names == [] then db
    else Upsert(UpsertAll(db, names[..|names| - 1]), names[|names| - 1])
  }

  /** An upsert keeps the invariant and never changes or deletes a row, a role or a user's set. */
  lemma UpsertPreserves(db: Db, name: string)
    requires WellFormed(db)
    ensures WellFormed(Upsert(db, name))
    ensures db.permissions <= Upsert(db, name).permissions
    ensures Upsert(db, name).roles == db.roles && Upsert(db, name).grants == db.grants
  {
    var r := Upsert(db, name);
    if !HasName(db.permissions, name) {
      var n := |db.permissions|;
      forall i, j | 0 <= i < j < |r.permissions| ensures r.permissions[i].name != r.permissions[j].name {
        if j == n {
          assert db.permissions[i] in db.permissions;
        }
      }
      forall i, j | 0 <= i < j < |r.permissions| ensures r.permissions[i].id != r.permissions[j].id {
        if j == n {
          assert db.permissions[i] in db.permissions;
        }
      }
    }
  }

  /**
   * After the upsert loop every name is stored, exactly once; rows that existed
   * are kept as they were; the only new rows carry names from the list.
   */
  lemma {:induction false} UpsertAllSpec(db: Db, names: seq<string>)
    requires WellFormed(db)
    ensures WellFormed(UpsertAll(db, names))
    ensures forall n :: n in names ==> HasName(UpsertAll(db, names).permissions, n)
    ensures db.permissions <= UpsertAll(db, names).permissions
    ensures forall p :: p in UpsertAll(db, names).permissions ==> p in db.permissions || p.name in names
    ensures UpsertAll(db, names).roles == db.roles && UpsertAll(db, names).grants == db.grants
    decreases |names|
  {
    if names != [] {
      var front := names[..|names| - 1];
      var last := names[|names| - 1];
      UpsertAllSpec(db, front);
      var mid := UpsertAll(db, front);
      UpsertPreserves(mid, last);
      var r := Upsert(mid, last);
      forall n | n in names ensures HasName(r.permissions, n) {
        if n != last {
          assert n in front;
          var p :| p in mid.permissions && p.name == n;
          assert p in r.permissions;
        }
      }
      forall p | p in r.permissions ensures p in db.permissions || p.name in names {
        if p !in mid.permissions {
          assert p.name == last;
        } else if p !in db.permissions {
          assert p.name in front;
        }
      }
    }
  }

  /** Upserting names that are all stored already changes nothing: the update part is empty. */
  lemma {:induction false} UpsertAllPresent(db: Db, names: seq<string>)
    requires forall n :: n in names ==> HasName(db.permissions, n)
    ensures UpsertAll(db, names) == db
    decreases |names|
  {
    if names != [] {
      var front := names[..|names| - 1];
      assert forall n :: n in front ==> n in names;
      UpsertAllPresent(db, front);
    }
  }

  // ---------------------------------------------------------------------------
  // The permission map

  /** `allPermissions.reduce((acc, perm) => { acc[perm.name] = perm.id; return acc; }, {})`. */
  function PermissionMap(perms: seq<Permission>): (m: map<string, PermId>)
    ensures m.Keys == set p | p in perms :: p.name
    decreases |perms|
  {
    if perms == [] then map[]
    else
      var front := perms[..|perms| - 1];
      var last := perms[|perms| - 1];
      assert perms == front + [last];
      PermissionMap(front)[last.name := last.id]
  }

  /** With unique names, the map sends every stored name to that row's id. */
  lemma {:induction false} PermissionMapSpec(perms: seq<Permission>)
    requires UniqueNames(perms)
    ensures forall p :: p in perms ==> PermissionMap(perms)[p.name] == p.id
    decreases |perms|
  {
    if perms != [] {
      var front := perms[..|perms| - 1];
      var last := perms[|perms| - 1];
      assert perms == front + [last];
      PermissionMapSpec(front);
      forall p | p in perms ensures PermissionMap(perms)[p.name] == p.id {
        if p != last {
          var i :| 0 <= i < |front| && front[i] == p;
          assert perms[i] == p;
        }
      }
    }
  }

  /**
   * `[permissionMap[n] for n in names].filter((id) => id)`: the ids of the names
   * present in the map, in order; a missing name is dropped, not an error.
   */
  function PresentIds(pm: map<string, PermId>, names: seq<string>): (ids: seq<PermId>)
    ensures forall id :: id in ids <==> exists n :: n in names && n in pm && pm[n] == id
  {
    if names == [] then []
    else (if names[0] in pm then [pm[names[0]]] else []) + PresentIds(pm, names[1..])
  }

  // ---------------------------------------------------------------------------
  // The per-role assignment

  /** `u`'s relation after `set: ids` for every user in `us`; other users keep theirs. */
  function Overwrite(grants: map<UserId, set<PermId>>, us: seq<UserId>, ids: set<PermId>): map<UserId, set<PermId>> {
    map u | u in grants :: if u in us then ids else grants[u]
  }

  /** What the three role loops leave as `u`'s relation. */
  function RoleGrant(role: string, all: set<PermId>, userIds: set<PermId>, current: set<PermId>): set<PermId> {
    if role == SuperAdminRole || role == AdminRole then all
    else if role == UserRole then userIds
    else current
  }

  /** Every user's relation after the three role loops. */
  function Reassign(db: Db, all: set<PermId>, userIds: set<PermId>): map<UserId, set<PermId>> {
    map u | u in db.grants :: if u in db.roles then RoleGrant(db.roles[u], all, userIds, db.grants[u]) else db.grants[u]
  }

  /** The whole seed run on the database `db`. */
  function SeedSpec(db: Db): Db {
    var db1 := UpsertAll(db, CatalogNames);
    var pm := PermissionMap(db1.permissions);
    var userIds := set id | id in PresentIds(pm, UserRoleNames);
    db1.(grants := Reassign(db1, AllIds(db1.permissions), userIds))
  }

  // ---------------------------------------------------------------------------
  // What a seed run guarantees

  /**
   * After a run: the table keeps every earlier row, holds every catalog name
   * exactly once, and no row was added except for a catalog name.
   */
  lemma SeedCatalog(db: Db)
    requires WellFormed(db)
    ensures WellFormed(SeedSpec(db))
    ensures db.permissions <= SeedSpec(db).permissions
    ensures forall n :: n in CatalogNames ==> HasName(SeedSpec(db).permissions, n)
    ensures forall p :: p in SeedSpec(db).permissions ==> p in db.permissions || p.name in CatalogNames
    ensures SeedSpec(db).roles == db.roles
  {
    UpsertAllSpec(db, CatalogNames);
  }

  /**
   * After a run: every superAdmin's and admin's set is exactly the whole table,
   * every plain user's set is exactly the ids of create, update.own, delete.own
   * and rsvp (never update.all or delete.all), and users with any other role
   * keep the set they had.
   */
  lemma SeedGrants(db: Db, u: UserId)
    requires WellFormed(db) && u in db.roles
    ensures u in SeedSpec(db).grants
    ensures db.roles[u] == SuperAdminRole || db.roles[u] == AdminRole ==>
              SeedSpec(db).grants[u] == AllIds(SeedSpec(db).permissions)
    ensures db.roles[u] == UserRole ==>
              SeedSpec(db).grants[u] == IdsNamed(SeedSpec(db).permissions, set n | n in UserRoleNames)
    ensures db.roles[u] == UserRole ==>
              forall p :: p in SeedSpec(db).permissions && p.name in {"event.update.all", "event.delete.all"} ==>
                p.id !in SeedSpec(db).grants[u]
    ensures db.roles[u] !in {SuperAdminRole, AdminRole, UserRole} ==> SeedSpec(db).grants[u] == db.grants[u]
  {
    var perms := SeedSpec(db).permissions;
    SeedGrantOf(db, u);
    if db.roles[u] == UserRole {
      UserIdsExact(perms);
      assert "event.update.all" !in UserRoleNames && "event.delete.all" !in UserRoleNames;
    }
  }

  /** After a run, `u`'s set is what its role selects from the upserted table. */
  lemma SeedGrantOf(db: Db, u: UserId)
    requires WellFormed(db) && u in db.roles
    ensures UniqueNames(SeedSpec(db).permissions) && UniqueIds(SeedSpec(db).permissions)
    ensures u in SeedSpec(db).grants
    ensures SeedSpec(db).grants[u] ==
              RoleGrant(db.roles[u], AllIds(SeedSpec(db).permissions),
                        (set id | id in PresentIds(PermissionMap(SeedSpec(db).permissions), UserRoleNames)),
                        db.grants[u])
  {
    UpsertAllSpec(db, CatalogNames);
    var db1 := UpsertAll(db, CatalogNames);
    assert SeedSpec(db).permissions == db1.permissions;
    assert u in db1.grants && db1.roles[u] == db.roles[u] && db1.grants[u] == db.grants[u];
  }

  /**
   * With unique names, the filtered list of the four "user" ids holds exactly
   * the ids of those rows, and no id of a row named otherwise.
   */
  lemma UserIdsExact(perms: seq<Permission>)
    requires UniqueNames(perms) && UniqueIds(perms)
    ensures (set id | id in PresentIds(PermissionMap(perms), UserRoleNames)) == IdsNamed(perms, set n | n in UserRoleNames)
    ensures forall p :: p in perms && p.name !in UserRoleNames ==> p.id !in IdsNamed(perms, set n | n in UserRoleNames)
  {
    var pm := PermissionMap(perms);
    PermissionMapSpec(perms);
    var userIds := set id | id in PresentIds(pm, UserRoleNames);
    var want := IdsNamed(perms, set n | n in UserRoleNames);
    forall id | id in userIds ensures id in want {
      var n :| n in UserRoleNames && n in pm && pm[n] == id;
      var p :| p in perms && p.name == n;
    }
    forall id | id in want ensures id in userIds {
      var p :| p in perms && p.name in UserRoleNames && p.id == id;
      assert pm[p.name] == id;
    }
    forall p | p in perms && p.name !in UserRoleNames ensures p.id !in want {
      var i :| 0 <= i < |perms| && perms[i] == p;
      forall q | q in perms && q.name in UserRoleNames ensures q.id != p.id {
        var j :| 0 <= j < |perms| && perms[j] == q;
      }
    }
  }

  /** The three role loops, one after the other, leave exactly `Reassign`'s relations. */
  lemma RoleLoopsReassign(db: Db, superAdmins: seq<UserId>, admins: seq<UserId>, users: seq<UserId>,
                          all: set<PermId>, userIds: set<PermId>)
    requires db.grants.Keys == db.roles.Keys
    requires forall u :: u in superAdmins <==> u in db.roles && db.roles[u] == SuperAdminRole
    requires forall u :: u in admins <==> u in db.roles && db.roles[u] == AdminRole
    requires forall u :: u in users <==> u in db.roles && db.roles[u] == UserRole
    ensures Overwrite(Overwrite(Overwrite(db.grants, superAdmins, all), admins, all), users, userIds)
            == Reassign(db, all, userIds)
  {
  }

  /** Running the seed twice leaves the same table and the same per-user sets as running it once. */
  lemma SeedIdempotent(db: Db)
    requires WellFormed(db)
    ensures SeedSpec(SeedSpec(db)) == SeedSpec(db)
  {
    var db1 := UpsertAll(db, CatalogNames);
    var all := AllIds(db1.permissions);
    var userIds := set id | id in PresentIds(PermissionMap(db1.permissions), UserRoleNames);
    var once := db1.(grants := Reassign(db1, all, userIds));
    assert SeedSpec(db) == once;
    SeedCatalog(db);
    UpsertAllPresent(once, CatalogNames);
    assert SeedSpec(once) == once.(grants := Reassign(once, all, userIds));
    ReassignIdempotent(db1, all, userIds);
  }

  /** Reassigning a second time with the same sets changes nothing: every loop replaces, none adds. */
  lemma ReassignIdempotent(db: Db, all: set<PermId>, userIds: set<PermId>)
    ensures Reassign(db.(grants := Reassign(db, all, userIds)), all, userIds) == Reassign(db, all, userIds)
  {
  }

  // ---------------------------------------------------------------------------
  // The script, against an in-memory store

  class Store {
    var permissions: seq<Permission>
    var nextId: PermId
    var roles: map<UserId, string>
    var grants: map<UserId, set<PermId>>

    /** The store's contents as a database value. */
    function State(): Db
      reads this
    {
      Db(permissions, nextId, roles, grants)
    }

    constructor (db: Db)
      ensures State() == db
    {
      permissions, nextId, roles, grants := db.permissions, db.nextId, db.roles, db.grants;
    }

    /** One upsert by name. */
    method UpsertPermission(name: string)
      modifies this
      ensures State() == Upsert(old(State()), name)
    {
      if !HasName(permissions, name) {
        permissions := permissions + [Permission(nextId, name)];
        nextId := nextId + 1;
      }
    }

    /** `user.findMany({ where: { role } })`: each user of that role, once. */
    method UsersWithRole(role: string) returns (us: seq<UserId>)
      ensures forall u :: u in us <==> u in roles && roles[u] == role
      ensures forall i, j :: 0 <= i < j < |us| ==> us[i] != us[j]
    {
      us := [];
      var rest := roles.Keys;
      while rest != {}
        invariant rest <= roles.Keys
        invariant forall u :: u in us <==> u in roles && u !in rest && roles[u] == role
        invariant forall i, j :: 0 <= i < j < |us| ==> us[i] != us[j]
        decreases rest
      {
        var u :| u in rest;
        if roles[u] == role {
          us := us + [u];
        }
        rest := rest - {u};
      }
    }

    /** One `user.update({ where: { id: u }, data: { permissions: { set: ids } } })` per user in `us`. */
    method SetPermissionsOf(us: seq<UserId>, ids: set<PermId>)
      requires forall u :: u in us ==> u in grants
      modifies this
      ensures grants == Overwrite(old(grants), us, ids)
      ensures permissions == old(permissions) && nextId == old(nextId) && roles == old(roles)
    {
      ghost var g0 := grants;
      var k := 0;
      while k < |us|
        invariant 0 <= k <= |us|
        invariant grants == Overwrite(g0, us[..k], ids)
        invariant permissions == old(permissions) && nextId == old(nextId) && roles == old(roles)
      {
        assert us[..k + 1] == us[..k] + [us[k]];
        grants := grants[us[k] := ids];
        k := k + 1;
      }
      assert us[..k] == us;
    }

    /** The upsert loop over the catalog. */
    method UpsertCatalog()
      modifies this
      ensures State() == UpsertAll(old(State()), CatalogNames)
    {
      ghost var db0 := State();
      var i := 0;
      while i < |CatalogNames|
        invariant 0 <= i <= |CatalogNames|
        invariant State() == UpsertAll(db0, CatalogNames[..i])
      {
        assert CatalogNames[..i + 1][..i] == CatalogNames[..i];
        UpsertPermission(CatalogNames[i]);
        i := i + 1;
      }
      assert CatalogNames[..i] == CatalogNames;
    }

    /** The seed script. */
    method Seed()
      requires WellFormed(State())
      modifies this
      ensures State() == SeedSpec(old(State()))
    {
      ghost var db0 := State();
      UpsertCatalog();
      UpsertAllSpec(db0, CatalogNames);
      ghost var db1 := State();

      var all := permissions;
      var permissionMap := BuildPermissionMap(all);
      var allIds := set p | p in all :: p.id;

      var superAdmins := UsersWithRole(SuperAdminRole);
      SetPermissionsOf(superAdmins, allIds);
      var admins := UsersWithRole(AdminRole);
      SetPermissionsOf(admins, allIds);
      var users := UsersWithRole(UserRole);
      var userPermissionIds := PresentIds(permissionMap, UserRoleNames);
      SetPermissionsOf(users, set id | id in userPermissionIds);

      assert allIds == AllIds(all);
      RoleLoopsReassign(db1, superAdmins, admins, users, allIds, set id | id in userPermissionIds);
    }
  }

  /** The `reduce` that builds `permissionMap`, as the loop it performs. */
  method BuildPermissionMap(all: seq<Permission>) returns (acc: map<string, PermId>)
    ensures acc == PermissionMap(all)
  {
    acc := map[];
    for i := 0 to |all|
      invariant acc == PermissionMap(all[..i])
    {
      assert all[..i + 1][..i] == all[..i];
      acc := acc[all[i].name := all[i].id];
    }
    assert all[..|all|] == all;
  }
}
