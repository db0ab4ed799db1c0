/** The admin console's user side: the role it displays for each user and
    the four role buttons, each a partial merge into `userRoles/{uid}`. */
module AdminRoles {
  import opened Basics
  import opened RoleRecords
  import Identity
  import Guards

  /** A `users` entry as the console lists it. */
  datatype AppUser = AppUser(key: string, uid: Option<string>, name: string, email: Option<string>)

  /** `uid` is present and non-empty (`!uid` fails otherwise). */
  predicate HasUid(uid: Option<string>) {
    uid.Some? && uid.value != ""
  }

  /** `users.find(u => u.uid === uid)`: the first user with that uid. */
  function FindUser(users: seq<AppUser>, uid: string): (r: Option<AppUser>)
    ensures r.None? <==> forall k | 0 <= k < |users| :: users[k].uid != Some(uid)
    ensures r.Some? ==> exists k :: 0 <= k < |users| && users[k] == r.value && r.value.uid == Some(uid)
                          && forall j | 0 <= j < k :: users[j].uid != Some(uid)
  {
    if |users| == 0 then None
    else if users[0].uid == Some(uid) then Some(users[0])
    else
      var r := FindUser(users[1..], uid);
      assert forall k | 1 <= k < |users| :: users[k] == users[1..][k - 1];
      assert r.Some? ==> exists k :: 0 <= k < |users| && users[k] == r.value && r.value.uid == Some(uid)
                                     && forall j | 0 <= j < k :: users[j].uid != Some(uid) by {
        if r.Some? {
          var k :| 0 <= k < |users[1..]| && users[1..][k] == r.value && r.value.uid == Some(uid)
                    && forall j | 0 <= j < k :: users[1..][j].uid != Some(uid);
          assert users[k + 1] == r.value;
          assert forall j | 0 <= j < k + 1 :: users[j].uid != Some(uid);
        }
      }
      r
  }

  /** What a user's row shows. */
  datatype DisplayRole = DisplayRole(admin: bool, suspended: bool)

  /** `userRole(uid)`: without a uid nothing is set; otherwise admin is a
      stored `true` or the listed e-mail being allow-listed, and suspended is
      a stored `true`. Suspension does not mask admin here. */
  function UserRole(uid: Option<string>, roles: RoleStore, users: seq<AppUser>, allowList: seq<string>): (d: DisplayRole)
    ensures !HasUid(uid) ==> d == DisplayRole(false, false)
    ensures HasUid(uid) ==>
      && d.suspended == (uid.value in roles && IsTrue(roles[uid.value].suspended))
      && d.admin == ((uid.value in roles && IsTrue(roles[uid.value].admin))
                     || (var u := FindUser(users, uid.value);
                         u.Some? && Identity.IsAdminEmail(u.value.email, allowList)))
  {
    if !HasUid(uid) then DisplayRole(false, false)
    else
      var stored := if uid.value in roles then roles[uid.value] else RoleRecord(Unset, Unset);
      var user := FindUser(users, uid.value);
      var email := if user.Some? then user.value.email else None;
      DisplayRole(IsTrue(stored.admin) || Identity.IsAdminEmail(email, allowList), IsTrue(stored.suspended))
  }

  datatype RoleAction = MakeAdmin | RemoveAdmin | Suspend | Unsuspend

  /** The payload each button writes. */
  function Payload(a: RoleAction): (p: RolePatch)
    ensures p.admin.Some? || p.suspended.Some?
    ensures p.admin == Some(true) ==> p.suspended == Some(false)
    ensures p.suspended == Some(true) ==> p.admin == Some(false)
  {
    match a
    case MakeAdmin => RolePatch(Some(true), Some(false))
    case RemoveAdmin => RolePatch(Some(false), None)
    case Suspend => RolePatch(Some(false), Some(true))
    case Unsuspend => RolePatch(None, Some(false))
  }

  /** Which buttons a user's row shows. A shown button always writes a value
      that differs from what the row displays, and Make Admin, which also
      writes `suspended: false`, is shown only to a user who is not
      suspended. */
  function Offered(a: RoleAction, d: DisplayRole, uid: Option<string>): (r: bool)
    ensures r ==> HasUid(uid)
    ensures r ==> Payload(a).admin == Some(!d.admin) || Payload(a).suspended == Some(!d.suspended)
    ensures a == MakeAdmin ==> (r <==> HasUid(uid) && !d.admin && !d.suspended)
    ensures a == RemoveAdmin ==> (r <==> HasUid(uid) && d.admin)
    ensures a == Suspend ==> (r <==> HasUid(uid) && !d.suspended)
    ensures a == Unsuspend ==> (r <==> HasUid(uid) && d.suspended)
  {
    HasUid(uid) &&
    match a
    case MakeAdmin => !d.admin && !d.suspended
    case RemoveAdmin => d.admin
    case Suspend => !d.suspended
    case Unsuspend => d.suspended
  }

  /** Pressing a button: the payload merged into the user's role record. */
  function Perform(roles: RoleStore, uid: string, a: RoleAction): (r: RoleStore)
    ensures r.Keys == roles.Keys + {uid}
    ensures forall k | k in roles && k != uid :: r[k] == roles[k]
    ensures a == MakeAdmin ==> r[uid] == RoleRecord(Bool(true), Bool(false))
    ensures a == Suspend ==> r[uid] == RoleRecord(Bool(false), Bool(true))
    ensures a == RemoveAdmin ==> r[uid].admin == Bool(false)
                                 && r[uid].suspended == (if uid in roles then roles[uid].suspended else Unset)
    ensures a == Unsuspend ==> r[uid].suspended == Bool(false)
                               && r[uid].admin == (if uid in roles then roles[uid].admin else Unset)
  {
    Update(roles, uid, Payload(a))
  }

  /** For a user with a uid, exactly one of Suspend and Unsuspend is shown,
      Make Admin and Remove Admin are never both shown, and without a uid no
      button is shown. */
  lemma ButtonsAreExclusive(d: DisplayRole, uid: Option<string>)
    ensures HasUid(uid) ==> (Offered(Suspend, d, uid) <==> !Offered(Unsuspend, d, uid))
    ensures !(Offered(MakeAdmin, d, uid) && Offered(RemoveAdmin, d, uid))
    ensures !HasUid(uid) ==> forall a :: !Offered(a, d, uid)
  {
  }

  /** Only Unsuspend lifts a suspension: every other button the row of a
      suspended user shows leaves the stored suspension as it was, and
      neither Suspend nor Make Admin is shown to a suspended user. */
  lemma OnlyUnsuspendLifts(roles: RoleStore, uid: string, d: DisplayRole, a: RoleAction)
    requires d.suspended
    ensures !Offered(Suspend, d, Some(uid)) && !Offered(MakeAdmin, d, Some(uid))
    ensures Offered(a, d, Some(uid)) && a != Unsuspend ==>
              Perform(roles, uid, a)[uid].suspended == (if uid in roles then roles[uid].suspended else Unset)
  {
  }

  /** Role flags as the user's own session derives them from the stored
      record after a snapshot. */
  function SessionAfter(roles: RoleStore, user: Identity.User, s: Identity.AuthState, allowList: seq<string>): Identity.AuthState
    requires s.roleListener == Some(user)
  {
    Identity.OnRoleSnapshot(s, Lookup(roles, user.uid), allowList)
  }

  /** Suspending a user takes effect in their session at the next role
      snapshot: suspended, not admin, and turned away by both guards. */
  lemma SuspendRevokesAccess(roles: RoleStore, user: Identity.User, s: Identity.AuthState,
                             allowList: seq<string>, path: string)
    requires s.roleListener == Some(user)
    ensures
      var s' := SessionAfter(Perform(roles, user.uid, Suspend), user, s, allowList);
      && s'.isSuspended && !s'.isAdmin
      && Guards.RequireAuth(Guards.ViewOf(s'), path) == Guards.Redirect(Guards.Home, None)
      && Guards.RequireAdmin(Guards.ViewOf(s'), path) == Guards.Redirect(Guards.Home, None)
  {
  }

  /** Making a user admin takes effect in their session at the next role
      snapshot, and clears any suspension. */
  lemma MakeAdminGrants(roles: RoleStore, user: Identity.User, s: Identity.AuthState, allowList: seq<string>)
    requires s.roleListener == Some(user)
    ensures
      var s' := SessionAfter(Perform(roles, user.uid, MakeAdmin), user, s, allowList);
      s'.isAdmin && !s'.isSuspended
  {
  }

  /** Removing admin does not demote an allow-listed user: their session
      stays admin, their row still shows admin, and Remove Admin is offered
      again. */
  lemma RemoveAdminKeepsAllowListed(roles: RoleStore, users: seq<AppUser>, user: Identity.User,
                                    s: Identity.AuthState, allowList: seq<string>)
    requires s.roleListener == Some(user)
    requires Identity.IsAdminEmail(user.email, allowList)
    requires user.uid != "" && FindUser(users, user.uid).Some? && FindUser(users, user.uid).value.email == user.email
    requires user.uid !in roles || !IsTrue(roles[user.uid].suspended)
    ensures
      var roles' := Perform(roles, user.uid, RemoveAdmin);
      var d := UserRole(Some(user.uid), roles', users, allowList);
      && SessionAfter(roles', user, s, allowList).isAdmin
      && d.admin
      && Offered(RemoveAdmin, d, Some(user.uid))
  {
  }

  /** Suspend clears the stored admin flag, so unsuspending does not restore
      admin rights unless the e-mail is allow-listed. */
  lemma SuspendThenUnsuspendDropsStoredAdmin(roles: RoleStore, user: Identity.User,
                                             s: Identity.AuthState, allowList: seq<string>)
    requires s.roleListener == Some(user)
    ensures
      var roles' := Perform(Perform(roles, user.uid, Suspend), user.uid, Unsuspend);
      var s' := SessionAfter(roles', user, s, allowList);
      !s'.isSuspended && s'.isAdmin == Identity.IsAdminEmail(user.email, allowList)
  {
  }

  /** The row shows a stored admin flag even while the user is suspended,
      although the user's own session denies admin. */
  lemma DisplayDoesNotMaskAdmin(users: seq<AppUser>, user: Identity.User, s: Identity.AuthState, allowList: seq<string>)
    requires s.roleListener == Some(user) && user.uid != ""
    ensures
      var roles := map[user.uid := RoleRecord(Bool(true), Bool(true))];
      var d := UserRole(Some(user.uid), roles, users, allowList);
      d.admin && d.suspended && !SessionAfter(roles, user, s, allowList).isAdmin
  {
  }
}
