/** The `userRoles/{uid}` records of the shared store and the partial-record
    merge that every role write performs. */
module RoleRecords {
  import opened Basics

  /** What a stored field may hold. The application compares fields with
      `=== true`, so a stored `true` is the only value that switches a flag on. */
  datatype Flag = Unset | Bool(b: bool) | NonBoolean

  predicate IsTrue(f: Flag) { f == Bool(true) }

  datatype RoleRecord = RoleRecord(admin: Flag, suspended: Flag)

  /** The payload of one `update(...)` call: `None` leaves a field out. */
  datatype RolePatch = RolePatch(admin: Option<bool>, suspended: Option<bool>)

  type RoleStore = map<string, RoleRecord>

  function Patched(f: Flag, v: Option<bool>): Flag {
    match v
    case Some(b) => Bool(b)
    case None => f
  }

  /** `update(ref(db, 'userRoles/' + uid), patch)`: fields named in the
      patch are overwritten, the others keep their stored value, and a
      missing record is created holding only the patched fields. */
  function Update(roles: RoleStore, uid: string, patch: RolePatch): (r: RoleStore)
    ensures r.Keys == roles.Keys + {uid}
    ensures forall k | k in roles && k != uid :: r[k] == roles[k]
    ensures patch.admin.Some? ==> r[uid].admin == Bool(patch.admin.value)
    ensures patch.suspended.Some? ==> r[uid].suspended == Bool(patch.suspended.value)
    ensures patch.admin.None? ==> r[uid].admin == (if uid in roles then roles[uid].admin else Unset)
    ensures patch.suspended.None? ==> r[uid].suspended == (if uid in roles then roles[uid].suspended else Unset)
  {
    var prior := if uid in roles then roles[uid] else RoleRecord(Unset, Unset);
    roles[uid := RoleRecord(Patched(prior.admin, patch.admin), Patched(prior.suspended, patch.suspended))]
  }

  /** Reading `userRoles/{uid}`: a missing record reads as `null`. */
  function Lookup(roles: RoleStore, uid: string): Option<RoleRecord> {
    if uid in roles then Some(roles[uid]) else None
  }

  /** A merge that names both fields makes the stored record independent of
      what was there before. */
  lemma FullPatchOverwrites(roles1: RoleStore, roles2: RoleStore, uid: string, a: bool, s: bool)
    ensures Update(roles1, uid, RolePatch(Some(a), Some(s)))[uid]
         == Update(roles2, uid, RolePatch(Some(a), Some(s)))[uid]
  {
  }

  /** Applying the same merge twice is the same as applying it once. */
  lemma UpdateIdempotent(roles: RoleStore, uid: string, patch: RolePatch)
    ensures Update(Update(roles, uid, patch), uid, patch) == Update(roles, uid, patch)
  {
  }
}
