/** The session view of the authentication context: the admin e-mail
    allow-list, and the state `{user, loading, isAdmin, isSuspended,
    isEmailVerified}` re-derived on every session change and every snapshot
    of the signed-in user's role record. */
module Identity {
  import opened Basics
  import opened Text
  import opened RoleRecords

  /** One allow-list entry as the configuration is normalised: trimmed, then
      lower-cased. */
  function Normalize(entry: string): string {
    Lower(Trim(entry))
  }

  /** What every entry of a parsed allow-list looks like. */
  predicate IsNormalEntry(e: string) {
    e != "" && IsTrimmed(e) && IsLowercase(e) && ',' !in e
  }

  /** Keeps the non-empty strings of `xs`, in order (`filter(Boolean)`). */
  function NonEmpty(xs: seq<string>): (r: seq<string>)
    ensures forall k | 0 <= k < |r| :: r[k] != "" && r[k] in xs
  {
    if |xs| == 0 then []
    else
      var rest := NonEmpty(xs[1..]);
      if xs[0] == "" then rest else [xs[0]] + rest
  }

  /** `NonEmpty` drops only empty strings. */
  lemma {:induction false} NonEmptyKeeps(xs: seq<string>, x: string)
    requires x in xs && x != ""
    ensures x in NonEmpty(xs)
  {
    if xs[0] != x {
      NonEmptyKeeps(xs[1..], x);
    }
  }

  /** Each piece normalised, in order. */
  function NormalizeEach(pieces: seq<string>): (r: seq<string>)
    ensures |r| == |pieces|
    ensures forall i | 0 <= i < |pieces| :: r[i] == Normalize(pieces[i])
  {
    seq(|pieces|, i requires 0 <= i < |pieces| => Normalize(pieces[i]))
  }

  /** The allow-list: the configured text (empty when unset) split on commas,
      each piece trimmed and lower-cased, empty pieces dropped. */
  function ParseAllowList(config: Option<string>): (r: seq<string>)
    ensures forall k | 0 <= k < |r| :: IsNormalEntry(r[k])
  {
    var pieces := Split(config.GetOr(""), ',');
    NormalEntries(pieces);
    NonEmpty(NormalizeEach(pieces))
  }

  /** Normalising comma-free pieces and dropping the empty ones leaves only
      well-formed entries. */
  lemma NormalEntries(pieces: seq<string>)
    requires forall k | 0 <= k < |pieces| :: ',' !in pieces[k]
    ensures forall k | 0 <= k < |NonEmpty(NormalizeEach(pieces))| :: IsNormalEntry(NonEmpty(NormalizeEach(pieces))[k])
  {
    var r := NonEmpty(NormalizeEach(pieces));
    forall k | 0 <= k < |r| ensures IsNormalEntry(r[k]) {
      EntryFromPiece(pieces, r[k]);
    }
  }

  lemma EntryFromPiece(pieces: seq<string>, x: string)
    requires forall k | 0 <= k < |pieces| :: ',' !in pieces[k]
    ensures x in NormalizeEach(pieces) && x != "" ==> IsNormalEntry(x)
  {
    if x in NormalizeEach(pieces) && x != "" {
      var i :| 0 <= i < |pieces| && NormalizeEach(pieces)[i] == x;
      NormalizedPiece(pieces[i]);
    }
  }

  /** A name is on the allow-list exactly when it is the trimmed, lower-case,
      non-empty form of one comma-separated piece of the configuration. */
  lemma AllowListMembership(config: Option<string>, e: string)
    ensures e in ParseAllowList(config) <==>
            e != "" && exists p :: p in Split(config.GetOr(""), ',') && Normalize(p) == e
  {
    var pieces := Split(config.GetOr(""), ',');
    assert ParseAllowList(config) == NonEmpty(NormalizeEach(pieces));
    ListedComesFromPiece(pieces, e);
    if e != "" && exists p :: p in pieces && Normalize(p) == e {
      var p :| p in pieces && Normalize(p) == e;
      PieceIsListed(pieces, p);
    }
  }

  lemma ListedComesFromPiece(pieces: seq<string>, e: string)
    ensures e in NonEmpty(NormalizeEach(pieces)) ==> e != "" && exists p :: p in pieces && Normalize(p) == e
  {
    var normals := NormalizeEach(pieces);
    if e in NonEmpty(normals) {
      var i :| 0 <= i < |normals| && normals[i] == e;
      assert pieces[i] in pieces && Normalize(pieces[i]) == e;
    }
  }

  lemma PieceIsListed(pieces: seq<string>, p: string)
    ensures p in pieces && Normalize(p) != "" ==> Normalize(p) in NonEmpty(NormalizeEach(pieces))
  {
    if p in pieces && Normalize(p) != "" {
      var normals := NormalizeEach(pieces);
      var i :| 0 <= i < |pieces| && pieces[i] == p;
      assert normals[i] == Normalize(p);
      NonEmptyKeeps(normals, Normalize(p));
    }
  }

  /** A comma-free piece normalises to a well-formed entry or to nothing. */
  lemma NormalizedPiece(p: string)
    requires ',' !in p
    ensures Normalize(p) != "" ==> IsNormalEntry(Normalize(p))
  {
    LowerKeepsTrimmed(Trim(p));
    TrimKeepsComma(p);
    LowerKeepsComma(Trim(p));
  }

  /** An e-mail is an admin e-mail when it is present, non-empty, and its
      lower-case form is on the list. The e-mail itself is not trimmed. */
  function IsAdminEmail(email: Option<string>, allowList: seq<string>): (r: bool)
    ensures email.None? || email == Some("") ==> !r
    ensures email.Some? && email.value != "" ==> (r <==> Lower(email.value) in allowList)
  {
    email.Some? && email.value != "" && Lower(email.value) in allowList
  }

  /** Matching ignores letter case. */
  lemma AdminEmailIgnoresCase(e: string, f: string, allowList: seq<string>)
    requires Lower(e) == Lower(f)
    ensures IsAdminEmail(Some(e), allowList) == IsAdminEmail(Some(f), allowList)
  {
    assert |e| == |Lower(e)| == |f|;
  }

  /** An unset or empty configuration lists nobody. */
  lemma UnsetConfigListsNobody(email: Option<string>)
    ensures ParseAllowList(None) == []
    ensures !IsAdminEmail(email, ParseAllowList(None))
  {
    var pieces := Split("", ',');
    assert pieces == [""];
    var normals := NormalizeEach(pieces);
    assert normals == [Lower(Trim(""))] == [""];
    assert NonEmpty(normals) == NonEmpty(normals[1..]) == [];
  }

  /** Every non-blank configured piece admits the e-mail written there, in
      any letter case. */
  lemma ConfiguredEmailIsAdmin(config: string, p: string, email: string)
    ensures p in Split(config, ',') && Trim(p) != "" && Lower(email) == Normalize(p) ==>
              IsAdminEmail(Some(email), ParseAllowList(Some(config)))
  {
    if p in Split(config, ',') && Trim(p) != "" && Lower(email) == Normalize(p) {
      assert |Lower(email)| == |Trim(p)|;
      AllowListMembership(Some(config), Lower(email));
    }
  }

  /** Every entry of the list, written as an e-mail in any letter case,
      is recognised: entries are already lower-case, so lower-casing them
      again gives them back. */
  lemma ListedEmailIsAdmin(email: string, allowList: seq<string>)
    requires forall k | 0 <= k < |allowList| :: IsNormalEntry(allowList[k])
    ensures Lower(email) in allowList ==> IsAdminEmail(Some(email), allowList)
    ensures email in allowList ==> Lower(email) == email && IsAdminEmail(Some(email), allowList)
  {
    if email in allowList {
      LowerOfLowercase(email);
    }
  }

  /** The e-mail is compared untrimmed against trimmed entries, so an e-mail
      with white space at either end never matches. */
  lemma UntrimmedEmailNeverAdmin(email: string, config: Option<string>)
    requires !IsTrimmed(email)
    ensures !IsAdminEmail(Some(email), ParseAllowList(config))
  {
    LowerKeepsSpace(email, 0);
    LowerKeepsSpace(email, |email| - 1);
    UntrimmedNotListed(Lower(email), ParseAllowList(config));
  }

  lemma UntrimmedNotListed(x: string, list: seq<string>)
    requires forall k | 0 <= k < |list| :: IsNormalEntry(list[k])
    requires !IsTrimmed(x)
    ensures x !in list
  {
    assert forall k | 0 <= k < |list| :: list[k] != x;
  }

  // ---------------------------------------------------------------------
  // Session state

  /** The part of the provider's session object the application reads. */
  datatype User = User(uid: string, email: Option<string>, emailVerified: bool)

  /** The context value, plus the user whose role record is currently being
      listened to (`roleListener`), standing for the live role subscription. */
  datatype AuthState = AuthState(
    user: Option<User>,
    loading: bool,
    isAdmin: bool,
    isSuspended: bool,
    isEmailVerified: bool,
    roleListener: Option<User>)

  /** The state the provider mounts with. */
  const Initial := AuthState(None, true, false, false, false, None)

  datatype Event =
    | AuthChanged(next: Option<User>)        // the session stream fired
    | RoleSnapshot(record: Option<RoleRecord>) // the live role listener fired
    | RoleStreamError                        // the live role listener failed

  /** A session change: the user and verification flag follow the session,
      the previous role listener is cancelled, and either the admin flag is
      cleared (logout) or a listener for the new user is opened. */
  function OnAuthChanged(s: AuthState, next: Option<User>): (r: AuthState)
    ensures r.user == next && r.roleListener == next
    ensures r.isEmailVerified == (next.Some? && next.value.emailVerified)
    ensures next.None? ==> !r.isAdmin && !r.loading && r.isSuspended == s.isSuspended
    ensures next.Some? ==> r.isAdmin == s.isAdmin && r.isSuspended == s.isSuspended && r.loading == s.loading
  {
    var verified := next.Some? && next.value.emailVerified;
    match next
    case None =>
      s.(user := None, isEmailVerified := verified, roleListener := None, isAdmin := false, loading := false)
    case Some(u) =>
      s.(user := next, isEmailVerified := verified, roleListener := next)
  }

  /** A role snapshot for the listened-to user. Suspension is a stored `true`
      and nothing else; admin is a stored `true` or an allow-listed e-mail,
      and never while suspended. With no live listener nothing fires. */
  function OnRoleSnapshot(s: AuthState, record: Option<RoleRecord>, allowList: seq<string>): (r: AuthState)
    ensures s.roleListener.None? ==> r == s
    ensures s.roleListener.Some? ==>
      && r.isSuspended == (record.Some? && IsTrue(record.value.suspended))
      && r.isAdmin == (!r.isSuspended &&
                       ((record.Some? && IsTrue(record.value.admin))
                        || IsAdminEmail(s.roleListener.value.email, allowList)))
      && !r.loading
      && r.user == s.user && r.roleListener == s.roleListener
      && r.isEmailVerified == s.isEmailVerified
  {
    match s.roleListener
    case None => s
    case Some(u) =>
      var suspended := record.Some? && IsTrue(record.value.suspended);
      var adminFromDb := record.Some? && IsTrue(record.value.admin) && !suspended;
      s.(isSuspended := suspended,
         isAdmin := (adminFromDb || IsAdminEmail(u.email, allowList)) && !suspended,
         loading := false)
  }

  /** A failure of the role stream: fall back to the allow-list alone and
      treat the user as not suspended. */
  function OnRoleError(s: AuthState, allowList: seq<string>): (r: AuthState)
    ensures s.roleListener.None? ==> r == s
    ensures s.roleListener.Some? ==>
      && !r.isSuspended
      && r.isAdmin == IsAdminEmail(s.roleListener.value.email, allowList)
      && !r.loading
      && r.user == s.user && r.roleListener == s.roleListener
      && r.isEmailVerified == s.isEmailVerified
  {
    match s.roleListener
    case None => s
    case Some(u) => s.(isSuspended := false, isAdmin := IsAdminEmail(u.email, allowList), loading := false)
  }

  function Step(s: AuthState, e: Event, allowList: seq<string>): AuthState {
    match e
    case AuthChanged(next) => OnAuthChanged(s, next)
    case RoleSnapshot(record) => OnRoleSnapshot(s, record, allowList)
    case RoleStreamError => OnRoleError(s, allowList)
  }

  function Run(s: AuthState, events: seq<Event>, allowList: seq<string>): AuthState
    decreases |events|
  {
    if |events| == 0 then s else Run(Step(s, events[0], allowList), events[1..], allowList)
  }

  /** What holds of every state the context can reach: at most one role
      listener is live and it belongs to the current user; the verification
      flag mirrors the session; nobody is admin and suspended at once; and
      with no user there is no admin. */
  ghost predicate Coherent(s: AuthState) {
    && s.roleListener == s.user
    && s.isEmailVerified == (s.user.Some? && s.user.value.emailVerified)
    && !(s.isAdmin && s.isSuspended)
    && (s.user.None? ==> !s.isAdmin)
  }

  lemma StepKeepsCoherent(s: AuthState, e: Event, allowList: seq<string>)
    requires Coherent(s)
    ensures Coherent(Step(s, e, allowList))
  {
  }

  lemma {:induction false} RunKeepsCoherent(s: AuthState, events: seq<Event>, allowList: seq<string>)
    requires Coherent(s)
    ensures Coherent(Run(s, events, allowList))
    decreases |events|
  {
    if |events| > 0 {
      StepKeepsCoherent(s, events[0], allowList);
      RunKeepsCoherent(Step(s, events[0], allowList), events[1..], allowList);
    }
  }

  /** From mount onwards, whatever the session and role streams deliver, the
      context is coherent: in particular suspension always overrides admin. */
  lemma ReachableIsCoherent(events: seq<Event>, allowList: seq<string>)
    ensures Coherent(Run(Initial, events, allowList))
  {
    RunKeepsCoherent(Initial, events, allowList);
  }

  /** A stored `suspended: true` denies admin even with a stored `admin: true`
      and an allow-listed e-mail. */
  lemma SuspensionOverridesAdmin(s: AuthState, record: RoleRecord, allowList: seq<string>)
    requires s.roleListener.Some?
    requires IsTrue(record.suspended)
    ensures OnRoleSnapshot(s, Some(record), allowList).isSuspended
    ensures !OnRoleSnapshot(s, Some(record), allowList).isAdmin
  {
  }

  /** An allow-listed e-mail is admin with no role record at all. */
  lemma AllowListedAdminWithoutRecord(s: AuthState, allowList: seq<string>)
    requires s.roleListener.Some? && IsAdminEmail(s.roleListener.value.email, allowList)
    ensures OnRoleSnapshot(s, None, allowList).isAdmin
  {
  }

  /** Logging out keeps the previous suspension flag. */
  lemma LogoutKeepsSuspension(s: AuthState)
    requires s.isSuspended
    ensures OnAuthChanged(s, None).isSuspended
    ensures !OnAuthChanged(s, None).isAdmin
  {
  }

  /** Switching straight from one signed-in user to another keeps the
      previous user's admin flag, with `loading` already false, until the new
      user's first role snapshot arrives. */
  lemma DirectSwitchKeepsAdminFlag(a: User, b: User, allowList: seq<string>)
    ensures
      var s := Run(Initial, [AuthChanged(Some(a)), RoleSnapshot(Some(RoleRecord(Bool(true), Unset))),
                             AuthChanged(Some(b))], allowList);
      s.user == Some(b) && s.isAdmin && !s.loading
  {
    var s1 := Step(Initial, AuthChanged(Some(a)), allowList);
    var s2 := Step(s1, RoleSnapshot(Some(RoleRecord(Bool(true), Unset))), allowList);
    var s3 := Step(s2, AuthChanged(Some(b)), allowList);
    var evs := [AuthChanged(Some(a)), RoleSnapshot(Some(RoleRecord(Bool(true), Unset))), AuthChanged(Some(b))];
    assert evs[1..][1..] == [AuthChanged(Some(b))];
    assert Run(s3, [], allowList) == s3;
    assert Run(s2, [AuthChanged(Some(b))], allowList) == s3;
    assert Run(Initial, evs, allowList) == Run(s1, evs[1..], allowList) == Run(s2, evs[1..][1..], allowList);
  }
}
