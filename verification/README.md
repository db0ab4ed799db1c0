# Mango storefront: session, guards, validation and order workflow

A Dafny model of the decision logic of a single-vendor mango storefront
whose pages talk directly to a hosted real-time store. The logic lives in
React components and callbacks; here it is lifted into pure functions over
immutable records:

- **Session** (`Identity`, from `src/contexts/AuthContext.tsx`): the admin
  e-mail allow-list parsed from configuration, case-insensitive e-mail
  matching, and the context state `{user, loading, isAdmin, isSuspended,
  isEmailVerified}` as a state machine driven by session changes, role
  snapshots and role-stream errors. The live role subscription is the
  `roleListener` field.
- **Route guards** (`Guards`, from `src/components/RouteGuards.tsx` and the
  route table of `src/App.tsx`): `RequireAuth` and `RequireAdmin` as total
  functions to `Wait`, `Redirect(to, from)` or `Render`.
- **Validators** (`Registration`, `Checkout`): the ordered registration
  checks (first failure wins), the phone pattern `^[6-9]\d{9}$`, the Mumbai
  pincode prefix `400`, the provider error-code mapping, and the checkout
  form and sign-in checks. `Delivery` holds the pincode check both forms
  share.
- **Order workflow** (`Orders`, `Checkout`, `AdminOrders`, `UserOrders`,
  `Lifecycle`): the store is a map from order id to an immutable `Order`.
  Checkout writes a snapshot of the cart. Accept and reject overwrite the
  status. The message thread is append-only. Lists are sorted newest first.
  The console splits its list into status tabs, and the "my orders" page
  filters by owner.
- **Role management** (`RoleRecords`, `AdminRoles`): `userRoles/{uid}`
  records, the partial-record merge each write performs, the role the
  console displays, and the four role buttons with their visibility rules.
  The console parses the allow-list exactly as the session does
  (`src/pages/AdminPage.tsx:204-214`), so both use `Identity.ParseAllowList`.
- **Translation** (`Translation`): `t(key)` with fallback to the key.

`Text` models the JavaScript string operations the code uses (`trim`,
`toLowerCase`, `split`, `startsWith`, `\d`). `Basics` holds `Option` and
`Result`.

Some behaviour of the code is easy to mistake for something tidier; the
model keeps it as the code has it:

- After a session change to a new user, the code never sets `loading` back
  to true. It also keeps the previous `isAdmin`/`isSuspended` until the new
  user's first role snapshot arrives. `Identity.DirectSwitchKeepsAdminFlag`
  shows a switch from an admin to another user that leaves `isAdmin` true
  with `loading` false.
- On logout the code clears `isAdmin` but not `isSuspended`
  (`Identity.LogoutKeepsSuspension`). As a result a suspended user who logs
  out is still sent home, not to sign-in (`Guards.SuspendedLogoutGoesHome`).
- Checkout applies no phone pattern and does not check the cart itself. The
  page redirects to `/cart` before the form is shown when the cart is empty
  (`Checkout.AnyPhoneAccepted`, `Checkout.View`).

## Model

| member | source | states |
|---|---|---|
| Text.Trim | src/contexts/AuthContext.tsx:17 | the result is the slice of the input left after cutting off white space that runs to either end: it is trimmed, only white space lies outside it, and it is empty exactly when the input is all white space |
| Text.TrimmedSlice | src/contexts/AuthContext.tsx:17 | trimming the start and then the end cuts one slice out of the input with only white space before and after it |
| Text.TrimStart | src/contexts/AuthContext.tsx:17 | the result is the suffix after the leading white space, and starts with a non-space |
| Text.TrimEnd | src/contexts/AuthContext.tsx:17 | the result is the prefix before the trailing white space, and ends with a non-space |
| Text.Lower | src/contexts/AuthContext.tsx:23 | every ASCII upper-case letter becomes its lower-case letter and every other character is kept, position by position |
| Text.LowerOfLowercase | src/contexts/AuthContext.tsx:23 | a string without upper-case letters is its own lower-case form |
| Text.LowerIdempotent | src/contexts/AuthContext.tsx:23 | lower-casing twice is lower-casing once |
| Text.Split | src/contexts/AuthContext.tsx:16 | splitting gives one more piece than there are separators, and no piece contains the separator |
| Text.JoinSplit | src/contexts/AuthContext.tsx:16 | joining the pieces of a split with the separator gives back the input |
| Text.SplitJoin | src/contexts/AuthContext.tsx:16 | splitting a join of separator-free pieces gives back the pieces |
| Identity.ParseAllowList | src/contexts/AuthContext.tsx:14-19 | every allow-list entry is non-empty, trimmed, lower-case and comma-free |
| Identity.NonEmpty | src/contexts/AuthContext.tsx:18 | the filter keeps only non-empty strings, each taken from the input |
| Identity.NonEmptyKeeps | src/contexts/AuthContext.tsx:18 | the filter drops no non-empty string |
| Identity.NormalizedPiece | src/contexts/AuthContext.tsx:17 | a configured piece normalises to a well-formed entry or to the empty string |
| Identity.IsAdminEmail | src/contexts/AuthContext.tsx:21-25 | a missing or empty e-mail is never an admin e-mail; otherwise it is one exactly when its lower-case form, untrimmed, is on the list |
| Identity.NormalEntries | src/contexts/AuthContext.tsx:14-19 | normalising comma-free pieces and dropping empty ones leaves only well-formed entries |
| Identity.AllowListMembership | src/contexts/AuthContext.tsx:14-19 | a string is on the list exactly when it is non-empty and the trimmed lower-case form of some comma-separated piece of the configuration |
| Identity.UnsetConfigListsNobody | src/contexts/AuthContext.tsx:14-25 | an unset configuration gives an empty list, so no e-mail is an admin e-mail |
| Identity.AdminEmailIgnoresCase | src/contexts/AuthContext.tsx:21-25 | two e-mails with the same lower-case form are both admin e-mails or neither |
| Identity.ConfiguredEmailIsAdmin | src/contexts/AuthContext.tsx:14-25 | an e-mail equal, up to letter case, to a non-blank configured piece after trimming is an admin e-mail |
| Identity.ListedEmailIsAdmin | src/contexts/AuthContext.tsx:21-25 | an e-mail whose lower-case form is an entry of a normalised list is an admin; an entry itself is its own lower-case form and is an admin |
| Identity.UntrimmedNotListed | src/contexts/AuthContext.tsx:21-25 | a string with white space at either end is never an entry of a normalised list |
| Identity.UntrimmedEmailNeverAdmin | src/contexts/AuthContext.tsx:21-25 | the e-mail is not trimmed before matching, so one with white space at either end never matches |
| Identity.OnAuthChanged | src/contexts/AuthContext.tsx:37-50 | a session change sets the user, mirrors `emailVerified` (false without a user), and replaces the role listener by one for the new user or none; logout clears admin and loading but keeps suspension; a new user keeps the previous flags |
| Identity.OnRoleSnapshot | src/contexts/AuthContext.tsx:54-61 | suspended is exactly a stored `true`; admin is a stored `true` or an allow-listed e-mail, and never while suspended; loading ends; without a live listener nothing changes |
| Identity.OnRoleError | src/contexts/AuthContext.tsx:62-67 | a role-stream error clears suspension, sets admin to allow-list membership alone, and ends loading |
| Identity.StepKeepsCoherent | src/contexts/AuthContext.tsx:37-67 | each event keeps the listener equal to the user, verification mirroring the session, admin and suspended never both true, and no admin without a user |
| Identity.RunKeepsCoherent | src/contexts/AuthContext.tsx:37-67 | any sequence of events keeps the state coherent |
| Identity.ReachableIsCoherent | src/contexts/AuthContext.tsx:28-67 | every state reachable from mount is coherent; in particular suspension always overrides admin |
| Identity.SuspensionOverridesAdmin | src/contexts/AuthContext.tsx:55-60 | a stored `suspended: true` gives suspended and not admin, whatever the admin field and the allow-list say |
| Identity.AllowListedAdminWithoutRecord | src/contexts/AuthContext.tsx:55-58 | an allow-listed e-mail is admin with no role record |
| Identity.LogoutKeepsSuspension | src/contexts/AuthContext.tsx:46-50 | logging out keeps a previous suspension and clears admin |
| Identity.DirectSwitchKeepsAdminFlag | src/contexts/AuthContext.tsx:37-61 | switching directly from an admin to another user leaves admin true and loading false until the new snapshot |
| Guards.RequireAuth | src/components/RouteGuards.tsx:33-37 | waits while loading; then suspension goes home without `from`; no user goes to sign-in with the path; an unverified user goes to verify-email with the path; renders exactly when not loading, not suspended, signed in and verified |
| Guards.RequireAdmin | src/components/RouteGuards.tsx:56-61 | waits while loading; then suspension goes home; no user goes to sign-in with the path; an unverified user goes to verify-email without a path; a non-admin goes home; renders exactly when all checks pass; only the sign-in redirect carries a path |
| Guards.LoadingAlwaysWaits | src/components/RouteGuards.tsx:33-56 | while loading both guards wait whatever the other flags |
| Guards.SuspensionBeforeSignIn | src/components/RouteGuards.tsx:33-58 | a suspended flag with nobody signed in redirects home in both guards |
| Guards.AdminRendersIffAuthRendersAndAdmin | src/components/RouteGuards.tsx:33-61 | the admin guard renders exactly when the signed-in guard renders and the user is admin |
| Guards.GuardsAgreeBeforeAdminCheck | src/components/RouteGuards.tsx:33-61 | when the signed-in guard does not render, the admin guard decides the same, except that its verify-email redirect has no `from` |
| Guards.GuardOf | src/App.tsx:33-56 | `/checkout` and `/orders` are wrapped in the signed-in guard and `/admin` in the admin guard, matched as the router matches them: ASCII letter case and trailing slashes ignored |
| Guards.Navigate | src/App.tsx:31-59 | unguarded routes render; `/checkout` and `/orders` give the signed-in guard's outcome and `/admin` the admin guard's, compared without letter case and trailing slashes; the admin console renders only for a signed-in, verified, unsuspended admin |
| Guards.AdminPathVariantsAreGuarded | src/App.tsx:49-56 | `/Admin`, `/admin/` and `/ADMIN//` reach the admin guard |
| Guards.AdminConsoleNeedsAdmin | src/components/RouteGuards.tsx:56-61 | in every reachable session state, the admin console renders only when a user with a verified e-mail is signed in and the session's `isAdmin` flag is set and `isSuspended` clear; that flag may still be a previous user's after a direct switch (`Identity.DirectSwitchKeepsAdminFlag`) |
| Guards.MountWaits | src/contexts/AuthContext.tsx:28-32 | before any session event both guards wait |
| Guards.SuspendedLogoutGoesHome | src/components/RouteGuards.tsx:33-35 | after a suspended user logs out, the signed-in guard redirects home |
| Registration.Validate | src/pages/AuthPage.tsx:160-185 | no error exactly when every check passes; otherwise the reported check fails and every earlier check passes |
| Registration.PincodePrefixOnly | src/pages/AuthPage.tsx:177-180 | only the "400" prefix is checked, not length or digits |
| Registration.EmptyConfirmationIsMismatch | src/pages/AuthPage.tsx:161-170 | the confirmation is not a required field: an empty one is reported as a mismatch |
| Registration.SampleFormIsValid | src/pages/AuthPage.tsx:160-185 | a complete sample form with phone 9876543210 and pincode 400050 passes every check |
| Registration.ErrorMessage | src/pages/AuthPage.tsx:220-222 | a flow shows its specific message exactly for its recognised code, and its generic message for any other code |
| Registration.FlowsDoNotShareMessages | src/pages/AuthPage.tsx:93-150 | the flows' messages are distinct, and a code recognised by one flow gets another flow's generic message |
| Registration.RegisterAccount | src/pages/AuthPage.tsx:157-211 | a failed check or a provider refusal writes nothing; success pushes the profile and merges `{admin:false, suspended:false}` into the new uid's role record, leaving other users' records unchanged |
| Registration.NewAccountRole | src/pages/AuthPage.tsx:207-211 | a new account is, at its first role snapshot, not suspended and admin only if allow-listed |
| Checkout.ValidateForm | src/pages/CheckoutPage.tsx:44-53 | missing name, phone, address or pincode is reported first; then a pincode without the "400" prefix; notes are optional |
| Checkout.ItemsOf | src/pages/CheckoutPage.tsx:70-77 | one item per cart line, in cart order, copying id, names, price, quantity and weight |
| Checkout.NewOrder | src/pages/CheckoutPage.tsx:64-82 | the order belongs to the session uid, is pending with no messages, carries the form plus the session e-mail, copies the cart lines and the total |
| Checkout.Submit | src/pages/CheckoutPage.tsx:41-99 | form failures and a missing user (sent to `/auth` from `/checkout`) write nothing; a successful write adds the order under the new id and empties the cart; a failed write changes nothing |
| Checkout.View | src/pages/CheckoutPage.tsx:102-165 | without success the page redirects to the cart exactly when the cart is empty |
| Checkout.PlacedOrderShowsSuccess | src/pages/CheckoutPage.tsx:84-102 | a placed order empties the cart, so the page shows the confirmation only because the success check comes before the empty-cart redirect |
| Checkout.FailedWriteKeepsForm | src/pages/CheckoutPage.tsx:94-165 | a failed write keeps a non-empty cart, so the form stays on screen |
| Checkout.CopiedItemsKeepTotal | src/pages/CheckoutPage.tsx:70-78 | the copied items add up to the same priced sum as the cart |
| Checkout.PlacedOrderTotalMatchesItems | src/pages/CheckoutPage.tsx:70-78 | when the cart total is its priced sum, the order's total equals the sum of its items |
| Checkout.OutsidePincodeWritesNothing | src/pages/CheckoutPage.tsx:49-53 | pincode 110001 is refused with no write |
| Checkout.AnyPhoneAccepted | src/pages/CheckoutPage.tsx:44-53 | any non-empty phone text passes checkout |
| Checkout.PlacingAddsOnePendingOrder | src/pages/CheckoutPage.tsx:63-89 | a placed order under a fresh id adds exactly one pending order and leaves the others unchanged |
| Orders.Insert | src/pages/AdminPage.tsx:89-91 | inserting into a newest-first list keeps it newest first and adds exactly the entry |
| Orders.SortNewestFirst | src/pages/AdminPage.tsx:89-91 | the result is newest first and is a permutation of the input |
| Orders.SortKeepsMembers | src/pages/UserOrdersPage.tsx:62 | sorting keeps exactly the given entries |
| Orders.SortSortedIsIdentity | src/pages/AdminPage.tsx:89-91 | sorting a list that is already newest first leaves it unchanged |
| Orders.SortIdempotent | src/pages/AdminPage.tsx:89-91 | sorting twice is sorting once |
| AdminOrders.SetStatus | src/pages/AdminPage.tsx:138-166 | only the named order's status changes, whatever it was; all other orders and fields are unchanged |
| AdminOrders.Accept | src/pages/AdminPage.tsx:138-151 | accepting sets the order's status to `confirmed` and changes nothing else |
| AdminOrders.Reject | src/pages/AdminPage.tsx:153-166 | rejecting sets the order's status to `rejected` and changes nothing else |
| AdminOrders.LastDecisionWins | src/pages/AdminPage.tsx:138-166 | accepting a rejected order confirms it and vice versa; the last decision wins |
| AdminOrders.SendMessage | src/pages/AdminPage.tsx:168-187 | a blank message is refused with no write; otherwise the trimmed text is appended as an admin message after the unchanged thread, and nothing else changes |
| AdminOrders.Apply | src/pages/AdminPage.tsx:138-187 | an admin action keeps the set of order ids |
| AdminOrders.ApplyAll | src/pages/AdminPage.tsx:138-187 | any sequence of admin actions keeps the set of order ids |
| AdminOrders.ApplyGrows | src/pages/AdminPage.tsx:138-187 | one action changes at most status and the end of a thread |
| AdminOrders.GrowTransitive | src/pages/AdminPage.tsx:176-187 | thread growth composes |
| AdminOrders.ThreadIsAppendOnly | src/pages/AdminPage.tsx:176-187 | across any admin actions, owner, customer, items, total and creation time never change, and each thread keeps its earlier messages as a prefix |
| AdminOrders.ApplyOffered | src/pages/AdminPage.tsx:316-411 | an action whose control the card does not render (a decision on an order that is not pending, a message on one that is neither confirmed nor rejected) changes nothing; on a pending order Accept confirms and Reject rejects; other orders are unchanged |
| AdminOrders.PendingOrderTakesNoMessage | src/pages/AdminPage.tsx:401-411 | while no decision is taken, a pending order stays exactly as it was under any offered messages |
| AdminOrders.ApplyAllOffered | src/pages/AdminPage.tsx:316-355 | offered actions keep the set of order ids |
| AdminOrders.OfferedThreadIsAppendOnly | src/pages/AdminPage.tsx:176-187 | with only offered actions, threads stay append-only and the fixed fields never change |
| AdminOrders.OfferedDecisionsAreFinal | src/pages/AdminPage.tsx:316-355 | when decisions are issued only where the console renders the buttons, an order that is no longer pending keeps its status through any later actions |
| AdminOrders.AdminOrderList | src/pages/AdminPage.tsx:81-95 | a missing snapshot lists nothing; otherwise the snapshot's entries newest first |
| AdminOrders.Bucket | src/pages/AdminPage.tsx:200-202 | a tab holds exactly the list's entries with that status, each as often as in the list |
| AdminOrders.BucketKeepsOrder | src/pages/AdminPage.tsx:200-202 | a tab of a newest-first list is newest first |
| AdminOrders.BucketsSize | src/pages/AdminPage.tsx:200-202 | the three tabs together hold no more orders than the list |
| AdminOrders.BucketKeepsRelativeOrder | src/pages/AdminPage.tsx:200-202 | a tab is a subsequence of the list it filters: orders keep their relative order |
| AdminOrders.TabsPartition | src/pages/AdminPage.tsx:200-202 | a listed order with one of the three statuses is in exactly that tab; each tab keeps the list's relative order and is newest first |
| UserOrders.OwnedBy | src/pages/UserOrdersPage.tsx:56-61 | the filter keeps exactly the entries whose owner equals the uid, each as often as in the input |
| UserOrders.MyOrders | src/pages/UserOrdersPage.tsx:47-66 | no subscription without a user; an empty snapshot lists nothing; the list is newest first |
| UserOrders.MyOrdersExact | src/pages/UserOrdersPage.tsx:56-62 | the page shows an entry exactly when it is in the snapshot and owned by the user |
| UserOrders.BadgeOf | src/pages/UserOrdersPage.tsx:78-98 | `confirmed` and `rejected` get their own badge; any other status shows as pending |
| UserOrders.StatusColor | src/pages/UserOrdersPage.tsx:78-87 | green exactly for `confirmed`, red exactly for `rejected`, yellow for any other status |
| UserOrders.StatusLabel | src/pages/UserOrdersPage.tsx:89-98 | in either language the confirmed label exactly for `confirmed`, the rejected label exactly for `rejected`, the pending label otherwise |
| UserOrders.BadgeConsistency | src/pages/UserOrdersPage.tsx:78-98 | colour and label pick the same badge, and an unknown status looks like a pending one |
| Translation.T | src/contexts/LanguageContext.tsx:159-161 | a non-empty entry is returned; a missing or empty entry gives the key |
| Translation.LookupEmptyOnlyForEmptyKey | src/contexts/LanguageContext.tsx:159-161 | the lookup gives the key or a table value, and is empty only for the empty key |
| Translation.SampleLookups | src/contexts/LanguageContext.tsx:157-161 | the initial language is English, and known, unknown and empty entries resolve as described |
| RoleRecords.Update | src/pages/AdminPage.tsx:226-229 | a merge overwrites the named fields, keeps the others (unset for a new record), and leaves other users' records alone |
| RoleRecords.FullPatchOverwrites | src/pages/AuthPage.tsx:208-211 | a merge naming both fields makes the record independent of what was stored |
| RoleRecords.UpdateIdempotent | src/pages/AdminPage.tsx:226-229 | pressing the same role button twice is pressing it once |
| AdminRoles.FindUser | src/pages/AdminPage.tsx:219 | the result is the first user with that uid, or none when no user has it |
| AdminRoles.UserRole | src/pages/AdminPage.tsx:216-224 | without a uid both flags are false; otherwise suspended is a stored `true` and admin is a stored `true` or the listed e-mail being allow-listed |
| AdminRoles.Payload | src/pages/AdminPage.tsx:583-625 | every button writes at least one field; a write granting admin also clears suspension, and one suspending also clears admin |
| AdminRoles.Offered | src/pages/AdminPage.tsx:583-625 | with a uid, Make Admin is shown exactly when the row is neither admin nor suspended, Remove Admin exactly for an admin, Suspend exactly when not suspended and Unsuspend exactly when suspended; without a uid nothing is shown; a shown button always writes a value different from what the row displays |
| AdminRoles.OnlyUnsuspendLifts | src/pages/AdminPage.tsx:583-625 | for a suspended row neither Suspend nor Make Admin is shown, and every shown button other than Unsuspend leaves the stored suspension as it was |
| AdminRoles.Perform | src/pages/AdminPage.tsx:583-625 | Make Admin stores admin and unsuspended; Suspend stores suspended and not admin; Remove Admin and Unsuspend clear one field and keep the other |
| AdminRoles.ButtonsAreExclusive | src/pages/AdminPage.tsx:583-625 | with a uid exactly one of Suspend and Unsuspend is shown; Make Admin and Remove Admin are never both shown; without a uid no button is shown |
| AdminRoles.SuspendRevokesAccess | src/pages/AdminPage.tsx:604-613 | after Suspend the user's session is suspended and not admin, and both guards redirect home |
| AdminRoles.MakeAdminGrants | src/pages/AdminPage.tsx:583-591 | after Make Admin the user's session is admin and not suspended |
| AdminRoles.RemoveAdminKeepsAllowListed | src/pages/AdminPage.tsx:593-602 | Remove Admin does not demote an allow-listed user, whose row keeps offering Remove Admin |
| AdminRoles.SuspendThenUnsuspendDropsStoredAdmin | src/pages/AdminPage.tsx:604-625 | suspending then unsuspending leaves admin only for an allow-listed e-mail |
| AdminRoles.DisplayDoesNotMaskAdmin | src/pages/AdminPage.tsx:216-224 | a stored admin that is suspended shows as admin and suspended in the console, while the user's own session denies admin |
| Lifecycle.PlacedOrderIsListed | src/pages/CheckoutPage.tsx:64-86 | a placed order appears in its owner's list and in the console's pending tab |
| Lifecycle.AcceptedOrderShowsConfirmed | src/pages/AdminPage.tsx:138-151 | an accepted order shows as confirmed to its owner, and moves from the pending tab to the confirmed tab |

## Left out

- Store and provider I/O: `push`, `update`, `onValue`, query ordering, the
  `limitToLast(50)` window of the console's query, and the configuration
  loading in `src/lib/firebase.ts`. The store is an in-memory map and a
  write is a record merge. For checkout and registration, whether the write
  succeeds is an input. For the admin's order and role actions
  (`AdminOrders`, `AdminRoles.Perform`), a failed write is the action not
  taken, that is, the action missing from the sequence.
- Asynchrony: callback timing, interleaved or concurrent writes, and
  last-write-wins between admins.
- Side effects: toasts (including the guards' notification effects),
  navigation after success, `setTimeout`, `localStorage`/`prompt`, and
  sending the verification e-mail. The e-mail-link and Google sign-in flows
  are left out too; only their error-code mapping is modelled.
- The cart store (`src/contexts/CartContext.tsx` is not part of this
  model). Checkout takes the cart lines and `totalPrice` as inputs.
- `src/pages/VerifyEmailPage.tsx`, whose redirects depend on the provider
  reloading the user.
- Presentational components, the catalog contents and the translation
  strings. Only a sample of the table is used, as a fixture.
- Date parsing and formatting: `createdAt` and message timestamps are
  integers, so invalid date strings (which compare as NaN) are not modelled.
- Error and message texts: messages are enumerated (`FailureMessage`,
  `RegisterError`, `CheckoutError`), not spelled out in both languages.
- The console's order-card badge (clock and "pending" for anything not
  confirmed), which is presentation.
- Guards.GuardOf: only letter case and trailing slashes are normalised as
  the router does; percent-decoding of the location and other path forms
  the router accepts are not modelled.
- Translation.T: keys inherited from `Object.prototype` (such as
  `constructor` or `toString`) are not modelled; they would return an
  inherited non-string value, but every call site passes a literal table
  key.
- Text.Lower: only ASCII letters are lower-cased; `toLowerCase` also maps
  other Unicode letters.
- Registration.Validate: the password length counts Unicode code points,
  whereas JavaScript counts UTF-16 code units; the two differ only for
  characters outside the Basic Multilingual Plane.
- Orders.SortNewestFirst: stability (orders with equal creation times keep
  their snapshot order) is not stated.
- AdminOrders.SetStatus: writes to an order id that is not in the store are
  not modelled. The handlers are only called from a rendered order card.
- AdminOrders.SendMessage: the thread is read from the store rather than
  from the page's possibly stale snapshot. The same applies to writes for
  missing ids.
- Registration.RegisterAccount: a failure of the profile push, the role
  write or the verification e-mail after the account was created is not
  modelled.
- RoleRecords.Update: a role record stored as something other than an
  object is not modelled. A field may hold `true`, `false`, nothing, or
  another value.
