/** The sign-in page: the registration checks, what a successful
    registration writes, and the mapping of provider error codes to the
    messages shown. */
module Registration {
  import opened Basics
  import opened Text
  import opened RoleRecords
  import opened Delivery
  import Identity

  const MinPasswordLength := 6

  datatype RegisterForm = RegisterForm(
    name: string, email: string, phone: string, address: string, pincode: string,
    password: string, confirmPassword: string)

  /** The registration checks, in the order they run. */
  datatype RegisterError = MissingField | PasswordMismatch | PasswordTooShort | PincodeOutsideArea | InvalidPhone

  function Rank(e: RegisterError): nat {
    match e
    case MissingField => 0
    case PasswordMismatch => 1
    case PasswordTooShort => 2
    case PincodeOutsideArea => 3
    case InvalidPhone => 4
  }

  /** `^[6-9]\d{9}$`: ten ASCII digits, the first between 6 and 9. */
  predicate IsMobileNumber(p: string) {
    |p| == 10 && '6' <= p[0] <= '9' && forall i | 1 <= i < |p| :: IsDigit(p[i])
  }

  /** Whether the form fails check `e`, taken on its own. The confirmation
      field is not among the required ones. */
  predicate Fails(f: RegisterForm, e: RegisterError) {
    match e
    case MissingField =>
      f.name == "" || f.email == "" || f.phone == "" || f.address == "" || f.pincode == "" || f.password == ""
    case PasswordMismatch => f.password != f.confirmPassword
    case PasswordTooShort => |f.password| < MinPasswordLength
    case PincodeOutsideArea => !InDeliveryArea(f.pincode)
    case InvalidPhone => !IsMobileNumber(f.phone)
  }

  /** `handleRegister`'s checks: the first failing check, in order, decides
      the message; `None` lets the registration proceed. */
  function Validate(f: RegisterForm): (r: Option<RegisterError>)
    ensures r.None? <==> forall e :: !Fails(f, e)
    ensures r.Some? ==> Fails(f, r.value) && forall e | Rank(e) < Rank(r.value) :: !Fails(f, e)
  {
    if Fails(f, MissingField) then Some(MissingField)
    else if Fails(f, PasswordMismatch) then Some(PasswordMismatch)
    else if Fails(f, PasswordTooShort) then Some(PasswordTooShort)
    else if Fails(f, PincodeOutsideArea) then Some(PincodeOutsideArea)
    else if Fails(f, InvalidPhone) then Some(InvalidPhone)
    else None
  }

  /** The pincode check looks at the prefix only: "400" alone and "400abc"
      pass it, "4001" is not refused for its length. */
  lemma PincodePrefixOnly()
    ensures !Fails(RegisterForm("", "", "", "", "400", "", ""), PincodeOutsideArea)
    ensures !Fails(RegisterForm("", "", "", "", "400abc", "", ""), PincodeOutsideArea)
    ensures Fails(RegisterForm("", "", "", "", "110001", "", ""), PincodeOutsideArea)
  {
    assert "110001"[0] != MumbaiPrefix[0];
  }

  /** An empty confirmation is reported as a mismatch, not as a missing field. */
  lemma EmptyConfirmationIsMismatch(f: RegisterForm)
    requires f.name != "" && f.email != "" && f.phone != "" && f.address != ""
    requires f.pincode != "" && f.password != "" && f.confirmPassword == ""
    ensures Validate(f) == Some(PasswordMismatch)
  {
  }

  /** A complete sample registration, with phone 9876543210 and pincode
      400050, passes every check. */
  lemma SampleFormIsValid()
    ensures Validate(RegisterForm("Asha", "asha@example.com", "9876543210", "Dadar", "400050", "secret1", "secret1")).None?
  {
    assert IsMobileNumber("9876543210");
    assert InDeliveryArea("400050");
  }

  // ---------------------------------------------------------------------
  // Provider errors

  /** The four flows of the page that report provider errors. */
  datatype AuthFlow = PasswordLogin | EmailLinkSend | GooglePopup | Register

  /** The messages a provider error can produce (each has an English and a
      Marathi text). */
  datatype FailureMessage =
    | InvalidEmailOrPassword | LoginFailed
    | InvalidEmail | LinkSendFailed
    | SignInCancelled | GoogleSignInFailed
    | EmailAlreadyInUse | RegistrationFailed

  /** The one provider code each flow recognises. */
  function RecognisedCode(flow: AuthFlow): string {
    match flow
    case PasswordLogin => "auth/invalid-credential"
    case EmailLinkSend => "auth/invalid-email"
    case GooglePopup => "auth/popup-closed-by-user"
    case Register => "auth/email-already-in-use"
  }

  function SpecificMessage(flow: AuthFlow): FailureMessage {
    match flow
    case PasswordLogin => InvalidEmailOrPassword
    case EmailLinkSend => InvalidEmail
    case GooglePopup => SignInCancelled
    case Register => EmailAlreadyInUse
  }

  function GenericMessage(flow: AuthFlow): FailureMessage {
    match flow
    case PasswordLogin => LoginFailed
    case EmailLinkSend => LinkSendFailed
    case GooglePopup => GoogleSignInFailed
    case Register => RegistrationFailed
  }

  /** The message a failed flow shows for a provider error code. */
  function ErrorMessage(flow: AuthFlow, code: string): (m: FailureMessage)
    ensures m == SpecificMessage(flow) <==> code == RecognisedCode(flow)
    ensures m == GenericMessage(flow) <==> code != RecognisedCode(flow)
  {
    if code == RecognisedCode(flow) then SpecificMessage(flow) else GenericMessage(flow)
  }

  /** Each flow has its own messages, and each recognises only its own code:
      a code recognised by another flow gets the generic message. */
  lemma FlowsDoNotShareMessages(f1: AuthFlow, f2: AuthFlow, c1: string, c2: string)
    requires f1 != f2
    ensures ErrorMessage(f1, c1) != ErrorMessage(f2, c2)
    ensures ErrorMessage(f1, RecognisedCode(f2)) == GenericMessage(f1)
  {
  }

  // ---------------------------------------------------------------------
  // What registration writes

  /** A `users` profile entry. */
  datatype Profile = Profile(
    uid: string, name: string, email: string, phone: string, address: string, pincode: string,
    createdAt: int)

  datatype Accounts = Accounts(profiles: map<string, Profile>, roles: RoleStore)

  /** The provider's answer to `createUserWithEmailAndPassword`. */
  datatype ProviderReply = Created(uid: string) | ProviderRefused(code: string)

  datatype RegisterOutcome = Invalid(error: RegisterError) | Failed(message: FailureMessage) | Registered(uid: string)

  datatype RegisterResult = RegisterResult(outcome: RegisterOutcome, accounts: Accounts)

  /** The role record a new account starts with. */
  const InitialRole := RolePatch(Some(false), Some(false))

  /** `handleRegister`: a form failing a check writes nothing; a provider
      refusal writes nothing and maps the code; otherwise the profile is
      pushed under a fresh key and the role record is initialised. */
  function RegisterAccount(f: RegisterForm, acc: Accounts, reply: ProviderReply, profileKey: string, now: int)
    : (r: RegisterResult)
    ensures Validate(f).Some? ==> r == RegisterResult(Invalid(Validate(f).value), acc)
    ensures Validate(f).None? && reply.ProviderRefused? ==>
              r == RegisterResult(Failed(ErrorMessage(Register, reply.code)), acc)
    ensures r.outcome.Registered? <==> Validate(f).None? && reply.Created?
    ensures r.outcome.Registered? ==>
      && r.outcome.uid == reply.uid
      && r.accounts.roles.Keys == acc.roles.Keys + {reply.uid}
      && r.accounts.roles[reply.uid] == RoleRecord(Bool(false), Bool(false))
      && (forall u | u in acc.roles && u != reply.uid :: r.accounts.roles[u] == acc.roles[u])
      && r.accounts.profiles == acc.profiles[profileKey :=
           Profile(reply.uid, f.name, f.email, f.phone, f.address, f.pincode, now)]
  {
    match Validate(f)
    case Some(e) => RegisterResult(Invalid(e), acc)
    case None =>
      match reply
      case ProviderRefused(code) => RegisterResult(Failed(ErrorMessage(Register, code)), acc)
      case Created(uid) =>
        var profile := Profile(uid, f.name, f.email, f.phone, f.address, f.pincode, now);
        RegisterResult(Registered(uid), Accounts(acc.profiles[profileKey := profile], Update(acc.roles, uid, InitialRole)))
  }

  /** A freshly registered user is, once the role listener reports, neither
      suspended nor admin unless the e-mail is allow-listed. */
  lemma NewAccountRole(f: RegisterForm, acc: Accounts, uid: string, key: string, now: int,
                       user: Identity.User, s: Identity.AuthState, allowList: seq<string>)
    requires Validate(f).None?
    requires user.uid == uid && s.roleListener == Some(user)
    ensures
      var roles := RegisterAccount(f, acc, Created(uid), key, now).accounts.roles;
      var s' := Identity.OnRoleSnapshot(s, Lookup(roles, uid), allowList);
      !s'.isSuspended && s'.isAdmin == Identity.IsAdminEmail(user.email, allowList)
  {
  }
}
