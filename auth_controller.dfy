/** The decision logic of `AuthController`: which token is used, how the
    signed-in user is resolved, and the guard order of the e-mail OTP
    steps. The token verifiers and the user-service operations whose code
    is not part of this model are replaced by their results, supplied as
    parameters; each response comes with the list of service calls made,
    in order. */
module AuthController {
  import opened Wrappers
  import opened JavaText
  import opened UserModel
  import opened Store
  import opened OtpModel
  import OtpService
  import UserService

  // ---- responses ----

  const OK := 200
  const CREATED := 201
  const BAD_REQUEST := 400
  const UNAUTHORIZED := 401
  const INTERNAL_SERVER_ERROR := 500

  const CONTINUE_ACTION := "continue_action"
  const SET_DISPLAY_NAME := "set_display_name"
  const SET_PASSWORD := "set_password"

  const MISSING_TOKEN := "Missing authentication token"
  const INVALID_GOOGLE_TOKEN := "Invalid Google token"
  const INVALID_CODE := "Invalid authorization code"
  const NO_EMAIL := "Could not extract email from token"
  const ALREADY_AUTHENTICATED := "User is already authenticated. Please log in instead."
  const GOOGLE_FAILED := "Google authentication failed. Please try again."
  const INVALID_OTP := "Invalid or expired OTP"
  const NOT_VERIFIED := "OTP not verified. Please verify OTP first."
  const PASSWORD_REQUIRED := "Password is required"
  const DISPLAY_NAME_REQUIRED := "Display name is required"

  /** An exception: an `IllegalArgumentException` or any other. */
  datatype Thrown = IllegalArgument(message: string) | Failure(message: string)

  /** `AuthResponse`. A `String` field the builder does not set is `None`;
      the two `boolean` fields are primitives, so an unset one is `false`. */
  datatype AuthResponse = AuthResponse(
    userId: Option<UserId>,
    displayName: Option<string>,
    email: Option<string>,
    authProvider: string,
    isNew: bool,
    needsDisplayName: bool,
    nextStep: string)

  /** `ApiResponse`: success with optional data, or an error message. */
  datatype Body = Success(data: Option<AuthResponse>) | Error(message: string)

  datatype Response = Response(status: int, body: Body)

  function ErrorResponse(status: int, message: string): Response
  {
    Response(status, Error(message))
  }

  /** The service operations a request may invoke. */
  datatype Call =
    | CreateGuestUser(string)
    | VerifyFirebaseToken(string)
    | VerifyGoogleToken(string)
    | ExchangeCode(string, string)
    | GetUserById(UserId)
    | UpgradeGuestToGoogle(UserId, Option<string>, Option<string>, Option<string>)
    | GetUserByEmail(Option<string>)
    | GetOrCreateGoogleUser(Option<string>, Option<string>, Option<string>)
    | GenerateAndSendOtp(string)
    | VerifyOtp(string, string)
    | IsOtpVerified(string)
    | ClearOtpVerification(string)
    | GetOrCreateEmailUser(string, string)
    | SetPasswordHash(UserId, string)

  // ---- display name ----

  /** `needsDisplayName`: the display name is null or empty. */
  predicate NeedsDisplayName(displayName: Option<string>)
  {
    displayName.None? || displayName.value == ""
  }

  function NextStep(needsDisplayName: bool): (s: string)
    ensures s == SET_DISPLAY_NAME <==> needsDisplayName
    ensures s == CONTINUE_ACTION <==> !needsDisplayName
  {
    if needsDisplayName then SET_DISPLAY_NAME else CONTINUE_ACTION
  }

  // ---- signupGuest ----

  /** `signupGuest`, given the outcome of the one-argument
      `createGuestUser(displayName)` it calls. `UserService` declares only the
      two-argument `createGuestUser(guestId, name)`, so that outcome is a
      parameter, not `UserService.CreateGuestUser`. */
  function SignupGuest(displayName: string, created: Result<User, Thrown>): (r: (Response, seq<Call>))
    ensures r.1 == [CreateGuestUser(displayName)]
    ensures created.Ok? <==> r.0.status == CREATED
    ensures created.Ok? ==>
              && r.0.body.Success? && r.0.body.data.Some?
              && var a := r.0.body.data.value;
              && a.userId == Some(created.value.id) && a.displayName == created.value.displayName
              && a.authProvider == GUEST && a.isNew && !a.needsDisplayName
              && a.nextStep == CONTINUE_ACTION
    ensures created.Err? ==>
              r.0 == ErrorResponse(BAD_REQUEST, "Failed to create guest user: " + created.error.message)
  {
    var response :=
      match created
      case Err(e) => ErrorResponse(BAD_REQUEST, "Failed to create guest user: " + e.message)
      case Ok(u) =>
        Response(CREATED, Success(Some(AuthResponse(Some(u.id), u.displayName, None, GUEST, true, false, CONTINUE_ACTION))));
    (response, [CreateGuestUser(displayName)])
  }

  // ---- token selection ----

  const BEARER := "Bearer "

  /** The body of a `/auth/google` request. */
  datatype GoogleAuthRequest = GoogleAuthRequest(idToken: Option<string>, currentUserId: Option<UserId>)

  datatype Token = FirebaseToken(token: string) | GoogleIdToken(token: string) | NoToken

  /** A header starting with "Bearer " has text, so `hasText` adds nothing
      to the prefix test. */
  lemma BearerHasText(h: string)
    requires StartsWith(h, BEARER)
    ensures HasText(Some(h))
  {
    assert h[0] == 'B' && !IsWhitespace('B');
  }

  /** The token of a `/auth/google` request: a "Bearer " header first, then
      a non-blank `idToken` in the body. */
  function SelectToken(authHeader: Option<string>, request: Option<GoogleAuthRequest>): (t: Token)
    ensures t.FirebaseToken? <==> authHeader.Some? && StartsWith(authHeader.value, BEARER)
    ensures t.FirebaseToken? ==> BEARER + t.token == authHeader.value
    ensures t.GoogleIdToken? ==> request.Some? && request.value.idToken == Some(t.token) && !IsBlank(t.token)
    ensures t.NoToken? <==>
              && !(authHeader.Some? && StartsWith(authHeader.value, BEARER))
              && !(request.Some? && HasText(request.value.idToken))
  {
    assert authHeader.Some? && StartsWith(authHeader.value, BEARER) ==> HasText(authHeader) by {
      if authHeader.Some? && StartsWith(authHeader.value, BEARER) {
        BearerHasText(authHeader.value);
      }
    }
    if HasText(authHeader) && StartsWith(authHeader.value, BEARER) then
      assert authHeader.value == BEARER + authHeader.value[|BEARER|..];
      FirebaseToken(authHeader.value[|BEARER|..])
    else if request.Some? && HasText(request.value.idToken) then
      GoogleIdToken(request.value.idToken.value)
    else
      NoToken
  }

  // ---- Google sign-in ----

  /** What a verified token or an exchanged code says about the user. */
  datatype GoogleUserInfo = GoogleUserInfo(googleId: Option<string>, email: Option<string>, displayName: Option<string>)

  /** The results of the user-service operations whose code is not part of
      this model, one per operation a request may invoke. */
  datatype UserOracle = UserOracle(
    upgradeGuestToGoogle: Result<User, Thrown>,
    getUserByEmail: Result<User, Thrown>,
    getOrCreateGoogleUser: Result<User, Thrown>)

  /** The outer `catch`: an `IllegalArgumentException` is a 401 with its
      message, anything else a 500. */
  function Caught(e: Thrown): (r: Response)
    ensures e.IllegalArgument? ==> r == ErrorResponse(UNAUTHORIZED, e.message)
    ensures e.Failure? ==> r == ErrorResponse(INTERNAL_SERVER_ERROR, GOOGLE_FAILED)
  {
    match e
    case IllegalArgument(m) => ErrorResponse(UNAUTHORIZED, m)
    case Failure(_) => ErrorResponse(INTERNAL_SERVER_ERROR, GOOGLE_FAILED)
  }

  /** The success response of both Google flows. */
  function GoogleSignedIn(u: User, isNew: bool): Response
  {
    var needs := NeedsDisplayName(u.displayName);
    Response(OK, Success(Some(AuthResponse(Some(u.id), u.displayName, u.email, GOOGLE, isNew, needs, NextStep(needs)))))
  }

  /** The user resolution shared by both Google flows. With `currentUserId`
      the guest is upgraded; without it the user is found by e-mail, and
      created when that lookup throws an `IllegalArgumentException`. */
  function ResolveGoogleUser(currentUserId: Option<UserId>, info: GoogleUserInfo,
                             users: map<UserId, User>, oracle: UserOracle): (r: (Response, seq<Call>))
    ensures currentUserId.Some? ==> |r.1| >= 1 && r.1[0] == GetUserById(currentUserId.value)
    ensures currentUserId.None? ==> |r.1| >= 1 && r.1[0] == GetUserByEmail(info.email)
  {
    if currentUserId.Some? then
      var id := currentUserId.value;
      match UserService.GetUserById(users, id)
      case Err(m) => (ErrorResponse(BAD_REQUEST, m), [GetUserById(id)])
      case Ok(u) =>
        if !IsGuest(u) then
          (ErrorResponse(BAD_REQUEST, ALREADY_AUTHENTICATED), [GetUserById(id)])
        else
          var calls := [GetUserById(id), UpgradeGuestToGoogle(id, info.googleId, info.email, info.displayName)];
          (match oracle.upgradeGuestToGoogle
           case Err(IllegalArgument(m)) => (ErrorResponse(BAD_REQUEST, m), calls)
           case Err(Failure(_)) => (ErrorResponse(INTERNAL_SERVER_ERROR, GOOGLE_FAILED), calls)
           case Ok(upgraded) => (GoogleSignedIn(upgraded, false), calls))
    else
      match oracle.getUserByEmail
      case Ok(u) => (GoogleSignedIn(u, false), [GetUserByEmail(info.email)])
      case Err(Failure(_)) => (ErrorResponse(INTERNAL_SERVER_ERROR, GOOGLE_FAILED), [GetUserByEmail(info.email)])
      case Err(IllegalArgument(_)) =>
        var calls := [GetUserByEmail(info.email), GetOrCreateGoogleUser(info.googleId, info.email, info.displayName)];
        match oracle.getOrCreateGoogleUser
        case Err(e) => (Caught(e), calls)
        case Ok(created) => (GoogleSignedIn(created, true), calls)
  }

  /** `authenticateGoogle` (`/auth/google`): the verifier's outcome for the
      selected token is `firebase` or `google`; a legacy Google verifier
      that returns null is `Ok(None)`. */
  function AuthenticateGoogle(authHeader: Option<string>, request: Option<GoogleAuthRequest>,
                              firebase: Result<GoogleUserInfo, Thrown>,
                              google: Result<Option<GoogleUserInfo>, Thrown>,
                              users: map<UserId, User>, oracle: UserOracle): (r: (Response, seq<Call>))
    ensures SelectToken(authHeader, request).NoToken? <==> r.1 == []
  {
    var currentUserId := if request.Some? then request.value.currentUserId else None;
    match SelectToken(authHeader, request)
    case NoToken => (ErrorResponse(UNAUTHORIZED, MISSING_TOKEN), [])
    case FirebaseToken(token) =>
      var verified := [VerifyFirebaseToken(token)];
      (match firebase
       case Err(e) => (Caught(e), verified)
       case Ok(info) => AfterVerification(currentUserId, info, users, oracle, verified))
    case GoogleIdToken(token) =>
      var verified := [VerifyGoogleToken(token)];
      match google
      case Err(e) => (Caught(e), verified)
      case Ok(None) => (ErrorResponse(UNAUTHORIZED, INVALID_GOOGLE_TOKEN), verified)
      case Ok(Some(info)) => AfterVerification(currentUserId, info, users, oracle, verified)
  }

  /** A verified token without an e-mail is refused before any lookup. */
  function AfterVerification(currentUserId: Option<UserId>, info: GoogleUserInfo, users: map<UserId, User>,
                             oracle: UserOracle, verified: seq<Call>): (r: (Response, seq<Call>))
    ensures |r.1| >= |verified| && r.1[..|verified|] == verified
  {
    if info.email.None? then
      (ErrorResponse(UNAUTHORIZED, NO_EMAIL), verified)
    else
      var resolved := ResolveGoogleUser(currentUserId, info, users, oracle);
      assert (verified + resolved.1)[..|verified|] == verified;
      (resolved.0, verified + resolved.1)
  }

  /** `authenticateGoogleWithCode` (`/auth/google/code`): the code and the
      redirect URI go to the exchange, whose outcome is `exchanged`,
      `Ok(None)` when it returns null. Unlike the
      token flow, a missing e-mail is not refused. */
  function AuthenticateGoogleWithCode(code: string, redirectUri: string, currentUserId: Option<UserId>,
                                      exchanged: Result<Option<GoogleUserInfo>, Thrown>,
                                      users: map<UserId, User>, oracle: UserOracle): (r: (Response, seq<Call>))
    ensures |r.1| >= 1 && r.1[0] == ExchangeCode(code, redirectUri)
    ensures exchanged.Err? ==> r == (Caught(exchanged.error), [ExchangeCode(code, redirectUri)])
    ensures exchanged == Ok(None) ==> r == (ErrorResponse(UNAUTHORIZED, INVALID_CODE), [ExchangeCode(code, redirectUri)])
    ensures exchanged.Ok? && exchanged.value.Some? ==>
              var resolved := ResolveGoogleUser(currentUserId, exchanged.value.value, users, oracle);
              r.0 == resolved.0 && r.1[1..] == resolved.1
  {
    match exchanged
    case Err(e) => (Caught(e), [ExchangeCode(code, redirectUri)])
    case Ok(None) => (ErrorResponse(UNAUTHORIZED, INVALID_CODE), [ExchangeCode(code, redirectUri)])
    case Ok(Some(info)) =>
      var resolved := ResolveGoogleUser(currentUserId, info, users, oracle);
      (resolved.0, [ExchangeCode(code, redirectUri)] + resolved.1)
  }

  // ---- properties of the Google flows ----

  /** Unlike the token flow, the code flow does not refuse an exchange
      without an e-mail: a user lookup follows the exchange, by id for an
      upgrade and otherwise by the missing e-mail itself. */
  lemma CodeFlowEmailNotRequired(code: string, redirectUri: string, currentUserId: Option<UserId>, info: GoogleUserInfo,
                                 users: map<UserId, User>, oracle: UserOracle)
    requires info.email.None?
    ensures var r := AuthenticateGoogleWithCode(code, redirectUri, currentUserId, Ok(Some(info)), users, oracle);
            && |r.1| >= 2
            && (currentUserId.Some? ==> r.1[1] == GetUserById(currentUserId.value))
            && (currentUserId.None? ==> r.1[1] == GetUserByEmail(None))
  {
  }

  /** With no "Bearer " header and no non-blank `idToken` the answer is 401
      "Missing authentication token" and no verifier is called. */
  lemma MissingTokenRefused(authHeader: Option<string>, request: Option<GoogleAuthRequest>,
                            firebase: Result<GoogleUserInfo, Thrown>, google: Result<Option<GoogleUserInfo>, Thrown>,
                            users: map<UserId, User>, oracle: UserOracle)
    requires !(authHeader.Some? && StartsWith(authHeader.value, BEARER))
    requires !(request.Some? && HasText(request.value.idToken))
    ensures AuthenticateGoogle(authHeader, request, firebase, google, users, oracle)
            == (ErrorResponse(UNAUTHORIZED, MISSING_TOKEN), [])
  {
  }

  /** A "Bearer " header wins over a body `idToken`: the Firebase verifier
      is called with the header minus its seven-character prefix. */
  lemma BearerTakesPrecedence(authHeader: string, request: Option<GoogleAuthRequest>,
                              firebase: Result<GoogleUserInfo, Thrown>, google: Result<Option<GoogleUserInfo>, Thrown>,
                              users: map<UserId, User>, oracle: UserOracle)
    requires StartsWith(authHeader, BEARER)
    ensures var r := AuthenticateGoogle(Some(authHeader), request, firebase, google, users, oracle);
            |r.1| >= 1 && r.1[0] == VerifyFirebaseToken(authHeader[7..])
  {
    var t := SelectToken(Some(authHeader), request);
    assert BEARER + t.token == authHeader;
    assert t.token == authHeader[7..];
    if firebase.Ok? {
      var currentUserId := if request.Some? then request.value.currentUserId else None;
      var r := AfterVerification(currentUserId, firebase.value, users, oracle, [VerifyFirebaseToken(t.token)]);
      assert r.1[..1] == [VerifyFirebaseToken(t.token)];
    }
  }

  /** A verified token without an e-mail gives 401 before any user lookup:
      the verifier is the only call. */
  lemma NoEmailRefused(currentUserId: Option<UserId>, info: GoogleUserInfo, users: map<UserId, User>,
                       oracle: UserOracle, verified: seq<Call>)
    requires info.email.None?
    ensures AfterVerification(currentUserId, info, users, oracle, verified) == (ErrorResponse(UNAUTHORIZED, NO_EMAIL), verified)
  {
  }

  /** Upgrading a user who is not a guest is refused with 400 and no
      upgrade is attempted. */
  lemma NonGuestNotUpgraded(id: UserId, info: GoogleUserInfo, users: map<UserId, User>, oracle: UserOracle)
    requires id in users && !IsGuest(users[id])
    ensures ResolveGoogleUser(Some(id), info, users, oracle) == (ErrorResponse(BAD_REQUEST, ALREADY_AUTHENTICATED), [GetUserById(id)])
    ensures forall c :: c in ResolveGoogleUser(Some(id), info, users, oracle).1 ==> !c.UpgradeGuestToGoogle?
  {
  }

  /** Without `currentUserId` a signed-in user is new exactly when the
      e-mail lookup threw an `IllegalArgumentException`; an upgrade is
      never new. */
  lemma IsNewExactlyWhenLookupFails(currentUserId: Option<UserId>, info: GoogleUserInfo,
                                    users: map<UserId, User>, oracle: UserOracle)
    ensures var r := ResolveGoogleUser(currentUserId, info, users, oracle).0;
            r.status == OK ==>
              && r.body.Success? && r.body.data.Some?
              && (r.body.data.value.isNew <==> currentUserId.None? && oracle.getUserByEmail.Err? && oracle.getUserByEmail.error.IllegalArgument?)
  {
  }

  /** In every Google sign-in, `needsDisplayName` holds exactly when the
      user's display name is null or empty, and the next step is
      "set_display_name" exactly then, "continue_action" otherwise. */
  lemma GoogleNextStep(currentUserId: Option<UserId>, info: GoogleUserInfo,
                       users: map<UserId, User>, oracle: UserOracle)
    ensures var r := ResolveGoogleUser(currentUserId, info, users, oracle).0;
            r.status == OK ==>
              && r.body.Success? && r.body.data.Some?
              && var a := r.body.data.value;
              && a.authProvider == GOOGLE
              && a.needsDisplayName == (a.displayName.None? || a.displayName.value == "")
              && (a.nextStep == SET_DISPLAY_NAME <==> a.needsDisplayName)
              && (a.nextStep == CONTINUE_ACTION <==> !a.needsDisplayName)
  {
  }

  // ---- e-mail and OTP ----

  /** `sendOtp` (`/auth/email/send-otp`). */
  method SendOtpEndpoint(db: Database, email: string, draw: nat, newId: string, now: int, delivered: bool)
    returns (r: Response, calls: seq<Call>)
    requires db.Valid() && draw < 1000000 && newId !in db.otps
    modifies db
    ensures db.Valid()
    ensures db.State() == old(db.State()).(otps := old(db.otps)[newId :=
              BuildOtp(newId, email, OtpService.GenerateOtpCode(draw), false, now)])
    ensures calls == [GenerateAndSendOtp(email)]
    ensures r == if delivered then Response(OK, Success(None))
                 else ErrorResponse(BAD_REQUEST, "Failed to send OTP: " + OtpService.SEND_FAILED)
  {
    var sent := OtpService.GenerateAndSendOtp(db, email, draw, newId, now, delivered);
    calls := [GenerateAndSendOtp(email)];
    if sent.Fail? {
      return ErrorResponse(BAD_REQUEST, "Failed to send OTP: " + sent.error), calls;
    }
    r := Response(OK, Success(None));
  }

  /** `verifyOtp` (`/auth/email/verify-otp`), given what `getUserByEmail`
      returns. A refused code is a 400 and nothing else happens. Otherwise
      the record stays verified; an existing user is signed in and the
      verification cleared, a new user is sent to set a password with the
      verification kept for that step. */
  method VerifyOtpEndpoint(db: Database, email: string, otp: string, now: int, byEmail: Result<User, Thrown>)
    returns (r: Response, calls: seq<Call>)
    requires db.Valid()
    modifies db
    ensures db.Valid()
    ensures db.State() == old(db.State()).(otps := db.otps)
    ensures |calls| >= 1 && calls[0] == VerifyOtp(email, otp)
    ensures calls == [VerifyOtp(email, otp)] <==> r == ErrorResponse(BAD_REQUEST, INVALID_OTP)
    ensures calls == [VerifyOtp(email, otp)] ==> OtpService.VerifyEffect(old(db.otps), db.otps, email, otp, now, false)
    ensures calls != [VerifyOtp(email, otp)] ==>
              exists verified :: OtpService.VerifyEffect(old(db.otps), verified, email, otp, now, true)
                && match byEmail
                   case Ok(u) =>
                     && calls == [VerifyOtp(email, otp), GetUserByEmail(Some(email)), ClearOtpVerification(email)]
                     && OtpService.ClearEffect(verified, db.otps, email)
                     && r == Response(OK, Success(Some(AuthResponse(Some(u.id), u.displayName, u.email, EMAIL, false, false, CONTINUE_ACTION))))
                   case Err(IllegalArgument(_)) =>
                     && calls == [VerifyOtp(email, otp), GetUserByEmail(Some(email))]
                     && db.otps == verified
                     && r == Response(OK, Success(Some(AuthResponse(None, None, Some(email), EMAIL, true, true, SET_PASSWORD))))
                   case Err(Failure(m)) =>
                     && calls == [VerifyOtp(email, otp), GetUserByEmail(Some(email))]
                     && db.otps == verified
                     && r == ErrorResponse(BAD_REQUEST, "OTP verification failed: " + m)
  {
    var isValid := OtpService.VerifyOtp(db, email, otp, now);
    calls := [VerifyOtp(email, otp)];
    if !isValid {
      return ErrorResponse(BAD_REQUEST, INVALID_OTP), calls;
    }
    ghost var verified := db.otps;
    calls := calls + [GetUserByEmail(Some(email))];
    match byEmail {
      case Ok(u) =>
        r := Response(OK, Success(Some(AuthResponse(Some(u.id), u.displayName, u.email, EMAIL, false, false, CONTINUE_ACTION))));
        OtpService.ClearOtpVerification(db, email);
        calls := calls + [ClearOtpVerification(email)];
      case Err(IllegalArgument(_)) =>
        r := Response(OK, Success(Some(AuthResponse(None, None, Some(email), EMAIL, true, true, SET_PASSWORD))));
      case Err(Failure(m)) =>
        r := ErrorResponse(BAD_REQUEST, "OTP verification failed: " + m);
    }
  }

  /** The body of a `/auth/email/set-password` request. */
  datatype SetPasswordRequest = SetPasswordRequest(email: string, password: Option<string>, displayName: Option<string>)

  /** The three guards of `setPassword`, in order: the first that fails. */
  function SetPasswordGuard(otpVerified: bool, request: SetPasswordRequest): (r: Option<string>)
    ensures r == Some(NOT_VERIFIED) <==> !otpVerified
    ensures r == Some(PASSWORD_REQUIRED) <==> otpVerified && (request.password.None? || request.password.value == "")
    ensures r == Some(DISPLAY_NAME_REQUIRED) <==>
              && otpVerified && request.password.Some? && request.password.value != ""
              && (request.displayName.None? || TrimIsEmpty(request.displayName.value))
    ensures r.None? ==> request.password.Some? && request.displayName.Some?
  {
    if !otpVerified then Some(NOT_VERIFIED)
    else if request.password.None? || request.password.value == "" then Some(PASSWORD_REQUIRED)
    else if request.displayName.None? || TrimIsEmpty(request.displayName.value) then Some(DISPLAY_NAME_REQUIRED)
    else None
  }

  /** `setPassword`, given what `getOrCreateEmailUser` and `setPasswordHash`
      do and the Base64 text of the password (`encodedPassword`). The
      verification is cleared only after the user exists and holds the
      hash; every refusal leaves the records as they were. */
  method SetPasswordEndpoint(db: Database, request: SetPasswordRequest, now: int, encodedPassword: string,
                     created: Result<User, Thrown>, hashSet: Outcome<Thrown>)
    returns (r: Response, calls: seq<Call>)
    requires db.Valid()
    modifies db
    ensures db.Valid()
    ensures db.State() == old(db.State()).(otps := db.otps)
    ensures var guard := SetPasswordGuard(OtpService.VerificationActive(old(db.otps), request.email, now), request);
            && (guard.Some? ==> r == ErrorResponse(BAD_REQUEST, guard.value) && calls == [IsOtpVerified(request.email)]
                                 && db.otps == old(db.otps))
            && (guard.None? ==>
                  var name := request.displayName.value;
                  match created
                  case Err(e) =>
                    && r == ErrorResponse(BAD_REQUEST, "Password setup failed: " + e.message)
                    && calls == [IsOtpVerified(request.email), GetOrCreateEmailUser(request.email, name)]
                    && db.otps == old(db.otps)
                  case Ok(u) =>
                    match hashSet
                    case Fail(e) =>
                      && r == ErrorResponse(BAD_REQUEST, "Password setup failed: " + e.message)
                      && calls == [IsOtpVerified(request.email), GetOrCreateEmailUser(request.email, name), SetPasswordHash(u.id, encodedPassword)]
                      && db.otps == old(db.otps)
                    case Pass =>
                      && r == Response(OK, Success(Some(AuthResponse(Some(u.id), u.displayName, u.email, EMAIL, true, false, CONTINUE_ACTION))))
                      && calls == [IsOtpVerified(request.email), GetOrCreateEmailUser(request.email, name),
                                   SetPasswordHash(u.id, encodedPassword), ClearOtpVerification(request.email)]
                      && OtpService.ClearEffect(old(db.otps), db.otps, request.email))
  {
    var otpVerified := OtpService.IsOtpVerified(db, request.email, now);
    calls := [IsOtpVerified(request.email)];
    var guard := SetPasswordGuard(otpVerified, request);
    if guard.Some? {
      return ErrorResponse(BAD_REQUEST, guard.value), calls;
    }
    var name := request.displayName.value;
    calls := calls + [GetOrCreateEmailUser(request.email, name)];
    if created.Err? {
      return ErrorResponse(BAD_REQUEST, "Password setup failed: " + created.error.message), calls;
    }
    var u := created.value;
    calls := calls + [SetPasswordHash(u.id, encodedPassword)];
    if hashSet.Fail? {
      return ErrorResponse(BAD_REQUEST, "Password setup failed: " + hashSet.error.message), calls;
    }
    OtpService.ClearOtpVerification(db, request.email);
    calls := calls + [ClearOtpVerification(request.email)];
    r := Response(OK, Success(Some(AuthResponse(Some(u.id), u.displayName, u.email, EMAIL, true, false, CONTINUE_ACTION))));
  }

  /** A new user's OTP check is kept for the password step: right after a
      `verifyOtp` that sends the user to set a password, the password step's
      first guard passes at the same time. */
  lemma NewUserCanSetPassword(before: map<OtpId, Otp>, after: map<OtpId, Otp>, request: SetPasswordRequest,
                              otp: string, now: int)
    requires OtpsValid(before)
    requires OtpService.VerifyEffect(before, after, request.email, otp, now, true)
    ensures SetPasswordGuard(OtpService.VerificationActive(after, request.email, now), request) != Some(NOT_VERIFIED)
  {
    OtpService.VerifyActivates(before, after, request.email, otp, now);
  }
}
