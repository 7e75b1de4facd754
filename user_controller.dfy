/**
 * The user request handlers of the backend (register, login, logout and
 * updateProfile): their guarded early returns, the records they create or
 * change, and the responses they send.
 *
 * The user collection is an in-memory sequence in insertion order; a
 * record's `_id` is its position. bcrypt is a `Hasher` value whose only
 * assumed law is `Sound`; the asset host's answer to an upload is an input;
 * the identity the authentication middleware puts in `req.id` is an input.
 */
module UserController {
  import opened Wrappers
  import opened JsStrings

  type UserId = nat

  /** A request-body field: `None` when it is absent (`undefined`). */
  type Field = Option<string>

  datatype Profile = Profile(
    bio: Option<string>,
    skills: seq<string>,
    resume: Option<string>,
    resumeOriginalName: Option<string>,
    profilePhoto: Option<string>)

  datatype User = User(
    id: UserId,
    fullname: string,
    email: string,
    phoneNumber: string,
    password: string,
    role: string,
    profile: Profile)

  /** The uploaded file `req.file`: its media type and its original file name. */
  datatype File = File(mimetype: string, originalname: string)

  /** What the asset host answers to an upload: the stored file's URL, or an exception. */
  datatype UploadOutcome = Uploaded(secureUrl: string) | UploadFailed

  type Salt = nat

  /** bcrypt: `hash(password, rounds, salt)` and `compare(password, digest)`. */
  datatype Hasher = Hasher(hash: (string, nat, Salt) -> string, compare: (string, string) -> bool)

  /** The cost factor register passes to `bcrypt.hash`. */
  const SALT_ROUNDS: nat := 10

  /**
   * The one law assumed of bcrypt: a password matches every digest made from
   * it, and a digest is never the password itself.
   */
  ghost predicate Sound(h: Hasher) {
    forall p, rounds, salt :: h.compare(p, h.hash(p, rounds, salt)) && h.hash(p, rounds, salt) != p
  }

  /** What the signed session token carries: the user's id and its lifetime option. */
  datatype JwtPayload = JwtPayload(userId: UserId, expiresIn: string)

  /** A cookie's value: a signed token, or the empty string. */
  datatype CookieValue = Jwt(payload: JwtPayload) | Empty

  datatype Cookie = Cookie(
    name: string,
    value: CookieValue,
    maxAge: nat,
    httpOnly: bool,
    sameSite: Option<string>)

  /** Status code and JSON body `{message, success, user}`, and the cookie set with it. */
  datatype Response = Response(
    status: nat,
    message: string,
    success: bool,
    cookie: Option<Cookie>,
    user: Option<User>)

  const ALL_FIELDS_REQUIRED := "All fields are required."
  const USER_EXISTS := "User already exists with this email."
  const UNSUPPORTED_FILE_TYPE := "Unsupported file type"
  const INTERNAL_SERVER_ERROR := "Internal Server Error"
  const ACCOUNT_CREATED := "Account created successfully."
  const INCORRECT_CREDENTIALS := "Incorrect email or password."
  const ROLE_MISMATCH := "Account doesn't exist with the specified role."
  const LOGGED_OUT := "Logged out successfully."
  const USER_NOT_FOUND := "User not found."
  const FILE_UPLOAD_FAILED := "File upload failed"
  const PROFILE_UPDATED := "Profile updated successfully."

  const TOKEN_COOKIE := "token"
  /** The `expiresIn` option given to `jwt.sign`. */
  const TOKEN_EXPIRES_IN := "1d"
  /** The `maxAge` of the session cookie, in milliseconds. */
  const SESSION_MAX_AGE: nat := 86400000

  function Failure(status: nat, message: string): Response {
    Response(status, message, false, None, None)
  }

  // ---------------------------------------------------------------------------
  // The user collection

  /** Every record sits at the position its id names. */
  ghost predicate IdsArePositions(users: seq<User>) {
    forall i :: 0 <= i < |users| ==> users[i].id == i
  }

  ghost predicate UniqueEmails(users: seq<User>) {
    forall i, j :: 0 <= i < j < |users| ==> users[i].email != users[j].email
  }

  /** `User.findOne({ email })`: the position of the first record with that email. */
  function FindIndexByEmail(users: seq<User>, email: string): (r: Option<nat>)
    ensures r.Some? ==> r.value < |users| && users[r.value].email == email
    ensures r.Some? ==> forall j :: 0 <= j < r.value ==> users[j].email != email
    ensures r.None? <==> forall j :: 0 <= j < |users| ==> users[j].email != email
    decreases |users|
  {
    if |users| == 0 then None
    else if users[0].email == email then Some(0)
    else
      match FindIndexByEmail(users[1..], email)
      case None => None
      case Some(k) => Some(k + 1)
  }

  function FindByEmail(users: seq<User>, email: string): Option<User> {
    match FindIndexByEmail(users, email)
    case None => None
    case Some(k) => Some(users[k])
  }

  /** A record appended at the end is found by its email exactly when no earlier record has it. */
  lemma {:induction false} FindIndexByEmailAppend(users: seq<User>, u: User, email: string)
    ensures FindIndexByEmail(users + [u], email) ==
      if FindIndexByEmail(users, email).Some? then FindIndexByEmail(users, email)
      else if u.email == email then Some(|users|)
      else None
  {
    var all := users + [u];
    assert forall j :: 0 <= j < |users| ==> all[j] == users[j];
    match FindIndexByEmail(users, email)
    case Some(k) =>
      var r := FindIndexByEmail(all, email);
      assert r.Some?;
      assert !(r.value < k) && !(k < r.value);
    case None =>
      var r := FindIndexByEmail(all, email);
      assert all[|users|] == u;
  }

  // ---------------------------------------------------------------------------
  // register

  datatype RegisterRequest = RegisterRequest(
    fullname: Field, email: Field, phoneNumber: Field, password: Field, role: Field)

  predicate AllRegisterFields(req: RegisterRequest) {
    Truthy(req.fullname) && Truthy(req.email) && Truthy(req.phoneNumber) &&
    Truthy(req.password) && Truthy(req.role)
  }

  /** The record `User.create` builds from a valid request. */
  function NewUser(id: UserId, req: RegisterRequest, digest: string, photo: Option<string>): User
    requires AllRegisterFields(req)
  {
    User(id, req.fullname.value, req.email.value, req.phoneNumber.value, digest, req.role.value,
         Profile(None, [], None, None, photo))
  }

  /**
   * The response register sends and the collection afterwards. The checks
   * come in the handler's order: required fields, an existing email, then
   * the attached file's media type (an upload failure falls through to the
   * handler's catch-all).
   */
  function RegisterOutcome(users: seq<User>, req: RegisterRequest, file: Option<File>,
                           upload: UploadOutcome, hasher: Hasher, salt: Salt): (r: (Response, seq<User>))
    // every error leaves the collection as it was
    ensures !r.0.success ==> r.1 == users
    ensures !AllRegisterFields(req) ==> r.0 == Failure(400, ALL_FIELDS_REQUIRED)
    ensures AllRegisterFields(req) && FindByEmail(users, req.email.value).Some? ==>
      r.0 == Failure(400, USER_EXISTS)
    // a non-image file is refused; the upload is then never consulted
    ensures AllRegisterFields(req) && FindByEmail(users, req.email.value).None? &&
            file.Some? && !StartsWith(file.value.mimetype, "image/") ==>
      r.0 == Failure(400, UNSUPPORTED_FILE_TYPE)
    // a failed upload of an image lands in the catch-all
    ensures AllRegisterFields(req) && FindByEmail(users, req.email.value).None? &&
            file.Some? && StartsWith(file.value.mimetype, "image/") && upload.UploadFailed? ==>
      r.0 == Failure(500, INTERNAL_SERVER_ERROR)
    ensures r.0.success <==>
      AllRegisterFields(req) && FindByEmail(users, req.email.value).None? &&
      (file.Some? ==> StartsWith(file.value.mimetype, "image/") && upload.Uploaded?)
    // success appends exactly one record, with the given fields, the digest and the photo
    ensures r.0.success ==>
      && r.0.status == 201 && r.0.message == ACCOUNT_CREATED
      // the answer echoes no record and sets no cookie
      && r.0.user.None? && r.0.cookie.None?
      && |r.1| == |users| + 1 && r.1[..|users|] == users
      && var u := r.1[|users|];
      && u.id == |users|
      && u.fullname == req.fullname.value && u.email == req.email.value
      && u.phoneNumber == req.phoneNumber.value && u.role == req.role.value
      && u.password == hasher.hash(req.password.value, SALT_ROUNDS, salt)
      && u.profile.resume.None? && u.profile.resumeOriginalName.None?
      && u.profile.profilePhoto == (if file.Some? then Some(upload.secureUrl) else None)
  {
    if !AllRegisterFields(req) then (Failure(400, ALL_FIELDS_REQUIRED), users)
    else if FindByEmail(users, req.email.value).Some? then (Failure(400, USER_EXISTS), users)
    else if file.Some? && !StartsWith(file.value.mimetype, "image/") then (Failure(400, UNSUPPORTED_FILE_TYPE), users)
    else if file.Some? && upload.UploadFailed? then (Failure(500, INTERNAL_SERVER_ERROR), users)
    else
      var digest := hasher.hash(req.password.value, SALT_ROUNDS, salt);
      var photo := if file.Some? then Some(upload.secureUrl) else None;
      (Response(201, ACCOUNT_CREATED, true, None, None), users + [NewUser(|users|, req, digest, photo)])
  }

  /** Register keeps ids equal to positions. */
  lemma RegisterKeepsIds(users: seq<User>, req: RegisterRequest, file: Option<File>,
                         upload: UploadOutcome, hasher: Hasher, salt: Salt)
    requires IdsArePositions(users)
    ensures IdsArePositions(RegisterOutcome(users, req, file, upload, hasher, salt).1)
  {
  }

  /** Register never gives two records the same email. */
  lemma RegisterKeepsEmailsUnique(users: seq<User>, req: RegisterRequest, file: Option<File>,
                                  upload: UploadOutcome, hasher: Hasher, salt: Salt)
    requires UniqueEmails(users)
    ensures UniqueEmails(RegisterOutcome(users, req, file, upload, hasher, salt).1)
  {
  }

  /**
   * The stored password is never the password as typed. That the stored
   * value is the bcrypt digest is `RegisterOutcome`'s own contract; this
   * lemma adds only what the law `Sound` says of such a digest.
   */
  lemma RegisterStoresNoPlaintext(users: seq<User>, req: RegisterRequest, file: Option<File>,
                                  upload: UploadOutcome, hasher: Hasher, salt: Salt)
    requires Sound(hasher)
    requires RegisterOutcome(users, req, file, upload, hasher, salt).0.success
    ensures RegisterOutcome(users, req, file, upload, hasher, salt).1[|users|].password != req.password.value
  {
    var digest := hasher.hash(req.password.value, SALT_ROUNDS, salt);
    assert digest != req.password.value;
  }

  /** A second register with the same email is refused, whatever its other fields. */
  lemma {:induction false} RegisterTwiceSameEmail(users: seq<User>, req: RegisterRequest, file: Option<File>,
                                                  upload: UploadOutcome, hasher: Hasher, salt: Salt,
                                                  req2: RegisterRequest, file2: Option<File>,
                                                  upload2: UploadOutcome, salt2: Salt)
    requires RegisterOutcome(users, req, file, upload, hasher, salt).0.success
    requires AllRegisterFields(req2) && req2.email == req.email
    ensures var after := RegisterOutcome(users, req, file, upload, hasher, salt).1;
      RegisterOutcome(after, req2, file2, upload2, hasher, salt2) == (Failure(400, USER_EXISTS), after)
  {
    var after := RegisterOutcome(users, req, file, upload, hasher, salt).1;
    assert after == users + [after[|users|]];
    FindIndexByEmailAppend(users, after[|users|], req.email.value);
  }

  // ---------------------------------------------------------------------------
  // login

  datatype LoginRequest = LoginRequest(email: Field, password: Field, role: Field)

  predicate AllLoginFields(req: LoginRequest) {
    Truthy(req.email) && Truthy(req.password) && Truthy(req.role)
  }

  /** The cookie that carries a fresh session token for `u`. */
  function SessionCookie(u: User): Cookie {
    Cookie(TOKEN_COOKIE, Jwt(JwtPayload(u.id, TOKEN_EXPIRES_IN)), SESSION_MAX_AGE, true, Some("strict"))
  }

  /**
   * The response login sends; it reads the collection and never changes it.
   * The checks come in the handler's order: required fields, the email, the
   * password, the role.
   */
  function Login(users: seq<User>, req: LoginRequest, hasher: Hasher): (r: Response)
    ensures !AllLoginFields(req) ==> r == Failure(400, ALL_FIELDS_REQUIRED)
    ensures AllLoginFields(req) && FindByEmail(users, req.email.value).None? ==>
      r == Failure(400, INCORRECT_CREDENTIALS)
    ensures AllLoginFields(req) && FindByEmail(users, req.email.value).Some? &&
            !hasher.compare(req.password.value, FindByEmail(users, req.email.value).value.password) ==>
      r == Failure(400, INCORRECT_CREDENTIALS)
    ensures AllLoginFields(req) && FindByEmail(users, req.email.value).Some? &&
            hasher.compare(req.password.value, FindByEmail(users, req.email.value).value.password) &&
            req.role.value != FindByEmail(users, req.email.value).value.role ==>
      r == Failure(400, ROLE_MISMATCH)
    ensures r.success <==>
      && AllLoginFields(req)
      && FindByEmail(users, req.email.value).Some?
      && hasher.compare(req.password.value, FindByEmail(users, req.email.value).value.password)
      && req.role.value == FindByEmail(users, req.email.value).value.role
    // the role is reported only after the password matched
    ensures !r.success && r.message == ROLE_MISMATCH ==>
      && AllLoginFields(req)
      && FindByEmail(users, req.email.value).Some?
      && hasher.compare(req.password.value, FindByEmail(users, req.email.value).value.password)
      && req.role.value != FindByEmail(users, req.email.value).value.role
    ensures !r.success ==> r.status == 400 && r.cookie.None? && r.user.None?
    ensures r.success ==>
      && r.status == 200
      && r.user == FindByEmail(users, req.email.value)
      && r.message == "Welcome back " + r.user.value.fullname
      && r.cookie == Some(SessionCookie(r.user.value))
  {
    if !AllLoginFields(req) then Failure(400, ALL_FIELDS_REQUIRED)
    else match FindByEmail(users, req.email.value)
      case None => Failure(400, INCORRECT_CREDENTIALS)
      case Some(u) =>
        if !hasher.compare(req.password.value, u.password) then Failure(400, INCORRECT_CREDENTIALS)
        else if req.role.value != u.role then Failure(400, ROLE_MISMATCH)
        else Response(200, "Welcome back " + u.fullname, true, Some(SessionCookie(u)), Some(u))
  }

  /** The three refusals of login carry three different messages. */
  lemma LoginMessagesDistinct()
    ensures ALL_FIELDS_REQUIRED != INCORRECT_CREDENTIALS
    ensures INCORRECT_CREDENTIALS != ROLE_MISMATCH
    ensures ALL_FIELDS_REQUIRED != ROLE_MISMATCH
  {
    assert |ALL_FIELDS_REQUIRED| == 24 && |INCORRECT_CREDENTIALS| == 28 && |ROLE_MISMATCH| == 46;
  }

  /** An unknown email and a wrong password get byte-identical answers. */
  lemma LoginHidesWhichCredentialFailed(users: seq<User>, unknown: LoginRequest,
                                        wrongPassword: LoginRequest, hasher: Hasher)
    requires AllLoginFields(unknown) && FindByEmail(users, unknown.email.value).None?
    requires AllLoginFields(wrongPassword) && FindByEmail(users, wrongPassword.email.value).Some?
    requires !hasher.compare(wrongPassword.password.value, FindByEmail(users, wrongPassword.email.value).value.password)
    ensures Login(users, unknown, hasher) == Login(users, wrongPassword, hasher) == Failure(400, INCORRECT_CREDENTIALS)
  {
  }

  /**
   * Registering and then logging in with the same email, password and role
   * succeeds and hands out a token for the new record; with another role the
   * answer is the role mismatch, not the credential message.
   */
  lemma {:induction false} RegisterThenLogin(users: seq<User>, req: RegisterRequest, file: Option<File>,
                                             upload: UploadOutcome, hasher: Hasher, salt: Salt, role: string)
    requires Sound(hasher)
    requires RegisterOutcome(users, req, file, upload, hasher, salt).0.success
    requires role != ""
    ensures var after := RegisterOutcome(users, req, file, upload, hasher, salt).1;
      var r := Login(after, LoginRequest(req.email, req.password, Some(role)), hasher);
      (role == req.role.value ==> r.success && r.cookie == Some(SessionCookie(after[|users|])))
      && (role != req.role.value ==> r == Failure(400, ROLE_MISMATCH))
  {
    var after := RegisterOutcome(users, req, file, upload, hasher, salt).1;
    var u := after[|users|];
    assert after == users + [u];
    FindIndexByEmailAppend(users, u, req.email.value);
    assert FindByEmail(after, req.email.value) == Some(u);
    assert hasher.compare(req.password.value, hasher.hash(req.password.value, SALT_ROUNDS, salt));
  }

  /** The token lifetime `"1d"` in milliseconds, as the `ms` format reads a count of days. */
  function ExpiresInMs(span: string): Option<nat> {
    if |span| >= 2 && span[|span| - 1] == 'd' &&
       forall i :: 0 <= i < |span| - 1 ==> IsDigitIn(span[i], 10)
    then Some(DigitsValue(span[..|span| - 1], 10) * MS_PER_DAY)
    else None
  }

  /** The session cookie lives exactly as long as the token it carries: one day. */
  lemma SessionCookieMatchesToken(u: User)
    ensures SessionCookie(u).maxAge == MS_PER_DAY
    ensures ExpiresInMs(SessionCookie(u).value.payload.expiresIn) == Some(SessionCookie(u).maxAge)
  {
    var days := TOKEN_EXPIRES_IN[..1];
    assert days == "1" && days[..0] == [];
    assert DigitsValue(days, 10) == 1;
  }

  // ---------------------------------------------------------------------------
  // logout

  /** Logout always succeeds and overwrites the token cookie with an expired empty one. */
  function Logout(): (r: Response)
    ensures r.status == 200 && r.success && r.message == LOGGED_OUT
    ensures r.cookie.Some? && r.cookie.value.name == TOKEN_COOKIE
    ensures r.cookie.value.value == Empty && r.cookie.value.maxAge == 0
  {
    Response(200, LOGGED_OUT, true, Some(Cookie(TOKEN_COOKIE, Empty, 0, false, None)), None)
  }

  // ---------------------------------------------------------------------------
  // updateProfile

  datatype ProfileRequest = ProfileRequest(
    fullname: Field, email: Field, phoneNumber: Field, bio: Field, skills: Field)

  /**
   * The field merge of updateProfile: each field is overwritten exactly when
   * the request's value is truthy; skills become the comma-separated pieces.
   * The id, the password digest, the role and the file fields stay.
   */
  function MergeFields(u: User, req: ProfileRequest): (r: User)
    ensures r.id == u.id && r.password == u.password && r.role == u.role
    ensures r.fullname == if Truthy(req.fullname) then req.fullname.value else u.fullname
    ensures r.email == if Truthy(req.email) then req.email.value else u.email
    ensures r.phoneNumber == if Truthy(req.phoneNumber) then req.phoneNumber.value else u.phoneNumber
    ensures r.profile.bio == if Truthy(req.bio) then req.bio else u.profile.bio
    ensures Truthy(req.skills) ==> Join(r.profile.skills, ',') == req.skills.value
    ensures Truthy(req.skills) ==>
      |r.profile.skills| >= 1 && forall k :: 0 <= k < |r.profile.skills| ==> ',' !in r.profile.skills[k]
    ensures !Truthy(req.skills) ==> r.profile.skills == u.profile.skills
    ensures r.profile.profilePhoto == u.profile.profilePhoto
    ensures r.profile.resume == u.profile.resume
    ensures r.profile.resumeOriginalName == u.profile.resumeOriginalName
  {
    JoinSplit(req.skills.GetOr(""), ',');
    var p := u.profile;
    User(u.id,
         if Truthy(req.fullname) then req.fullname.value else u.fullname,
         if Truthy(req.email) then req.email.value else u.email,
         if Truthy(req.phoneNumber) then req.phoneNumber.value else u.phoneNumber,
         u.password, u.role,
         p.(bio := if Truthy(req.bio) then req.bio else p.bio,
            skills := if Truthy(req.skills) then Split(req.skills.value, ',') else p.skills))
  }

  /** The three file fields of a profile after the upload step, or the error that ends the request. */
  datatype FileRoute =
    | Routed(profilePhoto: Option<string>, resume: Option<string>, resumeOriginalName: Option<string>)
    | Refused(response: Response)

  /**
   * The upload step of updateProfile: a PDF becomes the resume, an image the
   * profile photo; any other type is refused, and so is a failed upload.
   */
  function RouteFile(p: Profile, file: Option<File>, upload: UploadOutcome): (r: FileRoute)
    ensures file.None? ==> r == Routed(p.profilePhoto, p.resume, p.resumeOriginalName)
    ensures r.Refused? <==>
      file.Some? && (upload.UploadFailed? ||
                     (file.value.mimetype != "application/pdf" && !StartsWith(file.value.mimetype, "image/")))
    ensures r.Refused? && file.Some? && file.value.mimetype != "application/pdf" &&
            !StartsWith(file.value.mimetype, "image/") ==>
      r.response == Failure(400, UNSUPPORTED_FILE_TYPE)
    ensures r.Refused? && (file.value.mimetype == "application/pdf" || StartsWith(file.value.mimetype, "image/")) ==>
      r.response == Failure(500, FILE_UPLOAD_FAILED)
    ensures r.Routed? && file.Some? && file.value.mimetype == "application/pdf" ==>
      r == Routed(p.profilePhoto, Some(upload.secureUrl), Some(file.value.originalname))
    ensures r.Routed? && file.Some? && file.value.mimetype != "application/pdf" ==>
      r == Routed(Some(upload.secureUrl), p.resume, p.resumeOriginalName)
  {
    if file.None? then Routed(p.profilePhoto, p.resume, p.resumeOriginalName)
    else if file.value.mimetype == "application/pdf" then
      if upload.UploadFailed? then Refused(Failure(500, FILE_UPLOAD_FAILED))
      else Routed(p.profilePhoto, Some(upload.secureUrl), Some(file.value.originalname))
    else if StartsWith(file.value.mimetype, "image/") then
      if upload.UploadFailed? then Refused(Failure(500, FILE_UPLOAD_FAILED))
      else Routed(Some(upload.secureUrl), p.resume, p.resumeOriginalName)
    else Refused(Failure(400, UNSUPPORTED_FILE_TYPE))
  }

  /** The response updateProfile sends and the collection afterwards. */
  function UpdateProfileOutcome(users: seq<User>, userId: UserId, req: ProfileRequest,
                                file: Option<File>, upload: UploadOutcome): (r: (Response, seq<User>))
    ensures !r.0.success ==> r.1 == users
    ensures userId >= |users| ==> r.0 == Failure(400, USER_NOT_FOUND)
    // a refused file step answers with its own 400 or 500 response
    ensures userId < |users| && RouteFile(users[userId].profile, file, upload).Refused? ==>
      r.0 == RouteFile(users[userId].profile, file, upload).response
    ensures r.0.success <==> userId < |users| && RouteFile(users[userId].profile, file, upload).Routed?
    // success changes the one record, and only as the merge and the upload say
    ensures r.0.success ==>
      && r.0.status == 200 && r.0.message == PROFILE_UPDATED && r.0.cookie.None?
      && |r.1| == |users|
      && (forall i :: 0 <= i < |users| && i != userId ==> r.1[i] == users[i])
      && r.0.user == Some(r.1[userId])
      && var route := RouteFile(users[userId].profile, file, upload);
      && var merged := MergeFields(users[userId], req);
      && r.1[userId] == merged.(profile := merged.profile.(
           profilePhoto := route.profilePhoto, resume := route.resume,
           resumeOriginalName := route.resumeOriginalName))
  {
    if userId >= |users| then (Failure(400, USER_NOT_FOUND), users)
    else
      match RouteFile(users[userId].profile, file, upload)
      case Refused(response) => (response, users)
      case Routed(photo, resume, name) =>
        var merged := MergeFields(users[userId], req);
        var u := merged.(profile := merged.profile.(
          profilePhoto := photo, resume := resume, resumeOriginalName := name));
        (Response(200, PROFILE_UPDATED, true, None, Some(u)), users[userId := u])
  }

  /** updateProfile keeps ids equal to positions, and no record's digest or role changes. */
  lemma UpdateProfileKeepsIdentity(users: seq<User>, userId: UserId, req: ProfileRequest,
                                   file: Option<File>, upload: UploadOutcome)
    requires IdsArePositions(users)
    ensures var after := UpdateProfileOutcome(users, userId, req, file, upload).1;
      && IdsArePositions(after) && |after| == |users|
      && forall i :: 0 <= i < |users| ==> after[i].password == users[i].password && after[i].role == users[i].role
  {
  }

  /** A request whose every field is empty or absent, with no file, saves the record unchanged. */
  lemma UpdateProfileEmptyRequest(users: seq<User>, userId: UserId, req: ProfileRequest)
    requires userId < |users|
    requires !Truthy(req.fullname) && !Truthy(req.email) && !Truthy(req.phoneNumber)
    requires !Truthy(req.bio) && !Truthy(req.skills)
    ensures UpdateProfileOutcome(users, userId, req, None, UploadFailed).1 == users
  {
    var r := UpdateProfileOutcome(users, userId, req, None, UploadFailed);
    assert r.1[userId] == users[userId];
  }

  /** Sending the same update twice leaves what the first one saved. */
  lemma UpdateProfileIdempotent(users: seq<User>, userId: UserId, req: ProfileRequest,
                                file: Option<File>, upload: UploadOutcome)
    requires UpdateProfileOutcome(users, userId, req, file, upload).0.success
    ensures var once := UpdateProfileOutcome(users, userId, req, file, upload).1;
      UpdateProfileOutcome(once, userId, req, file, upload).1 == once
  {
    var once := UpdateProfileOutcome(users, userId, req, file, upload).1;
    var twice := UpdateProfileOutcome(once, userId, req, file, upload);
    if Truthy(req.skills) {
      assert once[userId].profile.skills == Split(req.skills.value, ',');
    }
    assert twice.1[userId] == once[userId];
  }

  /** updateProfile makes no uniqueness check: it can give two records the same email. */
  lemma UpdateProfileMayDuplicateEmail()
    ensures exists users: seq<User>, req: ProfileRequest ::
      UniqueEmails(users) && !UniqueEmails(UpdateProfileOutcome(users, 1, req, None, UploadFailed).1)
  {
    var p := Profile(None, [], None, None, None);
    var users := [User(0, "A", "a@x.com", "1", "h", "student", p), User(1, "B", "b@x.com", "2", "h", "student", p)];
    var req := ProfileRequest(None, Some("a@x.com"), None, None, None);
    var after := UpdateProfileOutcome(users, 1, req, None, UploadFailed).1;
    assert after[1].email == "a@x.com" && after[0].email == "a@x.com";
  }

  // ---------------------------------------------------------------------------
  // The store the handlers write to

  class UserStore {
    var users: seq<User>

    ghost predicate Valid()
      reads this
    {
      IdsArePositions(users)
    }

    constructor ()
      ensures Valid() && users == []
    {
      users := [];
    }

    /** register: early returns for each refusal, then the one insert. */
    method Register(req: RegisterRequest, file: Option<File>, upload: UploadOutcome,
                    hasher: Hasher, salt: Salt) returns (res: Response)
      requires Valid()
      modifies this
      ensures Valid()
      ensures (res, users) == RegisterOutcome(old(users), req, file, upload, hasher, salt)
      ensures !res.success ==> users == old(users)
    {
      var fullname, email, phoneNumber, password, role := req.fullname, req.email, req.phoneNumber, req.password, req.role;
      if !Truthy(fullname) || !Truthy(email) || !Truthy(phoneNumber) || !Truthy(password) || !Truthy(role) {
        return Failure(400, ALL_FIELDS_REQUIRED);
      }
      var existingUser := FindByEmail(users, email.value);
      if existingUser.Some? {
        return Failure(400, USER_EXISTS);
      }
      var hashedPassword := hasher.hash(password.value, SALT_ROUNDS, salt);
      var profilePhoto: Option<string> := None;
      if file.Some? {
        if StartsWith(file.value.mimetype, "image/") {
          if upload.UploadFailed? {
            return Failure(500, INTERNAL_SERVER_ERROR);
          }
          profilePhoto := Some(upload.secureUrl);
        } else {
          return Failure(400, UNSUPPORTED_FILE_TYPE);
        }
      }
      var user := NewUser(|users|, req, hashedPassword, profilePhoto);
      users := users + [user];
      RegisterKeepsIds(old(users), req, file, upload, hasher, salt);
      res := Response(201, ACCOUNT_CREATED, true, None, None);
    }

    /**
     * updateProfile: look the record up, let the upload step reassign the
     * three file fields, overwrite the truthy fields one by one, then save.
     */
    method UpdateProfile(userId: UserId, req: ProfileRequest, file: Option<File>,
                         upload: UploadOutcome) returns (res: Response)
      requires Valid()
      modifies this
      ensures Valid()
      ensures (res, users) == UpdateProfileOutcome(old(users), userId, req, file, upload)
      ensures !res.success ==> users == old(users)
    {
      if userId >= |users| {
        return Failure(400, USER_NOT_FOUND);
      }
      var user := users[userId];
      var profilePhoto := user.profile.profilePhoto;
      var resume := user.profile.resume;
      var resumeOriginalName := user.profile.resumeOriginalName;
      if file.Some? {
        var fileType := file.value.mimetype;
        if fileType == "application/pdf" {
          if upload.UploadFailed? {
            return Failure(500, FILE_UPLOAD_FAILED);
          }
          resume := Some(upload.secureUrl);
          resumeOriginalName := Some(file.value.originalname);
        } else if StartsWith(fileType, "image/") {
          if upload.UploadFailed? {
            return Failure(500, FILE_UPLOAD_FAILED);
          }
          profilePhoto := Some(upload.secureUrl);
        } else {
          return Failure(400, UNSUPPORTED_FILE_TYPE);
        }
      }
      if Truthy(req.fullname) { user := user.(fullname := req.fullname.value); }
      if Truthy(req.email) { user := user.(email := req.email.value); }
      if Truthy(req.phoneNumber) { user := user.(phoneNumber := req.phoneNumber.value); }
      if Truthy(req.bio) { user := user.(profile := user.profile.(bio := req.bio)); }
      if Truthy(req.skills) { user := user.(profile := user.profile.(skills := Split(req.skills.value, ','))); }
      assert user == MergeFields(users[userId], req);
      assert RouteFile(users[userId].profile, file, upload) == Routed(profilePhoto, resume, resumeOriginalName);
      user := user.(profile := user.profile.(
        profilePhoto := profilePhoto, resume := resume, resumeOriginalName := resumeOriginalName));
      users := users[userId := user];
      res := Response(200, PROFILE_UPDATED, true, None, Some(user));
    }
  }
}
