/**
 * `registerUser` (src/controllers/user.controller.js): a fixed sequence of
 * checks in front of one insert into the user collection, wrapped by
 * `asyncHandler`.
 *
 * What the handler cannot decide by itself is an input: the URLs the media
 * store returns for the two uploads, whether the database rejects the create
 * (and with which message), and whether the re-fetch after the create sees the
 * new record.
 */
module UserController {
  import opened Wrappers
  import opened JsString
  import opened ApiTypes
  import opened AsyncHandler
  import opened UserModel

  const AllFieldsRequired := "All fields are required"
  const UserAlreadyExists := "User with the email or username is already exist"
  const AvatarRequired := "Avatar image is required"
  const UploadFailed := "Internal cloudinary upload error"
  const DatabaseError := "Internal database error"
  /** V8's TypeError message for `undefined[0]`. */
  const ReadIndexOfUndefined := "Cannot read properties of undefined (reading '0')"
  /** V8's TypeError message for `undefined.toLowerCase()`. */
  const ReadToLowerCaseOfUndefined := "Cannot read properties of undefined (reading 'toLowerCase')"

  /** `req.body`: each text field may be absent. */
  datatype Body = Body(fullName: Option<string>, username: Option<string>, email: Option<string>, password: Option<string>)

  /** One uploaded file as the multipart middleware describes it. */
  datatype FileEntry = FileEntry(path: Option<string>)

  /** `req.files`: absent, or an object whose `avatar` / `coverImage` keys may be missing. */
  datatype Files =
    | NoFiles
    | Files(avatar: Option<seq<FileEntry>>, coverImage: Option<seq<FileEntry>>)

  datatype Request = Request(body: Body, files: Files)

  /** What the media store and the database answer. */
  datatype External = External(
    avatarUrl: Option<string>,    // `uploadOnCloudinary(avatarPath)`: the url, or nothing
    coverUrl: Option<string>,     // the same for the cover image, when one is uploaded
    lookupError: Option<string>,  // `User.findOne` rejects with this message
    createError: Option<string>,  // `User.create` rejects with this message
    refetchError: Option<string>, // `User.findById` after the create rejects with this message
    refetchSees: bool)            // otherwise, whether it resolves to the record rather than null

  /** One run of the handler: how its promise settles, the local paths it uploaded, the record it stored. */
  datatype Run = Run(settled: Settled<PublicUser>, uploads: seq<string>, created: Option<User>)

  function Fields(b: Body): seq<Option<string>>
  {
    [b.fullName, b.username, b.email, b.password]
  }

  /** `field?.trim() === ""`: an absent field is never blank. */
  predicate IsBlank(field: Option<string>)
  {
    field.Some? && Trim(field.value) == []
  }

  /** `fields.some((field) => field?.trim() === "")`. */
  function AnyBlank(fields: seq<Option<string>>): (b: bool)
    ensures b <==> exists i :: 0 <= i < |fields| && fields[i].Some? &&
                     forall k :: 0 <= k < |fields[i].value| ==> IsWhiteSpace(fields[i].value[k])
  {
    if fields == [] then false
    else
      assert forall i :: 1 <= i < |fields| ==> fields[i] == fields[1..][i - 1];
      IsBlank(fields[0]) || AnyBlank(fields[1..])
  }

  /** JavaScript truthiness of an optional string: present and non-empty. */
  predicate Truthy(s: Option<string>)
  {
    s.Some? && s.value != []
  }

  /** `req.files?.avatar[0]?.path`: reading index 0 of a missing `avatar` key throws. */
  datatype AvatarLookup = AvatarPath(path: Option<string>) | AvatarKeyMissing

  function AvatarLocalPath(files: Files): (r: AvatarLookup)
  {
    match files
    case NoFiles => AvatarPath(None)
    case Files(None, _) => AvatarKeyMissing
    case Files(Some(entries), _) => AvatarPath(if entries == [] then None else entries[0].path)
  }

  /** `coverImageLocalPath`: the first cover entry's path, when `coverImage` is a non-empty array. */
  function CoverImageLocalPath(files: Files): (r: Option<string>)
  {
    if files.Files? && files.coverImage.Some? && |files.coverImage.value| > 0
    then files.coverImage.value[0].path
    else None
  }

  /** The records a run appends to the collection. */
  function CreatedRecords(run: Run): (s: seq<User>)
  {
    if run.created.Some? then [run.created.value] else []
  }

  /**
   * The registration handler on a collection `users` whose next id is `nextId`.
   * A record is stored exactly when the run reaches `User.create` and the create is
   * accepted; such a run fails only at the re-fetch, and otherwise succeeds with
   * status 201 carrying the stored record without its secrets.
   */
  function Registration(users: seq<User>, nextId: nat, req: Request, ext: External): (run: Run)
    ensures run.created.Some? <==> ReachesCreate(users, req, ext)
    ensures run.settled.Resolved? ==> run.created.Some?
    ensures run.created.Some? && run.settled.Rejected? ==>
              run.settled.error == (if ext.refetchError.Some? then RuntimeError(ext.refetchError.value)
                                    else ApiError(500, DatabaseError))
    ensures run.settled.Resolved? ==>
              run.settled.response == Response(201, ApiResponse(201, Public(run.created.value)))
    ensures run.created.Some? ==>
              var u := run.created.value;
              u.id == nextId && req.body.username.Some? && u.username == ToLower(req.body.username.value) &&
              u.fullName == req.body.fullName && u.email == req.body.email && u.password == req.body.password &&
              ext.avatarUrl == Some(u.avatar) && u.refreshToken.None?
    ensures run.uploads != [] ==>
              AvatarLocalPath(req.files).AvatarPath? && Truthy(AvatarLocalPath(req.files).path) && run.uploads[0] == AvatarLocalPath(req.files).path.value
  {
    var b := req.body;
    if AnyBlank(Fields(b)) then
      Run(Rejected(ApiError(400, AllFieldsRequired)), [], None)
    else if ext.lookupError.Some? then
      Run(Rejected(RuntimeError(ext.lookupError.value)), [], None)
    else if exists i :: 0 <= i < |users| && Matches(users[i], b.username, b.email) then
      Run(Rejected(ApiError(409, UserAlreadyExists)), [], None)
    else match AvatarLocalPath(req.files)
      case AvatarKeyMissing => Run(Rejected(RuntimeError(ReadIndexOfUndefined)), [], None)
      case AvatarPath(avatarPath) =>
        var coverPath := CoverImageLocalPath(req.files);
        if !Truthy(avatarPath) then
          Run(Rejected(ApiError(400, AvatarRequired)), [], None)
        else
          var uploads := [avatarPath.value] + (if Truthy(coverPath) then [coverPath.value] else []);
          var coverImage := if Truthy(coverPath) && ext.coverUrl.Some? then ext.coverUrl.value else "";
          if ext.avatarUrl.None? then
            Run(Rejected(ApiError(500, UploadFailed)), uploads, None)
          else if b.username.None? then
            Run(Rejected(RuntimeError(ReadToLowerCaseOfUndefined)), uploads, None)
          else if ext.createError.Some? then
            Run(Rejected(RuntimeError(ext.createError.value)), uploads, None)
          else
            var user := User(nextId, b.fullName, ToLower(b.username.value), b.email, b.password,
                             ext.avatarUrl.value, coverImage, None);
            if ext.refetchError.Some? then
              Run(Rejected(RuntimeError(ext.refetchError.value)), uploads, Some(user))
            else if !ext.refetchSees then
              Run(Rejected(ApiError(500, DatabaseError)), uploads, Some(user))
            else
              Run(Resolved(Response(201, ApiResponse(201, Public(user)))), uploads, Some(user))
  }

  /**
   * The handler passed to `asyncHandler`, step by step against the store:
   * it settles as `Registration` says and appends exactly the records it says.
   */
  method RegisterUser(store: UserStore, req: Request, ext: External)
    returns (settled: Settled<PublicUser>, uploads: seq<string>)
    requires store.Valid()
    modifies store
    ensures store.Valid()
    ensures var run := Registration(old(store.users), old(store.nextId), req, ext);
      settled == run.settled && uploads == run.uploads &&
      store.users == old(store.users) + CreatedRecords(run) &&
      store.nextId == old(store.nextId) + |CreatedRecords(run)|
  {
    uploads := [];
    var body := req.body;
    if AnyBlank([body.fullName, body.username, body.email, body.password]) {
      settled := Rejected(ApiError(400, AllFieldsRequired));
      return;
    }

    if ext.lookupError.Some? {
      settled := Rejected(RuntimeError(ext.lookupError.value));
      return;
    }
    var existedUser := store.FindOne(body.username, body.email);
    if existedUser.Some? {
      settled := Rejected(ApiError(409, UserAlreadyExists));
      return;
    }

    var avatarLocalPath: Option<string> := None;
    if req.files.Files? {
      if req.files.avatar.None? {
        settled := Rejected(RuntimeError(ReadIndexOfUndefined));
        return;
      }
      var entries := req.files.avatar.value;
      if entries != [] {
        avatarLocalPath := entries[0].path;
      }
    }

    var coverImageLocalPath: Option<string> := None;
    if req.files.Files? && req.files.coverImage.Some? && |req.files.coverImage.value| > 0 {
      coverImageLocalPath := req.files.coverImage.value[0].path;
    }

    if !Truthy(avatarLocalPath) {
      settled := Rejected(ApiError(400, AvatarRequired));
      return;
    }

    uploads := [avatarLocalPath.value];
    var avatar := ext.avatarUrl;
    var coverImage: Option<string> := None;
    if Truthy(coverImageLocalPath) {
      uploads := uploads + [coverImageLocalPath.value];
      coverImage := ext.coverUrl;
    }

    if avatar.None? {
      settled := Rejected(ApiError(500, UploadFailed));
      return;
    }
    if body.username.None? {
      settled := Rejected(RuntimeError(ReadToLowerCaseOfUndefined));
      return;
    }
    if ext.createError.Some? {
      settled := Rejected(RuntimeError(ext.createError.value));
      return;
    }

    var user := store.Create(body.fullName, ToLower(body.username.value), body.email, body.password,
                             avatar.value, if coverImage.Some? then coverImage.value else "");

    if ext.refetchError.Some? {
      settled := Rejected(RuntimeError(ext.refetchError.value));
      return;
    }
    var createdUser: Option<PublicUser> := None;
    if ext.refetchSees {
      createdUser := store.FindById(user.id);
      assert store.users[|store.users| - 1] == user;
      if createdUser.Some? {
        var i :| 0 <= i < |store.users| && store.users[i].id == user.id && createdUser.value == Public(store.users[i]);
        assert i == |store.users| - 1;
      }
    }
    if createdUser.None? {
      settled := Rejected(ApiError(500, DatabaseError));
      return;
    }
    settled := Resolved(Response(201, ApiResponse(201, createdUser.value)));
  }

  /** The exported `registerUser = asyncHandler(handler)`: what the client receives. */
  method RegisterUserRoute(store: UserStore, req: Request, ext: External) returns (response: Response<PublicUser>)
    requires store.Valid()
    modifies store
    ensures store.Valid()
    ensures var run := Registration(old(store.users), old(store.nextId), req, ext);
      response == Respond(run.settled) &&
      store.users == old(store.users) + CreatedRecords(run)
  {
    var settled, _ := RegisterUser(store, req, ext);
    response := Respond(settled);
  }

  // ---------------------------------------------------------------------------
  // Properties of a registration run

  /** No stored record matches the request's username or email. */
  predicate NoDuplicate(users: seq<User>, b: Body)
  {
    forall i :: 0 <= i < |users| ==> !Matches(users[i], b.username, b.email)
  }

  /** The request gets past the blank-field, duplicate and avatar checks and reaches the uploads. */
  predicate ReachesUpload(users: seq<User>, req: Request, ext: External)
  {
    !AnyBlank(Fields(req.body)) && ext.lookupError.None? && NoDuplicate(users, req.body) &&
    req.files.Files? && req.files.avatar.Some? && req.files.avatar.value != [] &&
    Truthy(req.files.avatar.value[0].path)
  }

  /** The request also survives the uploads and `username.toLowerCase()`, and `User.create` accepts it. */
  predicate ReachesCreate(users: seq<User>, req: Request, ext: External)
  {
    ReachesUpload(users, req, ext) && ext.avatarUrl.Some? && req.body.username.Some? && ext.createError.None?
  }

  /**
   * A present field made only of white space fails with 400 before the store is
   * consulted: the run is the same whatever the store holds and whatever the
   * media store or the database would answer.
   */
  lemma BlankFieldRejectedFirst(users: seq<User>, nextId: nat, other: seq<User>, otherId: nat,
                                req: Request, ext: External, otherExt: External, k: nat)
    requires k < 4 && Fields(req.body)[k].Some?
    requires forall c :: 0 <= c < |Fields(req.body)[k].value| ==> IsWhiteSpace(Fields(req.body)[k].value[c])
    ensures Registration(users, nextId, req, ext) == Run(Rejected(ApiError(400, AllFieldsRequired)), [], None)
    ensures Registration(users, nextId, req, ext) == Registration(other, otherId, req, otherExt)
  {
    assert AnyBlank(Fields(req.body));
  }

  /**
   * An absent field passes the blank-field test: with no username, a request that
   * gets through the other checks and the avatar upload fails only when
   * `username.toLowerCase()` is evaluated, after its files were uploaded.
   */
  lemma MissingUsernameFailsAtLowerCase(users: seq<User>, nextId: nat, req: Request, ext: External)
    requires req.body.username.None?
    requires ReachesUpload(users, req, ext) && ext.avatarUrl.Some?
    ensures !IsBlank(req.body.username)
    ensures var run := Registration(users, nextId, req, ext);
      run.settled == Rejected(RuntimeError(ReadToLowerCaseOfUndefined)) &&
      run.uploads != [] && run.created.None?
  {
  }

  /** A stored record with the same username (as supplied) or the same email gives 409, no upload, no record. */
  lemma DuplicateRejected(users: seq<User>, nextId: nat, req: Request, ext: External, i: nat)
    requires !AnyBlank(Fields(req.body)) && ext.lookupError.None?
    requires i < |users| && Matches(users[i], req.body.username, req.body.email)
    ensures Registration(users, nextId, req, ext) == Run(Rejected(ApiError(409, UserAlreadyExists)), [], None)
  {
  }

  /**
   * No files object, an empty avatar array or a first avatar entry without a usable
   * path gives 400 "Avatar image is required", after the two earlier checks and before any upload.
   */
  lemma AvatarPathRequired(users: seq<User>, nextId: nat, req: Request, ext: External)
    requires !AnyBlank(Fields(req.body)) && ext.lookupError.None? && NoDuplicate(users, req.body)
    requires req.files.NoFiles? ||
             (req.files.avatar.Some? && (req.files.avatar.value == [] || !Truthy(req.files.avatar.value[0].path)))
    ensures Registration(users, nextId, req, ext) == Run(Rejected(ApiError(400, AvatarRequired)), [], None)
  {
  }

  /** A files object without an `avatar` key makes `req.files?.avatar[0]` throw a TypeError. */
  lemma MissingAvatarKeyThrows(users: seq<User>, nextId: nat, req: Request, ext: External)
    requires !AnyBlank(Fields(req.body)) && ext.lookupError.None? && NoDuplicate(users, req.body)
    requires req.files.Files? && req.files.avatar.None?
    ensures Registration(users, nextId, req, ext) == Run(Rejected(RuntimeError(ReadIndexOfUndefined)), [], None)
  {
  }

  /**
   * Once the uploads are reached, the avatar is uploaded first; the cover image is
   * uploaded only when `coverImage` is a non-empty array whose first entry has a
   * usable path, and otherwise a stored record's cover image is "".
   */
  lemma CoverImageOnlyFromNonEmptyArray(users: seq<User>, nextId: nat, req: Request, ext: External)
    requires ReachesUpload(users, req, ext)
    ensures var run := Registration(users, nextId, req, ext);
      var cover := req.files.coverImage;
      var hasCover := cover.Some? && cover.value != [] && Truthy(cover.value[0].path);
      run.uploads[0] == req.files.avatar.value[0].path.value &&
      |run.uploads| == (if hasCover then 2 else 1) &&
      (hasCover ==> run.uploads[1] == cover.value[0].path.value) &&
      (run.created.Some? ==>
         run.created.value.coverImage == (if hasCover && ext.coverUrl.Some? then ext.coverUrl.value else ""))
  {
  }

  /** An avatar upload that returns nothing gives 500 and no record, after the cover upload was attempted. */
  lemma AvatarUploadFailure(users: seq<User>, nextId: nat, req: Request, ext: External)
    requires ReachesUpload(users, req, ext) && ext.avatarUrl.None?
    ensures var run := Registration(users, nextId, req, ext);
      run.settled == Rejected(ApiError(500, UploadFailed)) && run.created.None? &&
      run.uploads == [req.files.avatar.value[0].path.value] +
                     (if Truthy(CoverImageLocalPath(req.files)) then [CoverImageLocalPath(req.files).value] else [])
  {
  }

  /** Registration succeeds exactly when every check passes, every upload and database step works. */
  lemma SucceedsIff(users: seq<User>, nextId: nat, req: Request, ext: External)
    ensures Registration(users, nextId, req, ext).settled.Resolved? <==>
              ReachesCreate(users, req, ext) && ext.refetchError.None? && ext.refetchSees
  {
  }

  /** A re-fetch that sees nothing gives 500 "Internal database error", yet the record stays stored. */
  lemma RefetchMissKeepsRecord(users: seq<User>, nextId: nat, req: Request, ext: External)
    requires ReachesCreate(users, req, ext) && ext.refetchError.None? && !ext.refetchSees
    ensures var run := Registration(users, nextId, req, ext);
      run.settled == Rejected(ApiError(500, DatabaseError)) && run.created.Some?
  {
  }

  /**
   * A rejected `User.findOne` fails the run with the driver's message before any
   * upload and without a record; the client sees it as 500 with that message.
   */
  lemma LookupRejectionReported(users: seq<User>, nextId: nat, req: Request, ext: External)
    requires !AnyBlank(Fields(req.body)) && ext.lookupError.Some?
    ensures var run := Registration(users, nextId, req, ext);
      run == Run(Rejected(RuntimeError(ext.lookupError.value)), [], None) &&
      Respond(run.settled) == Response(500, ErrorBody(false, ext.lookupError.value))
  {
  }

  /**
   * A rejected re-fetch fails the run with the driver's message, not
   * "Internal database error", and the created record stays stored.
   */
  lemma RefetchRejectionKeepsRecord(users: seq<User>, nextId: nat, req: Request, ext: External)
    requires ReachesCreate(users, req, ext) && ext.refetchError.Some?
    ensures var run := Registration(users, nextId, req, ext);
      run.settled == Rejected(RuntimeError(ext.refetchError.value)) && run.created.Some?
  {
  }

  /**
   * Through `asyncHandler` the client sees 201 only on success; every failure,
   * the 400 and 409 ones included, arrives as 500 carrying the thrown message.
   */
  lemma ClientSeesEveryFailureAs500(users: seq<User>, nextId: nat, req: Request, ext: External)
    ensures var run := Registration(users, nextId, req, ext);
      var response := Respond(run.settled);
      (response.status == 201 <==> run.settled.Resolved?) &&
      (response.status != 201 ==> response.status == 500) &&
      (run.settled.Rejected? ==> response.body == ErrorBody(false, run.settled.error.message))
  {
  }

  /** A blank field reaches the client as status 500 with the 400 error's message. */
  lemma BlankFieldSeenAs500(users: seq<User>, nextId: nat, req: Request, ext: External)
    requires AnyBlank(Fields(req.body))
    ensures Respond(Registration(users, nextId, req, ext).settled) ==
              Response(500, ErrorBody(false, AllFieldsRequired))
  {
  }

  /** A duplicate reaches the client as status 500 with the 409 error's message. */
  lemma DuplicateSeenAs500(users: seq<User>, nextId: nat, req: Request, ext: External)
    requires !AnyBlank(Fields(req.body)) && ext.lookupError.None? && !NoDuplicate(users, req.body)
    ensures Respond(Registration(users, nextId, req, ext).settled) ==
              Response(500, ErrorBody(false, UserAlreadyExists))
  {
  }

  // ---------------------------------------------------------------------------
  // Uniqueness of the stored identities

  ghost predicate EmailsDistinct(users: seq<User>)
  {
    forall i, j :: 0 <= i < j < |users| && users[i].email.Some? ==> users[i].email != users[j].email
  }

  ghost predicate UsernamesDistinct(users: seq<User>)
  {
    forall i, j :: 0 <= i < j < |users| ==> users[i].username != users[j].username
  }

  /** Registration never stores a second record with an email already stored. */
  lemma RegistrationKeepsEmailsDistinct(users: seq<User>, nextId: nat, req: Request, ext: External)
    requires EmailsDistinct(users)
    ensures EmailsDistinct(users + CreatedRecords(Registration(users, nextId, req, ext)))
  {
    var run := Registration(users, nextId, req, ext);
    if run.created.Some? {
      var all := users + [run.created.value];
      assert NoDuplicate(users, req.body);
      forall i, j | 0 <= i < j < |all| && all[i].email.Some? ensures all[i].email != all[j].email {
        if j == |users| {
          assert !Matches(users[i], req.body.username, req.body.email);
        }
      }
    }
  }

  /** A username with no upper-case letter is stored as supplied, so it cannot collide with a stored one. */
  lemma LowerCaseRegistrationKeepsUsernamesDistinct(users: seq<User>, nextId: nat, req: Request, ext: External)
    requires UsernamesDistinct(users)
    requires req.body.username.Some? ==>
               forall k :: 0 <= k < |req.body.username.value| ==> !('A' <= req.body.username.value[k] <= 'Z')
    ensures UsernamesDistinct(users + CreatedRecords(Registration(users, nextId, req, ext)))
  {
    var run := Registration(users, nextId, req, ext);
    if run.created.Some? {
      ToLowerFixedIff(req.body.username.value);
      var all := users + [run.created.value];
      assert NoDuplicate(users, req.body);
      forall i, j | 0 <= i < j < |all| ensures all[i].username != all[j].username {
        if j == |users| {
          assert !Matches(users[i], req.body.username, req.body.email);
        }
      }
    }
  }

  /**
   * The duplicate check compares the username as supplied while the record stores it
   * lower-cased: a request whose username lowers to a stored one (and so differs from
   * it only in case) succeeds and leaves two records with that username.
   */
  lemma CaseVariantDuplicatesUsername(users: seq<User>, nextId: nat, req: Request, ext: External, i: nat)
    requires ReachesCreate(users, req, ext) && ext.refetchError.None? && ext.refetchSees
    requires i < |users| && users[i].username == ToLower(req.body.username.value)
    ensures Registration(users, nextId, req, ext).settled.Resolved?
    ensures !UsernamesDistinct(users + CreatedRecords(Registration(users, nextId, req, ext)))
  {
    SucceedsIff(users, nextId, req, ext);
    var all := users + CreatedRecords(Registration(users, nextId, req, ext));
    assert all[i].username == all[|users|].username;
  }
}
