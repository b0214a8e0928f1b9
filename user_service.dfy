/** The back-office user service of internal/app/admin/user/service.go:
    validation order and partial-update construction over an abstract
    repository. The repository is a value of answer functions, one per
    interface method, and every flow also returns the repository calls it
    made, in order, so that "before any repository call" and "without
    writing" are statements about that list. */
module UserService {
  import opened Wrappers
  import Strs
  import Http
  import Bcrypt
  import opened UserRole

  /** The stored user row; times are whole seconds. */
  datatype User = User(
    uid: string,
    username: string,
    email: string,
    password: Bcrypt.PasswordHash,
    role: Role,
    isActive: bool,
    isDeleted: bool,
    createdAt: int,
    updatedAt: int)

  /** Errors as the service passes them on: its own validation error, the
      ORM's not-found error, any other error, and an error wrapping another. */
  datatype Error =
    | Validation(msg: string)
    | RecordNotFound
    | Other(msg: string)
    | Wrapped(msg: string, inner: Error)
  {
    function Message(): string {
      match this
      case Validation(m) => m
      case RecordNotFound => "record not found"
      case Other(m) => m
      case Wrapped(m, _) => m
    }
  }

  /** The number of errors in the chain: the error and all it wraps. */
  function Depth(e: Error): (d: nat)
    ensures d >= 1
  {
    match e
    case Wrapped(_, inner) => 1 + Depth(inner)
    case _ => 1
  }

  /** The n-th error of the chain, outermost first. */
  function Unwrap(e: Error, n: nat): Error
    requires n < Depth(e)
  {
    if n == 0 then e else Unwrap(e.inner, n - 1)
  }

  /** Some error in e's chain is a ValidationError. */
  ghost predicate ChainHasValidation(e: Error) {
    exists n :: 0 <= n < Depth(e) && Unwrap(e, n).Validation?
  }

  /** Some error in e's chain is gorm's record-not-found error. */
  ghost predicate ChainHasRecordNotFound(e: Error) {
    exists n :: 0 <= n < Depth(e) && Unwrap(e, n).RecordNotFound?
  }

  /** IsValidationError (errors.As): some error in the chain is a
      ValidationError. */
  function IsValidationError(e: Error): (b: bool)
    ensures b <==> ChainHasValidation(e)
  {
    match e
    case Validation(_) =>
      assert Unwrap(e, 0).Validation?;
      true
    case Wrapped(_, inner) =>
      var b := IsValidationError(inner);
      if b then
        var n :| 0 <= n < Depth(inner) && Unwrap(inner, n).Validation?;
        assert Unwrap(e, n + 1) == Unwrap(inner, n);
        assert Unwrap(e, n + 1).Validation?;
        b
      else
        assert forall n :: 1 <= n < Depth(e) ==> Unwrap(e, n) == Unwrap(inner, n - 1);
        b
    case _ => false
  }

  /** errors.Is(err, gorm.ErrRecordNotFound): some error in the chain is it. */
  function IsRecordNotFound(e: Error): (b: bool)
    ensures b <==> ChainHasRecordNotFound(e)
  {
    match e
    case RecordNotFound =>
      assert Unwrap(e, 0).RecordNotFound?;
      true
    case Wrapped(_, inner) =>
      var b := IsRecordNotFound(inner);
      if b then
        var n :| 0 <= n < Depth(inner) && Unwrap(inner, n).RecordNotFound?;
        assert Unwrap(e, n + 1) == Unwrap(inner, n);
        assert Unwrap(e, n + 1).RecordNotFound?;
        b
      else
        assert forall n :: 1 <= n < Depth(e) ==> Unwrap(e, n) == Unwrap(inner, n - 1);
        b
    case _ => false
  }

  /** A value in the partial-update map. */
  datatype Field = Str(s: string) | Flag(b: bool) | Time(t: int)

  /** The columns an update may set, by their column names. */
  datatype Column = EmailColumn | RoleColumn | IsActiveColumn | UpdatedAtColumn {
    function Name(): string {
      match this
      case EmailColumn => "email"
      case RoleColumn => "role"
      case IsActiveColumn => "is_active"
      case UpdatedAtColumn => "updated_at"
    }
  }

  type Updates = map<Column, Field>

  /** The Repository interface: what each method answers. */
  datatype Repository = Repository(
    list: (int, int, string, string) -> Result<(seq<User>, int), Error>,
    create: User -> Option<Error>,
    getByUID: string -> Result<User, Error>,
    updateByUID: (string, Updates) -> Option<Error>,
    softDeleteByUID: string -> Option<Error>,
    existsByUsername: string -> Result<bool, Error>,
    existsByEmail: string -> Result<bool, Error>,
    existsByEmailExcludeUID: (string, string) -> Result<bool, Error>)

  /** A repository call that only reads, with its arguments. */
  datatype Query =
    | ListQuery(page: int, size: int, role: string, keyword: string)
    | GetByUIDQuery(uid: string)
    | ExistsByUsernameQuery(username: string)
    | ExistsByEmailQuery(email: string)
    | ExistsByEmailExcludeUIDQuery(email: string, excludeUid: string)

  /** A repository call that changes rows, with its arguments. */
  datatype Write =
    | CreateWrite(user: User)
    | UpdateByUIDWrite(uid: string, updates: Updates)
    | SoftDeleteByUIDWrite(uid: string)

  /** What a flow did: its queries in order, the one write it made last (if
      any), and the error it returned. */
  datatype Outcome = Outcome(queries: seq<Query>, write: Option<Write>, err: Option<Error>) {
    /** No repository call at all. */
    predicate Untouched() { queries == [] && write.None? }
  }

  const MsgInvalidRole := "role 不合法"
  const MsgUsernameTaken := "用户名已存在"
  const MsgEmailTaken := "邮箱已存在"
  const MsgBlankUid := "uid 不能为空"

  datatype ReadReq = ReadReq(page: Http.PageReq, role: string, keyword: string)

  /** A list row; `id` is the user's uid. */
  datatype ReadRes = ReadRes(id: string, username: string, email: string, role: Role,
                             isActive: bool, createdAt: int, updatedAt: int)

  function ToReadRes(u: User): ReadRes {
    ReadRes(u.uid, u.username, u.email, u.role, u.isActive, u.createdAt, u.updatedAt)
  }

  /** The list rows for the users, in order, each with the user's uid as id. */
  method ToRows(users: seq<User>) returns (out: seq<ReadRes>)
    ensures |out| == |users|
    ensures forall i :: 0 <= i < |out| ==> out[i] == ToReadRes(users[i]) && out[i].id == users[i].uid
  {
    out := [];
    var i := 0;
    while i < |users|
      invariant 0 <= i <= |users|
      invariant |out| == i
      invariant forall k :: 0 <= k < i ==> out[k] == ToReadRes(users[k])
    {
      out := out + [ToReadRes(users[i])];
      i := i + 1;
    }
  }

  /** List: one repository query with the clamped page and size and the
      trimmed role and keyword; then one row per user, in order, with the
      uid as id. A query error is passed on with no rows and total 0. */
  method List(repo: Repository, req: ReadReq) returns (o: Outcome, out: seq<ReadRes>, total: int)
    ensures o.queries == [ListQuery(Http.GetPage(req.page), Http.GetPageSize(req.page),
                                    Strs.TrimSpace(req.role), Strs.TrimSpace(req.keyword))]
    ensures o.write == None
    ensures var r := repo.list(Http.GetPage(req.page), Http.GetPageSize(req.page),
                               Strs.TrimSpace(req.role), Strs.TrimSpace(req.keyword));
            && (r.Err? ==> o.err == Some(r.error) && out == [] && total == 0)
            && (r.Ok? ==>
                  && o.err == None && total == r.value.1 && |out| == |r.value.0|
                  && forall i :: 0 <= i < |out| ==> out[i] == ToReadRes(r.value.0[i]) && out[i].id == r.value.0[i].uid)
  {
    var page := Http.GetPage(req.page);
    var size := Http.GetPageSize(req.page);
    var role, keyword := Strs.TrimSpace(req.role), Strs.TrimSpace(req.keyword);
    var queries := [ListQuery(page, size, role, keyword)];
    var r := repo.list(page, size, role, keyword);
    if r.Err? {
      return Outcome(queries, None, Some(r.error)), [], 0;
    }
    out := ToRows(r.value.0);
    total := r.value.1;
    o := Outcome(queries, None, None);
  }

  datatype CreateReq = CreateReq(username: string, password: string, email: string, role: Role)

  /** The user row Create writes. */
  function NewUser(req: CreateReq, uid: string, hash: Bcrypt.PasswordHash, now: int): User {
    User(uid, req.username, Strs.TrimSpace(req.email), hash, req.role, true, false, now, now)
  }

  /** Create's queries, each made only when the ones before passed: the
      username, then the email as given when its trimmed form is not blank. */
  function CreateQueries(repo: Repository, req: CreateReq): seq<Query> {
    [ExistsByUsernameQuery(req.username)]
    + if repo.existsByUsername(req.username) == Ok(false) && Strs.TrimSpace(req.email) != ""
      then [ExistsByEmailQuery(req.email)] else []
  }

  /** Create: role, then username uniqueness, then (only for an email that
      is not blank) email uniqueness of the email as given, then hashing, then
      one write. `uid`, `salt` and `now` are what the uuid generator, bcrypt
      and the clock supply. */
  function Create(repo: Repository, req: CreateReq, uid: string, salt: string, now: int): (o: Outcome)
    ensures !IsValid(req.role) ==> o.Untouched() && o.err == Some(Validation(MsgInvalidRole))
    ensures IsValid(req.role) ==> o.queries == CreateQueries(repo, req)
    ensures IsValid(req.role) && repo.existsByUsername(req.username).Err? ==>
              o.err == Some(repo.existsByUsername(req.username).error)
    ensures IsValid(req.role) && repo.existsByUsername(req.username) == Ok(true) ==>
              o.err == Some(Validation(MsgUsernameTaken))
    ensures (&& IsValid(req.role) && repo.existsByUsername(req.username) == Ok(false)
             && Strs.TrimSpace(req.email) != "" && repo.existsByEmail(req.email).Err?) ==>
              o.err == Some(repo.existsByEmail(req.email).error)
    ensures (&& IsValid(req.role) && repo.existsByUsername(req.username) == Ok(false)
             && Strs.TrimSpace(req.email) != "" && repo.existsByEmail(req.email) == Ok(true)) ==>
              o.err == Some(Validation(MsgEmailTaken))
    ensures o.write.Some? <==>
              && IsValid(req.role)
              && repo.existsByUsername(req.username) == Ok(false)
              && (Strs.TrimSpace(req.email) == "" || repo.existsByEmail(req.email) == Ok(false))
              && Bcrypt.Utf8Length(req.password) <= Bcrypt.MaxPasswordBytes
    ensures o.write.None? ==> o.err.Some?
    ensures o.write.Some? ==>
              && o.write.value.CreateWrite?
              && var u := o.write.value.user;
                 && o.err == repo.create(u)
                 && u.uid == uid && u.username == req.username && u.role == req.role
                 && u.email == Strs.TrimSpace(req.email)
                 && u.isActive && !u.isDeleted && u.createdAt == u.updatedAt == now
                 && Bcrypt.Matches(u.password, req.password)
  {
    if !IsValid(req.role) then Outcome([], None, Some(Validation(MsgInvalidRole)))
    else
      var queries := CreateQueries(repo, req);
      match repo.existsByUsername(req.username)
      case Err(e) => Outcome(queries, None, Some(e))
      case Ok(true) => Outcome(queries, None, Some(Validation(MsgUsernameTaken)))
      case Ok(false) =>
        var emailErr: Option<Error> :=
          if Strs.TrimSpace(req.email) == "" then None
          else match repo.existsByEmail(req.email)
            case Err(e) => Some(e)
            case Ok(true) => Some(Validation(MsgEmailTaken))
            case Ok(false) => None;
        if emailErr.Some? then Outcome(queries, None, emailErr)
        else match Bcrypt.GenerateFromPassword(req.password, salt)
          case Err(_) => Outcome(queries, None, Some(Other("bcrypt: password length exceeds 72 bytes")))
          case Ok(hash) =>
            var u := NewUser(req, uid, hash, now);
            Outcome(queries, Some(CreateWrite(u)), repo.create(u))
  }

  datatype UpdateReq = UpdateReq(email: string, role: Role, isActive: Option<bool>)

  /** The columns a request supplies: email and role when non-empty, the
      active flag whenever it is given, false included. */
  function SuppliedColumns(req: UpdateReq): set<Column> {
    (if req.email != "" then {EmailColumn} else {})
    + (if req.role != "" then {RoleColumn} else {})
    + (if req.isActive.Some? then {IsActiveColumn} else {})
  }

  /** The values m holds for the supplied columns it has. */
  predicate SuppliedValues(req: UpdateReq, m: Updates) {
    && (EmailColumn in m ==> m[EmailColumn] == Str(Strs.TrimSpace(req.email)))
    && (RoleColumn in m ==> m[RoleColumn] == Str(req.role))
    && (IsActiveColumn in m && req.isActive.Some? ==> m[IsActiveColumn] == Flag(req.isActive.value))
  }

  /** The update map holds exactly the supplied fields. */
  predicate SuppliedOnly(req: UpdateReq, m: Updates) {
    m.Keys == SuppliedColumns(req) && SuppliedValues(req, m)
  }

  /** The map written: the supplied fields plus the update time. */
  predicate UpdatesFor(req: UpdateReq, now: int, m: Updates) {
    && m.Keys == SuppliedColumns(req) + {UpdatedAtColumn}
    && SuppliedValues(req, m)
    && m[UpdatedAtColumn] == Time(now)
  }

  /** The target row exists and is not soft-deleted. */
  predicate Live(repo: Repository, uid: string) {
    repo.getByUID(uid).Ok? && !repo.getByUID(uid).value.isDeleted
  }

  /** A supplied email is free among the other users. */
  predicate EmailFree(repo: Repository, uid: string, req: UpdateReq) {
    req.email == "" || repo.existsByEmailExcludeUID(Strs.TrimSpace(req.email), uid) == Ok(false)
  }

  /** A supplied role is valid. */
  predicate RoleAcceptable(req: UpdateReq) {
    req.role == "" || IsValid(req.role)
  }

  /** At least one field is supplied. */
  predicate AnySupplied(req: UpdateReq) {
    req.email != "" || req.role != "" || req.isActive.Some?
  }

  /** The email query Update makes for a supplied email. */
  function EmailQueries(uid: string, req: UpdateReq): seq<Query> {
    if req.email != "" then [ExistsByEmailExcludeUIDQuery(Strs.TrimSpace(req.email), uid)] else []
  }

  /** The field-by-field part of Update: the email check (the only
      repository call here), then the role check, each adding its field to
      the map, then the active flag. */
  method CollectUpdates(repo: Repository, uid: string, req: UpdateReq) returns (queries: seq<Query>, err: Option<Error>, updates: Updates)
    ensures queries == EmailQueries(uid, req)
    ensures err.None? <==> EmailFree(repo, uid, req) && RoleAcceptable(req)
    ensures req.email != "" && repo.existsByEmailExcludeUID(Strs.TrimSpace(req.email), uid).Err? ==>
              err == Some(repo.existsByEmailExcludeUID(Strs.TrimSpace(req.email), uid).error)
    ensures req.email != "" && repo.existsByEmailExcludeUID(Strs.TrimSpace(req.email), uid) == Ok(true) ==>
              err == Some(Validation(MsgEmailTaken))
    ensures EmailFree(repo, uid, req) && !RoleAcceptable(req) ==> err == Some(Validation(MsgInvalidRole))
    ensures err.None? ==> SuppliedOnly(req, updates)
  {
    queries := [];
    updates := map[];
    if req.email != "" {
      var email := Strs.TrimSpace(req.email);
      queries := [ExistsByEmailExcludeUIDQuery(email, uid)];
      var taken := repo.existsByEmailExcludeUID(email, uid);
      if taken.Err? {
        return queries, Some(taken.error), updates;
      }
      if taken.value {
        return queries, Some(Validation(MsgEmailTaken)), updates;
      }
      updates := updates[EmailColumn := Str(email)];
    }
    if req.role != "" {
      if !IsValid(req.role) {
        return queries, Some(Validation(MsgInvalidRole)), updates;
      }
      updates := updates[RoleColumn := Str(req.role)];
    }
    if req.isActive.Some? {
      updates := updates[IsActiveColumn := Flag(req.isActive.value)];
    }
    err := None;
  }

  lemma EmptyMeansNothingSupplied(req: UpdateReq, updates: Updates)
    requires SuppliedOnly(req, updates) && |updates| == 0
    ensures !AnySupplied(req)
  {
  }

  lemma StampedUpdates(req: UpdateReq, now: int, updates: Updates)
    requires SuppliedOnly(req, updates)
    ensures UpdatesFor(req, now, updates[UpdatedAtColumn := Time(now)])
  {
  }

  /** Update: the trimmed uid must not be blank; the row must exist and not
      be soft-deleted; then the supplied fields are collected. An empty map
      ends the flow with no write; otherwise updated_at joins the map and
      one write is made, whose error is passed on. */
  method Update(repo: Repository, uidParam: string, req: UpdateReq, now: int) returns (o: Outcome)
    ensures var uid := Strs.TrimSpace(uidParam);
            && (uid == "" ==> o.Untouched() && o.err == Some(Validation(MsgBlankUid)))
            && (uid != "" && !Live(repo, uid) ==> o.queries == [GetByUIDQuery(uid)] && o.write.None?)
            && (uid != "" && repo.getByUID(uid).Err? ==> o.err == Some(repo.getByUID(uid).error))
            && (uid != "" && repo.getByUID(uid).Ok? && repo.getByUID(uid).value.isDeleted ==> o.err == Some(RecordNotFound))
            && (uid != "" && Live(repo, uid) ==> o.queries == [GetByUIDQuery(uid)] + EmailQueries(uid, req))
            && (uid != "" && Live(repo, uid) && !AnySupplied(req) ==> o.write.None? && o.err == None)
            && (uid != "" && Live(repo, uid) && req.email != ""
                  && repo.existsByEmailExcludeUID(Strs.TrimSpace(req.email), uid).Err? ==>
                  o.err == Some(repo.existsByEmailExcludeUID(Strs.TrimSpace(req.email), uid).error))
            && (uid != "" && Live(repo, uid) && req.email != ""
                  && repo.existsByEmailExcludeUID(Strs.TrimSpace(req.email), uid) == Ok(true) ==>
                  o.err == Some(Validation(MsgEmailTaken)))
            && (uid != "" && Live(repo, uid) && EmailFree(repo, uid, req) && !RoleAcceptable(req) ==>
                  o.err == Some(Validation(MsgInvalidRole)))
            && (o.write.None? && AnySupplied(req) ==> o.err.Some?)
            && (o.write.Some? <==>
                  uid != "" && Live(repo, uid) && EmailFree(repo, uid, req) && RoleAcceptable(req) && AnySupplied(req))
            && (o.write.Some? ==>
                  && o.write.value.UpdateByUIDWrite?
                  && o.write.value.uid == uid
                  && UpdatesFor(req, now, o.write.value.updates)
                  && o.err == repo.updateByUID(uid, o.write.value.updates))
  {
    var uid := Strs.TrimSpace(uidParam);
    if uid == "" {
      return Outcome([], None, Some(Validation(MsgBlankUid)));
    }
    var got := repo.getByUID(uid);
    if got.Err? {
      return Outcome([GetByUIDQuery(uid)], None, Some(got.error));
    }
    if got.value.isDeleted {
      return Outcome([GetByUIDQuery(uid)], None, Some(RecordNotFound));
    }
    var queries, collectErr, updates := CollectUpdates(repo, uid, req);
    queries := [GetByUIDQuery(uid)] + queries;
    if collectErr.Some? {
      return Outcome(queries, None, collectErr);
    }
    if |updates| == 0 {
      EmptyMeansNothingSupplied(req, updates);
      return Outcome(queries, None, None);
    }
    var written := updates[UpdatedAtColumn := Time(now)];
    StampedUpdates(req, now, updates);
    o := Outcome(queries, Some(UpdateByUIDWrite(uid, written)), repo.updateByUID(uid, written));
  }

  /** Delete: a blank uid is a validation error with no repository call;
      otherwise one soft delete of the trimmed uid, whose error is passed on. */
  function Delete(repo: Repository, uidParam: string): (o: Outcome)
    ensures Strs.TrimSpace(uidParam) == "" ==> o.Untouched() && o.err == Some(Validation(MsgBlankUid))
    ensures Strs.TrimSpace(uidParam) != "" ==>
              && o.queries == []
              && o.write == Some(SoftDeleteByUIDWrite(Strs.TrimSpace(uidParam)))
              && o.err == repo.softDeleteByUID(Strs.TrimSpace(uidParam))
  {
    var uid := Strs.TrimSpace(uidParam);
    if uid == "" then Outcome([], None, Some(Validation(MsgBlankUid)))
    else Outcome([], Some(SoftDeleteByUIDWrite(uid)), repo.softDeleteByUID(uid))
  }

  /** Wrapping keeps a validation error recognisable however deep it sits. */
  lemma {:induction false} WrappedValidationStaysValidation(e: Error, msg: string)
    requires IsValidationError(e)
    ensures IsValidationError(Wrapped(msg, e))
  {
    var n :| 0 <= n < Depth(e) && Unwrap(e, n).Validation?;
    assert Unwrap(Wrapped(msg, e), n + 1) == Unwrap(e, n);
  }

  /** Every error Create's own checks produce is a validation error, and an
      invalid role is reported without touching the repository. */
  lemma CreateValidationOrder(repo: Repository, req: CreateReq, uid: string, salt: string, now: int)
    requires !IsValid(req.role)
    ensures Create(repo, req, uid, salt, now).Untouched()
    ensures IsValidationError(Create(repo, req, uid, salt, now).err.value)
  {
  }

  /** Create passes the email to ExistsByEmail as given but stores it
      trimmed: for an email with leading white space, such as " a@b", the
      argument of the uniqueness query differs from the email written. The
      repository trims that argument again before its SQL runs
      (user/repository.go), which the abstract `existsByEmail` does not
      model. */
  lemma CreateChecksUntrimmedEmail(repo: Repository, req: CreateReq, uid: string, salt: string, now: int)
    requires IsValid(req.role) && repo.existsByUsername(req.username) == Ok(false)
    requires req.email != [] && Strs.IsSpace(req.email[0]) && !Strs.Blank(req.email)
    ensures Create(repo, req, uid, salt, now).queries
              == [ExistsByUsernameQuery(req.username), ExistsByEmailQuery(req.email)]
    ensures var w := Create(repo, req, uid, salt, now).write;
            w.Some? ==> w.value.user.email != req.email
  {
    var t := Strs.TrimSpace(req.email);
    assert t != [] && !Strs.IsSpace(t[0]);
    assert t != req.email;
  }

}
