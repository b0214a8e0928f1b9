/** The user-management HTTP handlers: each one is a chain of guards over
    the bound request, then one service call whose error is mapped to a
    status. Binding is an input (None when the request does not bind) and
    the service is the abstract Service interface. */
module UserHandler {
  import opened Wrappers
  import Strs
  import Http
  import opened UserRole
  import opened UserService

  const StatusOK := 200
  const StatusBadRequest := 400
  const StatusNotFound := 404
  const StatusUnprocessableEntity := 422
  const StatusInternalServerError := 500

  const MsgBadParams := "参数错误"
  const MsgUserNotFound := "用户不存在"

  /** The Service interface as the handlers see it. */
  datatype Service = Service(
    list: ReadReq -> Result<(seq<ReadRes>, int), Error>,
    create: CreateReq -> Option<Error>,
    update: (string, UpdateReq) -> Option<Error>,
    delete: string -> Option<Error>)

  /** What a handler answers: a failure with its status and message, or
      success with the payload. */
  datatype Reply<T> = Fail(status: int, message: string) | Success(data: T)

  /** The page payload of a successful List. */
  datatype PageRes = PageRes(list: seq<ReadRes>, total: int, page: int, size: int)

  /** mapServiceErrorCode: 422 for an error whose chain holds a validation
      error, 500 for anything else. */
  function MapServiceErrorCode(err: Error): (code: int)
    ensures code == StatusUnprocessableEntity || code == StatusInternalServerError
    ensures code == StatusUnprocessableEntity <==> ChainHasValidation(err)
  {
    if IsValidationError(err) then StatusUnprocessableEntity else StatusInternalServerError
  }

  /** The reply for a failed service call. */
  function ServiceFailure<T>(err: Error): (r: Reply<T>)
    ensures r == Fail(MapServiceErrorCode(err), err.Message())
  {
    Fail(MapServiceErrorCode(err), err.Message())
  }

  /** List: a request that does not bind is 400; a service error is mapped;
      success carries the rows, the total and the clamped page and size. */
  function List(bound: Option<ReadReq>, svc: Service): (r: Reply<PageRes>)
    ensures bound.None? ==> r == Fail(StatusBadRequest, MsgBadParams)
    ensures bound.Some? && svc.list(bound.value).Err? ==>
              r == ServiceFailure(svc.list(bound.value).error)
    ensures r.Success? <==> bound.Some? && svc.list(bound.value).Ok?
    ensures r.Success? ==>
              && r.data.list == svc.list(bound.value).value.0
              && r.data.total == svc.list(bound.value).value.1
              && r.data.page == Http.GetPage(bound.value.page) >= 1
              && 1 <= r.data.size == Http.GetPageSize(bound.value.page) <= Http.MaxPageSize
  {
    match bound
    case None => Fail(StatusBadRequest, MsgBadParams)
    case Some(req) =>
      match svc.list(req)
      case Err(e) => ServiceFailure(e)
      case Ok((rows, total)) =>
        Success(PageRes(rows, total, Http.GetPage(req.page), Http.GetPageSize(req.page)))
  }

  /** Create: 400 for a request that does not bind, then 422 for an invalid
      role before the service is asked, then the mapped service error. */
  function Create(bound: Option<CreateReq>, svc: Service): (r: Reply<()>)
    ensures bound.None? ==> r == Fail(StatusBadRequest, MsgBadParams)
    ensures bound.Some? && !IsValid(bound.value.role) ==>
              r == Fail(StatusUnprocessableEntity, MsgInvalidRole)
    ensures bound.Some? && IsValid(bound.value.role) && svc.create(bound.value).Some? ==>
              r == ServiceFailure(svc.create(bound.value).value)
    ensures r.Success? <==> bound.Some? && IsValid(bound.value.role) && svc.create(bound.value).None?
  {
    match bound
    case None => Fail(StatusBadRequest, MsgBadParams)
    case Some(req) =>
      if !IsValid(req.role) then Fail(StatusUnprocessableEntity, MsgInvalidRole)
      else match svc.create(req)
        case Some(e) => ServiceFailure(e)
        case None => Success(())
  }

  /** Update: a uid blank after trimming is 400 before the body is bound;
      then 400 for a body that does not bind; then 422 for a non-empty
      invalid role; then the service gets the trimmed uid. */
  function Update(uidParam: string, bound: Option<UpdateReq>, svc: Service): (r: Reply<()>)
    ensures Strs.TrimSpace(uidParam) == "" ==> r == Fail(StatusBadRequest, MsgBlankUid)
    ensures Strs.TrimSpace(uidParam) != "" && bound.None? ==> r == Fail(StatusBadRequest, MsgBadParams)
    ensures (&& Strs.TrimSpace(uidParam) != "" && bound.Some?
             && bound.value.role != "" && !IsValid(bound.value.role)) ==>
              r == Fail(StatusUnprocessableEntity, MsgInvalidRole)
    ensures (&& Strs.TrimSpace(uidParam) != "" && bound.Some? && RoleAcceptable(bound.value)
             && svc.update(Strs.TrimSpace(uidParam), bound.value).Some?) ==>
              r == ServiceFailure(svc.update(Strs.TrimSpace(uidParam), bound.value).value)
    ensures r.Success? <==>
              && Strs.TrimSpace(uidParam) != "" && bound.Some? && RoleAcceptable(bound.value)
              && svc.update(Strs.TrimSpace(uidParam), bound.value).None?
  {
    var uid := Strs.TrimSpace(uidParam);
    if uid == "" then Fail(StatusBadRequest, MsgBlankUid)
    else match bound
      case None => Fail(StatusBadRequest, MsgBadParams)
      case Some(req) =>
        if req.role != "" && !IsValid(req.role) then Fail(StatusUnprocessableEntity, MsgInvalidRole)
        else match svc.update(uid, req)
          case Some(e) => ServiceFailure(e)
          case None => Success(())
  }

  /** Delete: a blank uid is 400; a record-not-found error anywhere in the
      chain is 404, checked before the generic mapping. */
  function Delete(uidParam: string, svc: Service): (r: Reply<()>)
    ensures Strs.TrimSpace(uidParam) == "" ==> r == Fail(StatusBadRequest, MsgBlankUid)
    ensures (&& Strs.TrimSpace(uidParam) != "" && svc.delete(Strs.TrimSpace(uidParam)).Some?
             && IsRecordNotFound(svc.delete(Strs.TrimSpace(uidParam)).value)) ==>
              r == Fail(StatusNotFound, MsgUserNotFound)
    ensures (&& Strs.TrimSpace(uidParam) != "" && svc.delete(Strs.TrimSpace(uidParam)).Some?
             && !IsRecordNotFound(svc.delete(Strs.TrimSpace(uidParam)).value)) ==>
              r == ServiceFailure(svc.delete(Strs.TrimSpace(uidParam)).value)
    ensures r.Success? <==> Strs.TrimSpace(uidParam) != "" && svc.delete(Strs.TrimSpace(uidParam)).None?
  {
    var uid := Strs.TrimSpace(uidParam);
    if uid == "" then Fail(StatusBadRequest, MsgBlankUid)
    else match svc.delete(uid)
      case Some(e) =>
        if IsRecordNotFound(e) then Fail(StatusNotFound, MsgUserNotFound) else ServiceFailure(e)
      case None => Success(())
  }

  /** A validation error keeps mapping to 422 however often it is wrapped. */
  lemma {:induction false} WrappedValidationIs422(e: Error, msgs: seq<string>)
    requires IsValidationError(e)
    ensures MapServiceErrorCode(WrapAll(e, msgs)) == StatusUnprocessableEntity
  {
    WrapAllKeepsValidation(e, msgs);
  }

  /** e wrapped once per message, the last message outermost. */
  function WrapAll(e: Error, msgs: seq<string>): (w: Error)
    ensures Depth(w) == Depth(e) + |msgs|
    ensures Unwrap(w, |msgs|) == e
  {
    if msgs == [] then e
    else
      var w := Wrapped(msgs[|msgs| - 1], WrapAll(e, msgs[..|msgs| - 1]));
      assert Unwrap(w, |msgs|) == Unwrap(w.inner, |msgs| - 1);
      w
  }

  lemma {:induction false} WrapAllKeepsValidation(e: Error, msgs: seq<string>)
    requires IsValidationError(e)
    ensures IsValidationError(WrapAll(e, msgs))
  {
    if msgs != [] {
      WrapAllKeepsValidation(e, msgs[..|msgs| - 1]);
      WrappedValidationStaysValidation(WrapAll(e, msgs[..|msgs| - 1]), msgs[|msgs| - 1]);
    }
  }

  /** The guards before the service call answer the same whatever the
      service would have said: the service is not consulted on those paths. */
  lemma GuardsIgnoreService(uidParam: string, req: UpdateReq, creq: CreateReq, svc1: Service, svc2: Service)
    ensures List(None, svc1) == List(None, svc2)
    ensures Create(None, svc1) == Create(None, svc2)
    ensures !IsValid(creq.role) ==> Create(Some(creq), svc1) == Create(Some(creq), svc2)
    ensures Strs.TrimSpace(uidParam) == "" ==>
              && Update(uidParam, Some(req), svc1) == Update(uidParam, Some(req), svc2)
              && Delete(uidParam, svc1) == Delete(uidParam, svc2)
    ensures !RoleAcceptable(req) ==> Update(uidParam, Some(req), svc1) == Update(uidParam, Some(req), svc2)
  {
  }

  /** The handler's role guard and the service's own role check agree:
      both answer 422 with the same message. */
  lemma CreateRoleGuardAgreesWithService(repo: Repository, req: CreateReq, svc: Service,
                                         uid: string, salt: string, now: int)
    requires !IsValid(req.role)
    ensures Create(Some(req), svc) == Fail(StatusUnprocessableEntity, MsgInvalidRole)
    ensures var err := UserService.Create(repo, req, uid, salt, now).err;
            err.Some? && ServiceFailure<()>(err.value) == Create(Some(req), svc)
  {
    CreateValidationOrder(repo, req, uid, salt, now);
  }

  /** Deleting through the user service: when the soft delete reports a
      record-not-found error, however wrapped, the client sees 404. */
  lemma DeleteMissingUserIs404(repo: Repository, svc: Service, uidParam: string, msgs: seq<string>)
    requires forall u :: svc.delete(u) == UserService.Delete(repo, u).err
    requires Strs.TrimSpace(uidParam) != ""
    requires repo.softDeleteByUID(Strs.TrimSpace(uidParam)) == Some(WrapAll(RecordNotFound, msgs))
    ensures Delete(uidParam, svc) == Fail(StatusNotFound, MsgUserNotFound)
  {
    var w := WrapAll(RecordNotFound, msgs);
    assert Unwrap(w, |msgs|).RecordNotFound?;
  }

  /** The handler's blank-uid guard preempts the service, which would have
      answered the same condition with a validation error, that is 422. */
  lemma BlankUidIs400NotServices422(repo: Repository, uidParam: string, svc: Service)
    requires Strs.TrimSpace(uidParam) == ""
    ensures Delete(uidParam, svc).status == StatusBadRequest
    ensures MapServiceErrorCode(UserService.Delete(repo, uidParam).err.value) == StatusUnprocessableEntity
  {
    assert Unwrap(UserService.Delete(repo, uidParam).err.value, 0).Validation?;
  }
}
