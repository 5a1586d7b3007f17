/** The user service's HTTP handlers as functions from what their
    collaborators report to the response written and the calls made. Each
    handler is a chain of early returns: the first check that fails decides
    the response, and nothing after it runs. */
module Handlers {
  import opened Wrappers
  import opened GoInt32
  import opened Pagination
  import opened HttpOutcome
  import opened EarlyReturn

  /** The error a Go `(value, error)` result carries, if any. */
  function ErrorOf<R>(r: Result<R, Failure>): Option<Failure> {
    if r.Err? then Some(r.error) else None
  }

  // ---------------------------------------------------------------------
  // Command dispatch
  // ---------------------------------------------------------------------

  /** Which branch of the `select` fired once the command was handed to the
      bus: the request context ended first (its error), or the bus delivered
      the handler's result (nil or an error). */
  datatype Wait = ContextDone(contextError: Failure) | Received(handlerError: Option<Failure>)

  /** What the collaborators of the command-dispatch handler report. */
  datatype DispatchRequest = DispatchRequest(
    hasBody: bool,                       // r.Body != nil
    params: Option<map<string, string>>, // context.Parameters
    read: Result<Bytes, Failure>,        // ioutil.ReadAll(r.Body)
    built: Result<Command, Failure>,     // user.NewCommandFromPayload
    wait: Wait)                          // the select branch that fired

  /** All four checks before the command goes on the bus pass. */
  predicate ReachesBus(rq: DispatchRequest) {
    rq.hasBody && rq.params.Some? && rq.read.Ok? && rq.built.Ok?
  }

  function CommandDispatch(rq: DispatchRequest): (o: Outcome)
    // the sentinel errors answer exactly the first two checks
    ensures o.response == ErrorJson(EmptyRequestBody) <==> !rq.hasBody
    ensures o.response == ErrorJson(InvalidURLParams) <==> rq.hasBody && rq.params.None?
    ensures !rq.hasBody || rq.params.None? ==> o.calls == []
    // the body is read only after both sentinel checks, once
    ensures (ReadBody in o.calls) <==> rq.hasBody && rq.params.Some?
    ensures rq.hasBody && rq.params.Some? ==> o.calls[0] == ReadBody
    ensures rq.hasBody && rq.params.Some? && rq.read.Err? ==>
              o.response == ErrorJson(AppError(Internal, "Invalid request body", Some(rq.read.error)))
              && o.calls == [ReadBody]
    // the command is built from the "command" URL parameter and the body read
    ensures rq.hasBody && rq.params.Some? && rq.read.Ok? ==>
              |o.calls| >= 2 && o.calls[1] == NewCommand(ParamValue(rq.params.value, "command"), rq.read.value)
    ensures rq.hasBody && rq.params.Some? && rq.read.Ok? && rq.built.Err? ==>
              o.response == ErrorJson(AppError(Internal, rq.built.error.message, Some(rq.built.error)))
    // the command is published, once and as the last call, exactly when every check passes
    ensures Publishes(o.calls) <==> ReachesBus(rq)
    ensures PublishesAtMostOnce(o.calls)
    ensures ReachesBus(rq) ==> o.calls[|o.calls| - 1] == Publish(rq.built.value)
    // after publishing, the select branch alone decides: timeout, handler error, or 201 with null
    ensures (o.response.ErrorJson? && o.response.error.AppError? && o.response.error.kind == Timeout)
              <==> ReachesBus(rq) && rq.wait.ContextDone?
    ensures ReachesBus(rq) && rq.wait.ContextDone? ==>
              o.response == ErrorJson(AppError(Timeout, "Request timeout", Some(rq.wait.contextError)))
    ensures ReachesBus(rq) && rq.wait.Received? && rq.wait.handlerError.Some? ==>
              o.response == ErrorJson(AppError(Internal, "Command handler error", rq.wait.handlerError))
    ensures o.response.Json? <==> ReachesBus(rq) && rq.wait == Received(None)
    ensures o.response.Json? ==> o.response == Json(StatusCreated, Null)
  {
    if !rq.hasBody then
      Outcome(ErrorJson(EmptyRequestBody), [])
    else if rq.params.None? then
      Outcome(ErrorJson(InvalidURLParams), [])
    else
      match rq.read
      case Err(e) =>
        Outcome(ErrorJson(AppError(Internal, "Invalid request body", Some(e))), [ReadBody])
      case Ok(body) =>
        var built := [ReadBody, NewCommand(ParamValue(rq.params.value, "command"), body)];
        match rq.built
        case Err(e) =>
          Outcome(ErrorJson(AppError(Internal, e.message, Some(e))), built)
        case Ok(c) =>
          var published := built + [Publish(c)];
          assert published[2].Publish?;
          match rq.wait
          case ContextDone(e) =>
            Outcome(ErrorJson(AppError(Timeout, "Request timeout", Some(e))), published)
          case Received(Some(e)) =>
            Outcome(ErrorJson(AppError(Internal, "Command handler error", Some(e))), published)
          case Received(None) =>
            Outcome(Json(StatusCreated, Null), published)
  }

  // ---------------------------------------------------------------------
  // Looking up one user
  // ---------------------------------------------------------------------

  /** The ID of the zero identity that `identity.FromContext` yields when the
      request carries none: the nil UUID. */
  const ZeroIdentityID: string := "00000000-0000-0000-0000-000000000000"

  datatype MeRequest = MeRequest(
    hasBody: bool,                // r.Body != nil
    identity: Option<string>,     // the ID of identity.FromContext, if present
    got: Result<User, Failure>)   // repository.Get

  /** `i.ID.String()` for the identity taken from the context, ignoring
      whether one was found. */
  function MeLookupID(rq: MeRequest): string {
    if rq.identity.Some? then rq.identity.value else ZeroIdentityID
  }

  function Me(rq: MeRequest): (o: Outcome)
    ensures o.response == ErrorJson(EmptyRequestBody) <==> !rq.hasBody
    ensures !rq.hasBody ==> o.calls == []
    // a missing identity is not rejected: the zero identity's ID is looked up
    ensures rq.hasBody ==>
              o.calls == [Get(MeLookupID(rq))]
    ensures rq.hasBody && rq.got.Err? ==>
              o.response == ErrorJson(AppError(NotFound, "User not found", Some(rq.got.error)))
    ensures o.response.Json? <==> rq.hasBody && rq.got.Ok?
    ensures o.response.Json? ==> o.response == Json(StatusOK, UserJson(rq.got.value))
    ensures !Publishes(o.calls)
  {
    if !rq.hasBody then
      Outcome(ErrorJson(EmptyRequestBody), [])
    else
      var id := MeLookupID(rq);
      match rq.got
      case Err(e) => Outcome(ErrorJson(AppError(NotFound, "User not found", Some(e))), [Get(id)])
      case Ok(u) => Outcome(Json(StatusOK, UserJson(u)), [Get(id)])
  }

  datatype GetUserRequest = GetUserRequest(
    hasBody: bool,                       // r.Body != nil
    params: Option<map<string, string>>, // context.Parameters
    got: Result<User, Failure>)          // repository.Get

  function GetUser(rq: GetUserRequest): (o: Outcome)
    ensures o.response == ErrorJson(EmptyRequestBody) <==> !rq.hasBody
    ensures o.response == ErrorJson(InvalidURLParams) <==> rq.hasBody && rq.params.None?
    // the repository is asked once, for the "id" URL parameter, only after both checks
    ensures CallsRepository(o.calls) <==> rq.hasBody && rq.params.Some?
    ensures rq.hasBody && rq.params.Some? ==> o.calls == [Get(ParamValue(rq.params.value, "id"))]
    ensures rq.hasBody && rq.params.Some? && rq.got.Err? ==>
              o.response == ErrorJson(AppError(NotFound, "User not found", Some(rq.got.error)))
    ensures o.response.Json? <==> rq.hasBody && rq.params.Some? && rq.got.Ok?
    ensures o.response.Json? ==> o.response == Json(StatusOK, UserJson(rq.got.value))
  {
    if !rq.hasBody then
      Outcome(ErrorJson(EmptyRequestBody), [])
    else if rq.params.None? then
      Outcome(ErrorJson(InvalidURLParams), [])
    else
      var id := ParamValue(rq.params.value, "id");
      assert [Get(id)][0].Get?;
      match rq.got
      case Err(e) => Outcome(ErrorJson(AppError(NotFound, "User not found", Some(e))), [Get(id)])
      case Ok(u) => Outcome(Json(StatusOK, UserJson(u)), [Get(id)])
  }

  // ---------------------------------------------------------------------
  // Listing users a page at a time
  // ---------------------------------------------------------------------

  datatype ListRequest = ListRequest(
    hasBody: bool,                       // r.Body != nil
    page: ParseOutcome,                  // ParseInt of the "page" query parameter
    limit: ParseOutcome,                 // ParseInt of the "limit" query parameter
    count: Result<Int32, Failure>,       // repository.Count
    found: Result<seq<User>, Failure>)   // repository.FindAll

  /** How the offset of the page is computed: in int32 as the handler does,
      or exactly. */
  datatype OffsetRule = Int32Arithmetic | ExactArithmetic

  function OffsetBy(rule: OffsetRule, page: Int32, limit: Int32): int {
    match rule
    case Int32Arithmetic => Offset(page, limit)
    case ExactArithmetic => ExactOffset(page, limit)
  }

  /** The list handler with its offset computed by `rule`. */
  function ListUsersBy(rq: ListRequest, rule: OffsetRule): (o: Outcome)
    ensures o.response == ErrorJson(EmptyRequestBody) <==> !rq.hasBody
    ensures !rq.hasBody ==> o.calls == []
    // the users are counted first whenever there is a body
    ensures rq.hasBody ==> |o.calls| >= 1 && o.calls[0] == Count
    // a failed Count or FindAll is INTERNAL, without the cause and without a list
    ensures rq.hasBody && rq.count.Err? ==>
              o.response == ErrorJson(AppError(Internal, InternalServerErrorText, None)) && o.calls == [Count]
    ensures CallsFindAll(o.calls) && rq.found.Err? ==>
              o.response == ErrorJson(AppError(Internal, InternalServerErrorText, None))
    // every page echoes the normalised page and limit and the count
    ensures o.response.Json? ==>
              && rq.count.Ok?
              && o.response.status == StatusOK
              && o.response.body.PageJson?
              && o.response.body == PageJson(o.response.body.users, NormalizedPage(rq.page),
                                             NormalizedLimit(rq.limit), rq.count.value)
    // an empty page leaves the list nil and does not call FindAll
    ensures rq.hasBody && rq.count.Ok? &&
            IsEmptyPage(rq.count.value, OffsetBy(rule, NormalizedPage(rq.page), NormalizedLimit(rq.limit))) ==>
              o.response == Json(StatusOK, PageJson(None, NormalizedPage(rq.page),
                                                    NormalizedLimit(rq.limit), rq.count.value))
              && !CallsFindAll(o.calls)
    // a non-empty page asks FindAll for the normalised limit at the offset
    ensures rq.hasBody && rq.count.Ok? &&
            !IsEmptyPage(rq.count.value, OffsetBy(rule, NormalizedPage(rq.page), NormalizedLimit(rq.limit))) ==>
              o.calls == [Count, FindAll(NormalizedLimit(rq.limit),
                                         OffsetBy(rule, NormalizedPage(rq.page), NormalizedLimit(rq.limit)))]
    // users are listed exactly when FindAll was called and returned them
    ensures o.response.Json? && o.response.body.PageJson? && o.response.body.users.Some?
            <==> CallsFindAll(o.calls) && rq.found.Ok?
    ensures o.response.Json? && o.response.body.PageJson? && o.response.body.users.Some? ==> o.response.body.users.value == rq.found.value
  {
    if !rq.hasBody then
      Outcome(ErrorJson(EmptyRequestBody), [])
    else
      var page := NormalizedPage(rq.page);
      var limit := NormalizedLimit(rq.limit);
      match rq.count
      case Err(_) =>
        Outcome(ErrorJson(AppError(Internal, InternalServerErrorText, None)), [Count])
      case Ok(total) =>
        var offset := OffsetBy(rule, page, limit);
        if IsEmptyPage(total, offset) then
          Outcome(Json(StatusOK, PageJson(None, page, limit, total)), [Count])
        else
          var calls := [Count, FindAll(limit, offset)];
          assert calls[1].FindAll?;
          match rq.found
          case Err(_) => Outcome(ErrorJson(AppError(Internal, InternalServerErrorText, None)), calls)
          case Ok(users) => Outcome(Json(StatusOK, PageJson(Some(users), page, limit, total)), calls)
  }

  /** The list handler as written: the offset in int32 arithmetic. */
  function ListUsers(rq: ListRequest): Outcome {
    ListUsersBy(rq, Int32Arithmetic)
  }

  /** The list handler with the offset computed without overflow (in int64,
      which holds any product of two int32 values). */
  function ListUsersChecked(rq: ListRequest): Outcome {
    ListUsersBy(rq, ExactArithmetic)
  }

  /** FindAll is asked for a normalised limit and an int32 offset of at most
      `total - 1`; the offset is the exact, non-negative one whenever that
      fits in int32. */
  lemma ListUsersFindAllArguments(rq: ListRequest, limit: int, offset: int)
    requires FindAll(limit, offset) in ListUsers(rq).calls
    ensures rq.hasBody && rq.count.Ok?
    ensures limit == NormalizedLimit(rq.limit)
    ensures offset == Offset(NormalizedPage(rq.page), limit)
    ensures 1 <= rq.count.value && offset <= rq.count.value - 1
    ensures ExactOffset(NormalizedPage(rq.page), limit) <= MaxInt32 ==>
              0 <= offset && offset == ExactOffset(NormalizedPage(rq.page), limit)
  {
    var page, lim := NormalizedPage(rq.page), NormalizedLimit(rq.limit);
    var o := ListUsers(rq);
    assert o.calls == [Count, FindAll(lim, Offset(page, lim))];
    NonEmptyPageOffset(rq.count.value, page, lim);
  }

  /** Where the exact offset fits in int32 the handler as written and the
      checked one behave identically. */
  lemma ListUsersAgree(rq: ListRequest)
    requires ExactOffset(NormalizedPage(rq.page), NormalizedLimit(rq.limit)) <= MaxInt32
    ensures ListUsers(rq) == ListUsersChecked(rq)
  {
    OffsetExact(NormalizedPage(rq.page), NormalizedLimit(rq.limit));
  }

  /** The int32 offset overflows for pages beyond reach: page 32769 of 65536
      users each makes FindAll start at offset -2^31, and page 65537 makes it
      start at 0 and list the first page although the page requested lies
      past the end of a one-user table. */
  lemma ListUsersOffsetOverflow(found: seq<User>)
    ensures FindAll(65536, MinInt32) in
              ListUsers(ListRequest(true, Parsed(32769), Parsed(65536), Ok(1), Ok(found))).calls
    ensures ListUsers(ListRequest(true, Parsed(65537), Parsed(65536), Ok(1), Ok(found))).response
            == Json(StatusOK, PageJson(Some(found), 65537, 65536, 1))
    ensures FindAll(65536, 0) in
              ListUsers(ListRequest(true, Parsed(65537), Parsed(65536), Ok(1), Ok(found))).calls
  {
    OffsetWraps(32769, 65536);
    OffsetWraps(65537, 65536);
  }

  /** With exact arithmetic, FindAll is only ever asked for an offset in
      [0, total - 1], which therefore fits its int32 parameter, and it is the
      offset of the page requested. */
  lemma ListUsersCheckedFindAllArguments(rq: ListRequest, limit: int, offset: int)
    requires FindAll(limit, offset) in ListUsersChecked(rq).calls
    ensures rq.hasBody && rq.count.Ok?
    ensures limit == NormalizedLimit(rq.limit)
    ensures 0 <= offset <= rq.count.value - 1
    ensures offset == ExactOffset(NormalizedPage(rq.page), limit) && InRange(offset)
  {
    var page, lim := NormalizedPage(rq.page), NormalizedLimit(rq.limit);
    assert ListUsersChecked(rq).calls == [Count, FindAll(lim, ExactOffset(page, lim))];
    MulNonNegative(page - 1, lim);
  }

  // ---------------------------------------------------------------------
  // Each handler as a chain of early returns
  // ---------------------------------------------------------------------
  // Values a check uses are only meaningful once the checks before it
  // passed; where they do not exist yet a placeholder stands in, which no
  // outcome can depend on.

  function DispatchChecks(rq: DispatchRequest): seq<Check> {
    var name := if rq.params.Some? then ParamValue(rq.params.value, "command") else "";
    var body := if rq.read.Ok? then rq.read.value else [];
    var command := if rq.built.Ok? then rq.built.value else Command("", []);
    var contextError := if rq.wait.ContextDone? then Some(rq.wait.contextError) else None;
    var handlerError := if rq.wait.Received? then rq.wait.handlerError else None;
    [ Check([], rq.hasBody, ErrorJson(EmptyRequestBody)),
      Check([], rq.params.Some?, ErrorJson(InvalidURLParams)),
      Check([ReadBody], rq.read.Ok?,
            ErrorJson(AppError(Internal, "Invalid request body", ErrorOf(rq.read)))),
      Check([NewCommand(name, body)], rq.built.Ok?,
            ErrorJson(AppError(Internal, if rq.built.Err? then rq.built.error.message else "",
                               ErrorOf(rq.built)))),
      Check([Publish(command)], rq.wait.Received?,
            ErrorJson(AppError(Timeout, "Request timeout", contextError))),
      Check([], handlerError.None?,
            ErrorJson(AppError(Internal, "Command handler error", handlerError))) ]
  }

  const Created: Outcome := Outcome(Json(StatusCreated, Null), [])

  /** Command dispatch is the chain: body, URL parameters, body read, command
      construction, then the select branch and the handler's result; the
      first that fails answers, and only the calls up to it are made. */
  lemma CommandDispatchIsChain(rq: DispatchRequest)
    ensures CommandDispatch(rq) == Chain(DispatchChecks(rq), Created)
  {
    var cs := DispatchChecks(rq);
    ChainAt(cs, 0, Created);
    if rq.hasBody {
      ChainAt(cs, 1, Created);
      if rq.params.Some? {
        ChainAt(cs, 2, Created);
        if rq.read.Ok? {
          ChainAt(cs, 3, Created);
          if rq.built.Ok? {
            ChainAt(cs, 4, Created);
            if rq.wait.Received? {
              ChainAt(cs, 5, Created);
              assert cs[6..] == [];
            }
          }
        }
      }
    }
  }

  /** The first check of the chain that fails decides the response, and only
      the calls of the checks up to it are made. */
  lemma CommandDispatchStopsAtFirstFailure(rq: DispatchRequest)
    ensures var cs, k := DispatchChecks(rq), FirstStop(DispatchChecks(rq));
            k < |cs| ==> CommandDispatch(rq) == Outcome(cs[k].stop, CallsOf(cs, k + 1))
  {
    CommandDispatchIsChain(rq);
    ChainStopsAtFirst(DispatchChecks(rq), Created);
  }

  function UserOr(got: Result<User, Failure>): User {
    if got.Ok? then got.value else User("")
  }

  function MeChecks(rq: MeRequest): seq<Check> {
    var id := MeLookupID(rq);
    [ Check([], rq.hasBody, ErrorJson(EmptyRequestBody)),
      Check([Get(id)], rq.got.Ok?, ErrorJson(AppError(NotFound, "User not found", ErrorOf(rq.got)))) ]
  }

  /** The own-profile handler is the chain: body, then lookup. */
  lemma MeIsChain(rq: MeRequest)
    ensures Me(rq) == Chain(MeChecks(rq), Outcome(Json(StatusOK, UserJson(UserOr(rq.got))), []))
  {
    var cs := MeChecks(rq);
    var last := Outcome(Json(StatusOK, UserJson(UserOr(rq.got))), []);
    ChainAt(cs, 1, last);
    ChainAt(cs, 0, last);
  }

  /** The first check of the chain that fails decides the response, and only
      the calls of the checks up to it are made. */
  lemma MeStopsAtFirstFailure(rq: MeRequest)
    ensures var cs, k := MeChecks(rq), FirstStop(MeChecks(rq));
            k < |cs| ==> Me(rq) == Outcome(cs[k].stop, CallsOf(cs, k + 1))
  {
    MeIsChain(rq);
    ChainStopsAtFirst(MeChecks(rq), Outcome(Json(StatusOK, UserJson(UserOr(rq.got))), []));
  }

  function GetUserChecks(rq: GetUserRequest): seq<Check> {
    var id := if rq.params.Some? then ParamValue(rq.params.value, "id") else "";
    [ Check([], rq.hasBody, ErrorJson(EmptyRequestBody)),
      Check([], rq.params.Some?, ErrorJson(InvalidURLParams)),
      Check([Get(id)], rq.got.Ok?, ErrorJson(AppError(NotFound, "User not found", ErrorOf(rq.got)))) ]
  }

  /** The user-lookup handler is the chain: body, URL parameters, lookup. */
  lemma GetUserIsChain(rq: GetUserRequest)
    ensures GetUser(rq) == Chain(GetUserChecks(rq), Outcome(Json(StatusOK, UserJson(UserOr(rq.got))), []))
  {
    var cs := GetUserChecks(rq);
    var last := Outcome(Json(StatusOK, UserJson(UserOr(rq.got))), []);
    ChainAt(cs, 2, last);
    ChainAt(cs, 1, last);
    ChainAt(cs, 0, last);
  }

  /** The first check of the chain that fails decides the response, and only
      the calls of the checks up to it are made. */
  lemma GetUserStopsAtFirstFailure(rq: GetUserRequest)
    ensures var cs, k := GetUserChecks(rq), FirstStop(GetUserChecks(rq));
            k < |cs| ==> GetUser(rq) == Outcome(cs[k].stop, CallsOf(cs, k + 1))
  {
    GetUserIsChain(rq);
    ChainStopsAtFirst(GetUserChecks(rq), Outcome(Json(StatusOK, UserJson(UserOr(rq.got))), []));
  }

  function ListChecks(rq: ListRequest, rule: OffsetRule): seq<Check> {
    var page, limit := NormalizedPage(rq.page), NormalizedLimit(rq.limit);
    var total := if rq.count.Ok? then rq.count.value else 0;
    var offset := OffsetBy(rule, page, limit);
    var internal := ErrorJson(AppError(Internal, InternalServerErrorText, None));
    [ Check([], rq.hasBody, ErrorJson(EmptyRequestBody)),
      Check([Count], rq.count.Ok?, internal),
      Check([], !IsEmptyPage(total, offset), Json(StatusOK, PageJson(None, page, limit, total))),
      Check([FindAll(limit, offset)], rq.found.Ok?, internal) ]
  }

  function ListLast(rq: ListRequest): Outcome {
    var total := if rq.count.Ok? then rq.count.value else 0;
    var users := if rq.found.Ok? then rq.found.value else [];
    Outcome(Json(StatusOK, PageJson(Some(users), NormalizedPage(rq.page), NormalizedLimit(rq.limit), total)), [])
  }

  /** The list handler is the chain: body, Count, empty-page test, FindAll. */
  lemma ListUsersIsChain(rq: ListRequest, rule: OffsetRule)
    ensures ListUsersBy(rq, rule) == Chain(ListChecks(rq, rule), ListLast(rq))
  {
    var cs, last := ListChecks(rq, rule), ListLast(rq);
    ChainAt(cs, 3, last);
    ChainAt(cs, 2, last);
    ChainAt(cs, 1, last);
    ChainAt(cs, 0, last);
  }

  /** The first check of the chain that fails decides the response, and only
      the calls of the checks up to it are made. */
  lemma ListUsersStopsAtFirstFailure(rq: ListRequest, rule: OffsetRule)
    ensures var cs, k := ListChecks(rq, rule), FirstStop(ListChecks(rq, rule));
            k < |cs| ==> ListUsersBy(rq, rule) == Outcome(cs[k].stop, CallsOf(cs, k + 1))
  {
    ListUsersIsChain(rq, rule);
    ChainStopsAtFirst(ListChecks(rq, rule), ListLast(rq));
  }
}
