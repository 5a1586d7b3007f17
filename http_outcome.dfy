/** What a user HTTP handler produces: the response it writes, and the calls
    it makes on its collaborators (body reader, command factory, command bus,
    user repository), in order. */
module HttpOutcome {
  import opened Wrappers
  import opened GoInt32

  const StatusOK: int := 200
  const StatusCreated: int := 201
  /** `http.StatusText(http.StatusInternalServerError)` */
  const InternalServerErrorText: string := "Internal Server Error"

  type Bytes = seq<bv8>

  /** A Go `error` returned by a collaborator; the handlers only look at its
      message (`errors.ErrorMessage`). */
  datatype Failure = Failure(message: string)

  /** The application error kinds the handlers use. */
  datatype ErrorKind = Internal | NotFound | Timeout

  /** The error a handler answers with: one of the package's two sentinels,
      or an application error of a kind with a message, wrapping (`errors.Wrap`)
      or not wrapping (`errors.New`) the collaborator's error. */
  datatype HandlerError =
    | EmptyRequestBody
    | InvalidURLParams
    | AppError(kind: ErrorKind, message: string, cause: Option<Failure>)

  /** A stored user, as the repository returns it. */
  datatype User = User(id: string)

  /** A command built by the user domain from its name and JSON payload. */
  datatype Command = Command(name: string, payload: Bytes)

  /** A JSON body. `users` is `None` on the empty page, where the handler
      never assigns the Go slice; whatever `FindAll` returns is `Some`. */
  datatype Body =
    | Null
    | UserJson(user: User)
    | PageJson(users: Option<seq<User>>, page: Int32, limit: Int32, total: Int32)

  datatype Response =
    | ErrorJson(error: HandlerError)
    | Json(status: int, body: Body)

  /** A call on a collaborator. */
  datatype Call =
    | ReadBody
    | NewCommand(name: string, payload: Bytes)
    | Publish(command: Command)
    | Get(id: string)
    | Count
    | FindAll(limit: int, offset: int)

  datatype Outcome = Outcome(response: Response, calls: seq<Call>)

  /** `params.Value(key)`: the value of a URL parameter, "" when absent. */
  function ParamValue(params: map<string, string>, key: string): string {
    if key in params then params[key] else ""
  }

  predicate Publishes(calls: seq<Call>) {
    exists k :: 0 <= k < |calls| && calls[k].Publish?
  }

  /** No two calls publish a command. */
  predicate PublishesAtMostOnce(calls: seq<Call>) {
    forall j, k :: 0 <= j < k < |calls| && calls[j].Publish? ==> !calls[k].Publish?
  }

  predicate CallsRepository(calls: seq<Call>) {
    exists k :: 0 <= k < |calls| && (calls[k].Get? || calls[k].Count? || calls[k].FindAll?)
  }

  predicate CallsFindAll(calls: seq<Call>) {
    exists k :: 0 <= k < |calls| && calls[k].FindAll?
  }
}
