# User HTTP handlers of go-api-boilerplate, modelled in Dafny

This project models the decision logic of the user service's HTTP handlers
(`cmd/user/internal/interfaces/http/handlers/user.go`):

- **Command dispatch** (`BuildCommandDispatchHandler`): the request-body,
  URL-parameter, body-read and command-construction checks; the command going
  on the command bus; and how the `select` between the request context and
  the bus's result turns into a timeout, a handler error, or
  `201 Created` with a `null` body.
- **Own profile and user lookup** (`BuildMeHandler`, `BuildGetUserHandler`):
  the body and parameter checks, the repository lookup and its NOTFOUND error.
- **Listing users** (`BuildListUserHandler`): how the `page` and `limit`
  query parameters are normalised, the `int32` offset, and the empty-page
  shortcut that skips `FindAll`.

Each handler is a total function (`Handlers` module) from what its
collaborators report to an `Outcome`: the response the handler writes and the
calls it makes on its collaborators, in order. Collaborators are the body
reader, the command factory, the command bus and the user repository. The
results of those calls are inputs, so every combination of failures is
covered. Go's `int32` arithmetic is modelled exactly, wrapping modulo 2^32
(`GoInt32`). The pagination arithmetic lives in `Pagination`. The response
and call vocabulary lives in `HttpOutcome`. `EarlyReturn` gives an ordered
chain of early-return checks a meaning of its own: run the checks in order
and stop at the first that fails. Every handler is proved equal to such a
chain, so for each one the first failing check alone decides the response,
and no call after it is made.

Files: `wrappers.dfy`, `go_int32.dfy`, `pagination.dfy`, `http_outcome.dfy`,
`early_return.dfy`, `handlers.dfy`.

## Model

| member | source | states |
|---|---|---|
| `GoInt32.Wrap` | cmd/user/internal/interfaces/http/handlers/user.go:162 | the int32 result of an exact integer agrees with it modulo 2^32 and equals it when it is in range |
| `GoInt32.WrapSub` | cmd/user/internal/interfaces/http/handlers/user.go:162 | wrapping the product before subtracting gives the same int32 as wrapping the exact difference |
| `Pagination.AtLeast` | cmd/user/internal/interfaces/http/handlers/user.go:151-152 | `int32(math.Max(float64(x), lo))` is at least both arguments and is one of them |
| `Pagination.NormalizedPage` | cmd/user/internal/interfaces/http/handlers/user.go:149-151 | the page is always at least 1; a missing or unparsable `page` gives 1; a page of at least 1 is kept; one below 1 is raised to 1; an oversized number is clamped to the int32 maximum |
| `Pagination.NormalizedLimit` | cmd/user/internal/interfaces/http/handlers/user.go:150-152 | the limit is always at least 20; a missing or unparsable `limit` gives 20; a smaller request is raised to 20; a larger one is kept |
| `Pagination.ParsedValue` | cmd/user/internal/interfaces/http/handlers/user.go:149-150 | the value the handler keeps from `ParseInt` with its error discarded: the number, 0 on a syntax error, the nearest int32 bound on a range error; its consequences for page and limit are stated by `NormalizedPage` and `NormalizedLimit` |
| `Pagination.Offset` | cmd/user/internal/interfaces/http/handlers/user.go:162 | `(page * limit) - limit` in int32; for all int32 operands it equals `(page-1)*limit` wrapped to 32 bits (`OffsetWraps`), and for normalised operands it is exact if and only if that fits in int32 (`OffsetExact`) |
| `Pagination.IsEmptyPage` | cmd/user/internal/interfaces/http/handlers/user.go:175 | `totalUsers < 1` or `offset > totalUsers-1`; when it fails, the total is at least 1 and the offset at most `total-1` (`NonEmptyPageOffset`) |
| `Handlers.ListUsers` | cmd/user/internal/interfaces/http/handlers/user.go:140-194 | the list handler as written, with the int32 offset; its contract is that of `ListUsersBy`, its `FindAll` arguments are stated by `ListUsersFindAllArguments`, and its overflow by `ListUsersOffsetOverflow` |
| `Handlers.ListUsersChecked` | cmd/user/internal/interfaces/http/handlers/user.go:140-194 | the list handler with the offset computed exactly; `ListUsersCheckedFindAllArguments` proves `FindAll` only gets an offset in `[0, total-1]`, and `ListUsersAgree` proves it equals `ListUsers` wherever no overflow happens |
| `Pagination.OffsetWraps` | cmd/user/internal/interfaces/http/handlers/user.go:162 | for all int32 operands, `page*limit - limit` in int32 is `(page-1)*limit` wrapped to 32 bits |
| `Pagination.OffsetExact` | cmd/user/internal/interfaces/http/handlers/user.go:162 | for a normalised page and limit, the int32 offset equals `(page-1)*limit` if and only if that fits in int32; it is then non-negative and a multiple of the limit |
| `Pagination.NonEmptyPageOffset` | cmd/user/internal/interfaces/http/handlers/user.go:162-175 | when the empty-page test fails, the total is at least 1 and the offset at most `total-1`, and at least 0 when the exact offset fits in int32 |
| `Handlers.CommandDispatch` | cmd/user/internal/interfaces/http/handlers/user.go:20-79 | a nil body is answered with `ErrEmptyRequestBody` and missing URL params with `ErrInvalidURLParams`, each before any call; the body is read only after both checks pass; a read failure is INTERNAL "Invalid request body"; a construction failure is INTERNAL with the cause's message; the command is built from the `command` parameter and the body read; it is published at most once, as the last call, and if and only if all four checks pass; after that, the result is TIMEOUT if and only if the context branch fired, INTERNAL "Command handler error" for a handler error, and a success, always `201` with a `null` body, if and only if nil was received |
| `Handlers.Me` | cmd/user/internal/interfaces/http/handlers/user.go:82-106 | a nil body is answered with `ErrEmptyRequestBody` and no lookup; otherwise exactly one lookup is made, of the context identity's ID or, when there is none, the zero identity's ID; a lookup failure is NOTFOUND "User not found" wrapping the cause; success is `200` with the user, if and only if the lookup succeeded |
| `Handlers.GetUser` | cmd/user/internal/interfaces/http/handlers/user.go:109-137 | the two sentinel errors answer the body and parameter checks; the repository is asked, once and for the `id` parameter, if and only if both pass; a lookup failure is NOTFOUND "User not found"; success is `200` with the user, if and only if the lookup succeeded |
| `Handlers.ListUsersBy` | cmd/user/internal/interfaces/http/handlers/user.go:140-194 | a nil body gives `ErrEmptyRequestBody` and no call; otherwise `Count` is called first; a failure of `Count` or `FindAll` is INTERNAL "Internal Server Error", without the cause and without a list; every page response is `200` and echoes the normalised page, the normalised limit and the count; an empty page has a nil list and no `FindAll` call; users are listed if and only if `FindAll` was called and succeeded, and they are the users it returned |
| `EarlyReturn.FirstStop` | cmd/user/internal/interfaces/http/handlers/user.go:24-50 | the position of the first check that stops: every check before it passes, and the check at it fails unless it is past the end |
| `EarlyReturn.ChainStopsAtFirst` | cmd/user/internal/interfaces/http/handlers/user.go:24-50 | in any chain of early returns, the first check that stops decides the response, and exactly the calls of the checks up to and including it are made; when all pass, all their calls are made and then the final step runs |
| `Handlers.CommandDispatchIsChain` | cmd/user/internal/interfaces/http/handlers/user.go:20-79 | the dispatch handler is the chain body, URL params, body read, command construction, context-or-result, handler error; it ends in `201` with `null` |
| `Handlers.CommandDispatchStopsAtFirstFailure` | cmd/user/internal/interfaces/http/handlers/user.go:24-72 | the first failing dispatch check alone decides the response, and no later call is made, in particular no publish after an earlier failure |
| `Handlers.MeIsChain` | cmd/user/internal/interfaces/http/handlers/user.go:82-106 | the own-profile handler is the chain body, then lookup; it ends in `200` with the user |
| `Handlers.MeStopsAtFirstFailure` | cmd/user/internal/interfaces/http/handlers/user.go:86-99 | the first failing check of the own-profile handler decides the response, and the lookup is not made after a nil body |
| `Handlers.GetUserIsChain` | cmd/user/internal/interfaces/http/handlers/user.go:109-137 | the user-lookup handler is the chain body, URL params, lookup; it ends in `200` with the user |
| `Handlers.GetUserStopsAtFirstFailure` | cmd/user/internal/interfaces/http/handlers/user.go:113-130 | the first failing check of the user-lookup handler decides the response, and no lookup follows an earlier failure |
| `Handlers.ListUsersIsChain` | cmd/user/internal/interfaces/http/handlers/user.go:140-194 | the list handler is the chain body, `Count`, empty-page test, `FindAll`; it ends in `200` with the page |
| `Handlers.ListUsersStopsAtFirstFailure` | cmd/user/internal/interfaces/http/handlers/user.go:144-187 | the first check of the list handler that stops decides the response: a nil body, a failed `Count`, an empty page, or a failed `FindAll`; no later call is made |
| `Handlers.ListUsersFindAllArguments` | cmd/user/internal/interfaces/http/handlers/user.go:162-181 | `FindAll` is only called when there is a body and `Count` succeeded; it gets the normalised limit and an offset of at most `total-1`; that offset is the exact, non-negative one whenever the exact offset fits in int32 |
| `Handlers.ListUsersOffsetOverflow` | cmd/user/internal/interfaces/http/handlers/user.go:162-181 | as written, `page=32769&limit=65536` makes `FindAll` start at offset -2^31; `page=65537&limit=65536` on a one-user table makes `FindAll` start at offset 0 and lists the first page instead of an empty one |
| `Handlers.ListUsersCheckedFindAllArguments` | cmd/user/internal/interfaces/http/handlers/user.go:162-181 | with the offset computed without overflow, `FindAll` is only ever asked for the exact offset of the requested page, in `[0, total-1]`, which fits its int32 parameter |
| `Handlers.ListUsersAgree` | cmd/user/internal/interfaces/http/handlers/user.go:162-181 | wherever the exact offset fits in int32, the handler as written and the corrected one produce the same response and calls |

## Findings

| source | as written | input that shows it | evidently intended | confidence | as-written member | corrected member |
|---|---|---|---|---|---|---|
| cmd/user/internal/interfaces/http/handlers/user.go:162 | `offset := (page * limit) - limit` is computed in int32 and wraps. The empty-page test at line 175 then sees the wrapped value | `page=32769&limit=65536` with at least one user: `FindAll` gets offset -2147483648. `page=65537&limit=65536` with one user: `FindAll` gets offset 0 and the first page is returned | a page past the end is answered with an empty page, and `FindAll` never gets a negative offset | not executed | `Handlers.ListUsersOffsetOverflow` | `Handlers.ListUsersCheckedFindAllArguments` |

The corrected handler is `Handlers.ListUsersChecked`. It computes the offset exactly, as int64 arithmetic would, since int64 holds any product of two int32 values. Its properties are stated by `Handlers.ListUsersBy` with the exact rule, by `Handlers.ListUsersCheckedFindAllArguments`, and by `Handlers.ListUsersAgree`. The last lemma shows that the fix changes nothing wherever the original did not overflow.

## Left out

- The command bus and event bus (`pkg/commandbus`, `pkg/eventbus`): registry, handler lookup, panic recovery and delivery are not part of this model. The handlers only see the bus's result, which is an input (`Wait`).
- The goroutine, the buffered channel and the `select` race in `BuildCommandDispatchHandler`: this is concurrency. Which branch fired is an input. The handler's own work after a timeout is not modelled.
- `cmd/user/internal/application/eventhandler/when_user_access_token_was_requested.go`: JSON decoding, the OAuth2 password-credentials network call and logging. These are I/O and foreign calls. Its panic boundary, `recoverEventHandler`, is not part of this model.
- `strconv.ParseInt`: its result is an input (`ParseOutcome`). Go's documented behaviour is followed: 0 on a syntax error (which covers a missing parameter), and the nearest int32 bound on a range error. The handler ignores the error. So an oversized `limit` gives a limit of 2147483647, not 0.
- A nil slice returned by `FindAll` with a nil error is written as `"users": null` in Go; the model does not tell it from an empty slice and lists it as `Some([])`.
- `math.Max` over `float64`: modelled as an integer maximum. That is exact for int32 values.
- `r.Body.Close`, `w.WriteHeader` and `response.MustJSON*`: the response is modelled as the status and the value encoded. The HTTP status that `MustJSONError` derives from an error kind is not part of this model.
- The package's sentinels `ErrEmptyRequestBody` and `ErrInvalidURLParams`, and `pkg/errors`, are not part of this model. They appear as distinct, opaque error values. An error kind with a message and an optional wrapped cause stands for `errors.New` and `errors.Wrap`.
- `user.NewCommandFromPayload`, `identity.FromContext` and the repository are modelled by their results. `context.Parameters` is modelled as an optional string map whose `Value` gives "" for a missing key. The identity of a request that carries none is taken to have the nil-UUID ID.
