# echozap access-log middleware, modelled in Dafny

echozap's `ZapLogger` is an echo middleware that wraps the next handler.
For every request it runs the handler and forwards any error to echo's
`c.Error`. It then writes one "access log" record through a zap logger,
with a level and message chosen by the response status. When `Skip2XX` is
set, 2xx responses produce no record. The wrapper always returns nil.

The model is a small state machine over an immutable configuration record:

- `Zap` is an abstract zap. A logger is the list of context fields that
  `With` has attached. A written record is an `Entry` value: level, message,
  context fields and call-site fields. `ValueOf` reads a field back by key
  from a field list whose keys are distinct. It returns the first field with
  that key, and it is applied only to lists without repeated keys.
- `Severity.Classify` is the status switch. It returns `None` when no record
  is written, and otherwise `Some((level, message))`.
- `Fields.BuildFields` builds the seven fixed fields and the fallback
  `request_id` field.
- `Middleware.Invoke` is one call of the wrapped handler. It takes a
  `Config` (logger plus `Skip2XX`) and an `Invocation`: what the request and
  response expose, the elapsed-time string and the handler's result. It
  returns the new `Config` and an `Outcome`. The `Outcome` holds the ordered
  effects (`c.Error` calls, written records) and the returned error.
  `Middleware.Next` is the state transition. `Middleware.After` folds it over
  consecutive calls that share one `Config`, as the source's closures share
  one `*Config`. `Middleware.Run` gives the k-th call the `Config` that the
  first k calls left behind.
- `Corrected` has the same middleware with the two defects listed under
  "## Findings" fixed. It reuses `Middleware.Respond` for everything the two
  versions share.

Choices the model makes about the code's behaviour:

- Statuses of 600 and above reach the switch's first case and are logged as
  "Server error". Only statuses below 200, 0 and negatives included, reach
  the default "Success" branch.
- `Middleware` assigns the derived logger back into the shared `Config`, as
  the code does. `Corrected` derives it for the current call only (see
  "## Findings").
- `Middleware` keeps the code's request-id asymmetry: `request_id` is
  appended only when the request header is empty. `Corrected` logs the
  resolved id in every case (see "## Findings").

## Model

| member | source | states |
|---|---|---|
| `Severity.Classify` | logger.go:49-63 | No record exactly when Skip2XX holds and 200 <= status < 300. Status >= 500 gives Error "Server error". 400..499 gives Warn "Client error". 300..399 gives Info "Redirection". Any other logged status below 300, negatives and 0 included, gives Info "Success". |
| `Severity.SkipOnlySuppresses` | logger.go:57-62 | Without Skip2XX every status is logged. With Skip2XX a written record has the same level and message as without it. Outside [200, 300) the flag has no effect. |
| `Severity.ClassifyMonotone` | logger.go:49-63 | A larger status is never logged at a lower zap level. |
| `Severity.MessageMatchesLevel` | logger.go:51-56 | "Server error" is exactly the Error level, which is exactly status >= 500. "Client error" is exactly Warn, which is exactly 400..499. |
| `Fields.FixedFields` | logger.go:33-41 | No contract of its own. Its keys, their order and its values are stated by BuildFieldsShape and BuildFieldsReadBack. |
| `Fields.BuildFields` | logger.go:33-47 | No contract of its own. Its shape is stated by BuildFieldsShape, and what it reads back by BuildFieldsReadBack and RequestIdReadBack. |
| `Fields.BuildFieldsShape` | logger.go:33-47 | The keys are remote_ip, time, host, request, status, size and user_agent, in that order, followed by request_id exactly when the request header id is empty. That makes 8 fields on that path and 7 otherwise. The keys are distinct. |
| `Fields.BuildFieldsReadBack` | logger.go:33-41 | Each fixed field reads back its input verbatim. `request` reads back as method + " " + request URI, and `status` and `size` read back as the response's integers. |
| `Fields.RequestIdReadBack` | logger.go:43-47 | `request_id` is present iff the request header id is empty, and then it carries the response header id, even when that is "". No call-site field is keyed "error". |
| `Fields.RequestIdDroppedWhenOnRequest` | logger.go:43-47 | A non-empty request header id is never logged, and the record then has 7 fields. |
| `Middleware.Respond` | logger.go:24-65 | The handler's error is forwarded once via c.Error and otherwise nothing is forwarded. All forwarding happens before any record is written. At most one record is written, none exactly for a skipped 2xx. The record carries the classified level and message, the logger's context and the given fields. The return is nil. |
| `Middleware.Next` | logger.go:24-28 | A handler error appends exactly one error field to the shared Config's logger, a nil result leaves the Config unchanged, and Skip2XX never changes. |
| `Middleware.Invoke` | logger.go:21-66 | One call: the shared Config is updated as Next states. The call returns nil and forwards exactly its own error, before any record. It writes one record unless Skip2XX suppresses a 2xx. That record has the classified level and message, the UPDATED logger's context and the BuildFields fields. |
| `Middleware.After` | logger.go:25-26 | After consecutive calls, the shared logger's context is its initial context followed by one error field per failed call, in call order. Skip2XX is unchanged. |
| `Middleware.Run` | logger.go:19-66 | No contract of its own. It gives call k the Config the first k calls left behind. RunIsFold shows that this is the Config Invoke itself returns, and RunOutcomes and RunRecordContext state what each call does. |
| `Middleware.RunIsFold` | logger.go:19-26 | The Config that Invoke leaves after call k is exactly After of the first k+1 calls. So Run equals stepping Invoke call by call through one shared `*Config`. |
| `Middleware.AfterContextGrows` | logger.go:25-26 | The shared logger's context after k calls is a prefix of its context after any j >= k calls, so fields are never removed. |
| `Middleware.RunOutcomes` | logger.go:24-65 | Every call of a run returns nil and forwards exactly its own error. It writes no record iff Skip2XX holds and the status is 2xx, and otherwise exactly one. |
| `Middleware.RunRecordContext` | logger.go:25-52 | The record of the k-th call carries an error field for every failure among the first k+1 calls, in call order, after the logger's initial fields. |
| `Middleware.ErrorStaysInLaterRecords` | logger.go:25-26 | An error returned on call k is carried by the record of every call j >= k, whatever call j's own result. |
| `Middleware.ErrorLeaksIntoLaterRequest` | logger.go:26 | Concrete case: a 500 with error "boom" followed by a 200 with a nil error. The second record is Info "Success" and still carries error=boom. |
| `Corrected.ResolvedFields` | logger.go:43-47 | No contract of its own. Its shape is stated by ResolvedFieldsShape, and its request_id by ResolvedRequestIdReadBack. |
| `Corrected.ResolvedFieldsShape` | logger.go:43-47 | There are always 8 distinct keys: the 7 fixed ones, then request_id. On the fallback path the list equals the original field list. |
| `Corrected.ResolvedRequestIdReadBack` | logger.go:43-47 | request_id reads back as the request header id when that is non-empty, and otherwise as the response header id. When both headers are empty, request_id is still logged, as "". |
| `Corrected.Invoke` | logger.go:24-28 | The handler's error is forwarded once and the return is nil. The record's context is the Config's context plus only this call's error field. |
| `Corrected.Run` | logger.go:19-66 | No contract of its own. Every call runs on the unchanged Config, as RunIndependent and RunNoLeak state. |
| `Corrected.RunIndependent` | logger.go:19-21 | A call's outcome depends on its own request alone, not on its position in a run or on the other calls. |
| `Corrected.RunNoLeak` | logger.go:26 | A record carries an error field iff the logger started with it or its own call returned that error. |
| `Corrected.AgreesOnFirstCall` | logger.go:21-66 | On a fresh Config, with the id absent from the request header, the corrected call equals the original one. |
| `Corrected.ConfigUnchangedWithoutErrors` | logger.go:25-26 | While no handler has failed, the original middleware's shared Config is still its initial value. |
| `Corrected.AgreesWithoutErrors` | logger.go:19-66 | With no handler errors and no request-header ids, the original and corrected runs give identical outcomes, call for call. |

## Left out

- zap's encoding and writing of records are not modelled. A logger is its list of attached context fields, and writing is producing an `Entry`, because these are calls into the logging library.
- The elapsed time (`time.Now`, `time.Since(...).String()`) is an opaque string input, because it depends on the wall clock and on Go's duration formatting.
- echo's `RealIP`, `UserAgent` and `X-Request-Id` header lookups are given strings, with "" meaning absent, because they are the framework's code.
- The next handler is represented by its result only. Its effect on the response is part of the response data the model takes as input.
- The response is the one the middleware reads after `c.Error` has run. echo's error handler may rewrite the status at that point, which is the framework's behaviour.
- Concurrency is not modelled. Concurrent requests write the shared `config.Log` without synchronisation, which is a data race; only sequential accumulation is modelled.
- The integer widths of Go `int` (status) and `int64` (size) are not modelled. The values are copied into fields without arithmetic, so width has no effect.
- A nil `config.Log` (a panic in the source) is not modelled. It is a misconfiguration the source does not handle.
- The JSON struct tag on `Skip2XX` is not modelled. It is serialisation metadata with no behaviour.
- The two curried layers of `ZapLogger` (the middleware factory and the handler wrapper) only capture `config` and `next`. They are folded into `Invoke` taking both directly.

## Findings

| source | as written | input that shows it | evidently intended | confidence | as-written member | corrected member |
|---|---|---|---|---|---|---|
| logger.go:26 | The derived logger `config.Log.With(zap.Error(err))` is assigned back into the shared Config, so the error field stays on every later record | Request 1: the handler returns error "boom" and the status is 500. Request 2: the handler returns nil and the status is 200. Request 2's record carries error=boom | Attach the error to the current request's record only, using a local derived logger | high; not executed | `Middleware.ErrorLeaksIntoLaterRequest` | `Corrected.RunNoLeak` |
| logger.go:43-47 | The `request_id` append sits inside the fallback branch, so an id found on the request header is looked up but never logged | Request header `X-Request-Id: abc`: the record has no request_id field | Append the resolved id after the fallback lookup, whichever header supplied it. When neither header carries an id, the resolved id "" is still logged, as the code does today on the fallback path | medium; not executed | `Fields.RequestIdDroppedWhenOnRequest` | `Corrected.ResolvedRequestIdReadBack` |
