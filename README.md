# actix-htmx chat session and handler rules, in Dafny

This project models the two parts of the actix-htmx web backend that hold logic of their own, and proves properties about them.

- **The per-connection chat session** (`ChatSocket`, src/actors/actor.rs). It is a WebSocket actor. When it starts, it sends the greeting `Hello world!`. It then handles one inbound frame at a time:
  - A Text frame is parsed as JSON. If it has a string `chat_message`, the message goes through the HTML sanitizer. The result is spliced into a fixed htmx fragment: an append (`hx-swap-oob="beforeend"`) into `#chat_room`, then a replacement (`hx-swap-oob="morphdom"`) of the `form-ws` composer. The fragment is sent back as one Text frame.
  - A Binary frame is echoed unchanged.
  - A Close frame is acknowledged with the same reason, and the actor stops.
  - Every other frame is ignored: Continuation, Ping, Pong, Nop, and protocol errors.
- **Four rules inside the HTTP handlers** (src/handlers/handler.rs):
  - the `counter` cookie of `/cookie`;
  - the result shaping of `/api/sanity` (`get_content`);
  - the shared counter of `/increment` (`get_comp`);
  - the cookies that `/logout` clears.

Files:

- `chat_socket.dfy`: module `ChatSocket`. It holds the frame types, the template, and the pure specification `React`, `Step` and `Run`. `Run` gives the frames sent and the stopped flag after any sequence of inbound frames. The class `Session` is the actor together with its context: the outbound frame log `sent` and the `stopped` flag. Its `Valid()` ties the class state to `Run` of the frames received so far.
- `handlers.dfy`: module `Handlers`. It holds the cookie counter and its page, `get_content` (a method with the source's loop, proved against the function `ContentOutcome`), the `Counter` class of `get_comp`, and `logout`.
- `browser.dfy`: module `Browser`. This is an independent reference model of the user agent. It stores the cookies a response sets, following sections 5.2.2 and 5.3 of RFC 6265: a Max-Age of 0 or less expires the cookie, and storing it removes the old one. It is used to state what the handlers' cookies achieve.
- `int32.dfy`: module `Int32`. It models Rust's `str::parse::<i32>` and `i32::to_string` over unbounded integers, with the 32-bit range checked explicitly.
- `json.dfy`: module `Json`. It models serde_json's `Value`, indexing with `value[key]`, and `as_str`.
- `wrappers.dfy`: module `Wrappers`. It holds `Option` and `Result`.

Library calls are function-typed parameters, so the proofs hold for every such function:

- `serde_json::from_str` and `ammonia::clean`, in `ChatSocket.Libraries`;
- the Sanity `get_json` and `from_value::<Item>`, in `Handlers.Cms`.

The outcome of the Sanity HTTP fetch is an input of `GetContent`.

The code's catch-all `_ => ()` also ignores Ping and Pong frames, and the model follows the code.

## Model

| member | source | states |
|---|---|---|
| `ChatSocket.Session.constructor` | src/handlers/handler.rs:148-150 | `ws::start(ChatSocket {}, ...)` creates a session that is not yet started, has sent nothing and is not stopped |
| `ChatSocket.Session.Started` | src/actors/actor.rs:61-64 | on start, exactly one frame is sent, the Text `Hello world!`, before any inbound frame is handled; the session is running |
| `ChatSocket.Session.Handle` | src/actors/actor.rs:25-55 | handling a frame appends to the log exactly the frames `React` prescribes and sets `stopped` as `React` says, unless the session has already stopped; the state stays equal to `Run` of all frames received |
| `ChatSocket.Session.SendText` | src/actors/actor.rs:31 | `ctx.text` (also used for the greeting) appends exactly one Text frame to the log and nothing else |
| `ChatSocket.Session.SendBinary` | src/actors/actor.rs:46 | `ctx.binary` appends exactly one Binary frame with the given payload |
| `ChatSocket.Session.SendClose` | src/actors/actor.rs:48 | `ctx.close(reason)` appends exactly one Close frame carrying the reason |
| `ChatSocket.Session.Stop` | src/actors/actor.rs:49 | `ctx.stop()` marks the session stopped and sends nothing |
| `ChatSocket.React` | src/actors/actor.rs:26-54 | one inbound frame causes at most one outbound frame; the actor stops exactly on Close; no frame is sent exactly when the frame is one of the ignored kinds |
| `ChatSocket.ChatMessage` | src/actors/actor.rs:29 | `parsed["chat_message"].as_str()` gives a message exactly when the value is an object whose `chat_message` member is a string, and then it gives that string |
| `ChatSocket.TextReply` | src/actors/actor.rs:27-44 | a Text frame gets a reply exactly when it parses as JSON and has a string `chat_message` m; the reply is a fragment that reads back as `clean(m)` |
| `ChatSocket.TextDropped` | src/actors/actor.rs:28-29 | a Text frame is ignored exactly when it is not JSON, or not an object, or its `chat_message` is missing or not a string |
| `ChatSocket.RenderFragment` | src/actors/actor.rs:31-42 | character by character, the reply is the fixed chat-room opening, then the sanitized message at a fixed offset, then the fixed trailer, with the lengths adding up |
| `ChatSocket.RenderThenParse` | src/actors/actor.rs:31-42 | the fragment carries the sanitized message whole and untruncated between the fixed chat-room opening and the fixed trailer; its length is the message length plus a constant |
| `ChatSocket.ParseThenRender` | src/actors/actor.rs:31-42 | every frame with the template's shape is the rendering of the message it carries, so the fixed text is the only other content |
| `ChatSocket.RenderInjective` | src/actors/actor.rs:30-41 | different sanitized messages give different fragments |
| `ChatSocket.GreetingFirst` | src/actors/actor.rs:61-62 | whatever arrives, the first frame a session sends is the greeting |
| `ChatSocket.BinaryEchoed` | src/actors/actor.rs:46 | a Binary frame with payload B adds exactly one Binary frame with payload B, unsanitized, and the session keeps running |
| `ChatSocket.CloseThenSilence` | src/actors/actor.rs:47-50 | a Close with reason R adds exactly one Close frame carrying R and stops the session; no frame handled afterwards sends anything |
| `ChatSocket.IgnoredChangesNothing` | src/actors/actor.rs:51-53 | Continuation, Ping, Pong, Nop, protocol errors and undecodable Text frames send nothing and leave the running/stopped state unchanged |
| `ChatSocket.TextAnswered` | src/actors/actor.rs:27-42 | a Text frame whose `chat_message` is m adds exactly one Text frame, the template around `clean(m)`, and the session keeps running |
| `ChatSocket.TwoMessagesInOrder` | src/actors/actor.rs:25-45 | messages A then B give two frames in that order; each carries only its own sanitized message |
| `ChatSocket.RunExtends` | src/actors/actor.rs:47-50 | frames once sent are never withdrawn; a stopped session stays stopped and sends nothing more |
| `ChatSocket.AllFramesTraced` | src/actors/actor.rs:25-54 | every frame sent is the greeting, the reply to a received Text frame (its user text went through `clean`), or a Binary or Close frame that was received |
| `ChatSocket.CloseIsLast` | src/actors/actor.rs:47-50 | the session is stopped exactly when its last frame is a Close; a Close can only be the last frame, so at most one Close is sent |
| `Int32.Parse` | src/handlers/handler.rs:236 | `parse::<i32>` succeeds only on an optional sign followed by at least one digit and nothing else (a lone sign fails), and only with a value in the `i32` range |
| `Int32.ParseDigits` | src/handlers/handler.rs:236 | the converse of `Parse`'s contract: a non-empty run of digits, bare, after `+` or after `-`, parses to the value it denotes with that sign whenever that value is in the `i32` range, and fails otherwise |
| `Int32.LeadingZero` | src/handlers/handler.rs:236 | a leading `0` does not change the value a run of digits denotes |
| `Int32.ParsePlusSign` | src/handlers/handler.rs:236 | `"+5"` parses as 5 |
| `Int32.ParseLeadingZeros` | src/handlers/handler.rs:236 | `"007"` parses as 7 |
| `Int32.ParseBareSign` | src/handlers/handler.rs:236 | a lone `-` or `+` does not parse |
| `Int32.ToString` | src/handlers/handler.rs:241 | `to_string` gives a leading `-` exactly for negative values, then the decimal digits of the magnitude, with no leading zero except for `0` itself |
| `Int32.ParseToString` | src/handlers/handler.rs:236-241 | parsing the decimal string that `to_string` prints gives back the same `i32` |
| `Handlers.NextCounter` | src/handlers/handler.rs:235-239 | the new counter is always a valid `i32` |
| `Handlers.CounterStartsAtZero` | src/handlers/handler.rs:235-238 | with no `counter` cookie, the new value is 0 |
| `Handlers.CounterIncrementsAny` | src/handlers/handler.rs:236 | any cookie value that parses as the `i32` v, such as `+5` or `007`, gives v + 1 |
| `Handlers.CounterIncrements` | src/handlers/handler.rs:236 | in particular, a cookie holding the decimal of v, as the previous response stored it, gives v + 1 |
| `Handlers.CounterRecoversFromGarbage` | src/handlers/handler.rs:236 | a cookie value that is not an `i32` counts as 0, so the new value is 1 |
| `Handlers.NewCookie` | src/handlers/handler.rs:241 | `Cookie::new` gives a cookie with that name and value and no `HttpOnly`, `Secure` or Max-Age attribute |
| `Handlers.CookieHandler` | src/handlers/handler.rs:241-248 | the response cookie `counter` and the template's `user_counter` hold the same string, which is `to_string` of the new counter and parses back to it |
| `Browser.FirstVisit` | src/handlers/handler.rs:235-243 | a browser without the cookie ends up with `counter` set to `0` |
| `Browser.VisitStoresNext` | src/handlers/handler.rs:235-243 | a browser holding the previous response's decimal of v ends up with the decimal of v + 1; other cookies are untouched |
| `Handlers.DecodeAll` | src/handlers/handler.rs:296-308 | deserialization is all or nothing: it succeeds exactly when every element decodes, and then yields them in order; otherwise it yields the error of the first element that fails |
| `Handlers.NameOnly` | src/handlers/handler.rs:335 | `json!({"name": &item.name})` is an object whose only member is `name`, holding the item's name |
| `Handlers.Project` | src/handlers/handler.rs:334-335 | the map gives one name object per item, in the items' order |
| `Handlers.Shape` | src/handlers/handler.rs:333-336 | the output is the first `min(3, n)` items, in order, each reduced to `{"name": name}`, so never more than three |
| `Handlers.ContentOutcome` | src/handlers/handler.rs:286-337 | a failed fetch answers 500 with the fetch error's text; a 200 answer is an array of at most three objects |
| `Handlers.GetContent` | src/handlers/handler.rs:286-337 | the loop that fills `my_items` with early error returns computes exactly `ContentOutcome` |
| `Handlers.ContentSucceeds` | src/handlers/handler.rs:290-336 | the response is 200 exactly when the fetch succeeded, the body is an object, `result` is an array and every element decodes; the body then lists the first `min(3, n)` items by name, in order |
| `Handlers.ContentAllOrNothing` | src/handlers/handler.rs:303-306 | if any element of `result` fails to decode, the response is a 500 and no partial list is returned |
| `Handlers.ContentMalformed` | src/handlers/handler.rs:309-322 | a failed fetch (500 with its message), a body that is not a JSON object, or a `result` that is missing or not an array (500, empty body) |
| `Handlers.Counter.constructor` | src/main.rs:29 | the shared counter starts at 0 with no requests served |
| `Handlers.Counter.GetComp` | src/handlers/handler.rs:213-227 | each request adds exactly 1 to the counter and renders the new value, so after k requests from 0 it shows k |
| `Handlers.Logout` | src/handlers/handler.rs:31-58 | the response sets `access_token` and then `refresh_token`, each empty, `http_only`, `secure` and with max-age 0, and returns the login form |
| `Browser.LogoutSignsOut` | src/handlers/handler.rs:26-47 | after `logout`, the browser holds neither token cookie, and every other cookie is unchanged |

## Left out

- The actix actor runtime, mailbox, WebSocket upgrade and handshake: frames are calls to `Handle` made in sequence. The runtime's promises are preconditions or a guard: `started` runs first, and nothing is delivered after `ctx.stop`.
- `ammonia::clean`: a foreign library. It is any total function of strings, and the HTML safety of its output is not proved.
- `serde_json::from_str`, `get_json` and `from_value::<Item>`: foreign parsers, given as function parameters. JSON numbers are modelled as reals, without floating-point detail.
- The `println!` connection log in `started`, and the `dbg!`/`println!` logging in `get_content`: output only.
- `ChatSocket.Session.Handle`: the actual transmission of queued frames and the transport's teardown after `ctx.close` are not modelled. The log `sent` is the order in which frames are queued.
- Tera rendering of `comp.html` and `comp-user.html`: the model stops at the template variables the handlers provide.
- `Handlers.NextCounter`: does not model the `i32` overflow of `unwrap_or(0) + 1` when the cookie parses to `i32::MAX`. It panics or wraps depending on the build, so that input is excluded by the precondition.
- `Handlers.Counter.GetComp`: does not model the overflow of `*counter += 1` at `i32::MAX`, for the same reason. It requires the counter to be below `i32::MAX`.
- The mutexes around `Counter` and `MySanityConfig`: only the effect of one request at a time is modelled.
- `login` with its Supabase token exchange, the Postgrest `get_leaderboard`, the Sanity HTTP query itself, and environment lookups: network and environment I/O.
- The SSE stream of `events`: timer and stream driven.
- The static and template routes `index`, `about`, `content`, `draganddrop`, `open_dialog`, `close_dialog`, `hello`, and `render_template`: they only render templates or fixed strings.
- src/models/model.rs beyond the fields of `Item`, `Slug`, `Image` and `Asset`: plain data declarations.
- src/main.rs beyond the initial counter value: server wiring.
