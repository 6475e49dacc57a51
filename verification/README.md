# A verified model of the vkbot client

vkbot is a C++ client for the VK API. This project models its four pieces of logic that do not depend on
the network library, and proves what they guarantee. HTTP is replaced by arbitrary replies and errors,
JSON documents by a datatype whose accesses may fail the way `nlohmann::json` accesses throw.

- **Long Poll session.** `LongPoll` says what one reply does to key, server and ts and what one pass of
  the loop of `wait_for_event` does; `BotClient` is the class, with the loop proved to be the fold of
  those passes. `Generations` says which reply each part of a session comes from, `Delivery` which
  events of the server's log reach the caller and which are lost, and `BotRuns` lifts both to any
  sequence of `auth`, `reconnect` and `wait_for_event`, with the exact condition for being authorised.
- **Interruption.** `Interleaving` is a machine of atomic steps: one thread in the client, any number in
  `interrupt()` and `reset_interrupt()`. `InterruptSafety` and `CancelWindow` say what an interrupt
  guarantees under every schedule. `PollRefinement` says that every schedule gives a sequential run, so
  order and loss hold under interruption too; `Executions` says that every sequential call has a schedule,
  and shows the exceptions to the guarantees to be real. `Http` is the client as one thread sees it.
- **Encoders.** `Percent`, `Query`, `Multipart`, `HostPath` and `Decimal` hold the encoders and readers
  written as their specification (RFC 3986 sections 2.1 and 2.3, RFC 2046 section 5.1.1, RFC 7578
  section 4.1, URL Standard section 5.1), with the round trips. `KeyOrder` is the order of `std::map`
  and `std::set`.
- **Login and upload.** `UserClient` is the login with captcha and second factor; `Upload` the two
  overloads of `upload_photo`.

A byte string is a sequence of characters below 256. A call that throws is a call that returns a fault.
In the sequential view the values that the loop reads from the interrupt flag are inputs of each pass,
because other threads write it, and a cancel by another thread comes while a request talks; the machine
of `Interleaving` is where the loop is tied to the flag and a cancel may come at any step. Network messages
are what `NetworkException::what()` gives; its fixed first words are not spelled out.

Several lemmas and methods contain `hide` statements. They only keep definitions out of the solver's
sight for speed.

## What the code does where its documentation says otherwise

- A waiting call returns only the first update of a batch after ts has moved past all of it; the rest is
  never delivered (`Delivery.LossAccounting`, and exactly when nothing is lost, `Delivery.NothingLostIff`).
- `interrupt()` is documented to end `wait_for_event` with `operation_aborted`. That holds exactly when
  the call is at its first check, in its GET, in a refresh that brings a complete session, or past its
  re-check with a reply that makes the loop go round again (`InterruptSafety.AbortedIff`). A call past its
  re-check still returns its event (`Executions.LateEvent`), and one whose refresh is still to start
  throws the refusal of that refresh (`InterruptSafety.RefusedRefreshThrows`, `Executions.LateRefusal`).
- After `reset_interrupt()` events are meant to flow again. If it overlaps an `interrupt()`, the two
  flags can stay different with all calls finished, and every request is refused
  (`CancelWindow.OverlapBreaksFlags`; exactly when, `CancelWindow.FlagsEqualIff`).
- A captcha retry that the server answers with a token does not authorise
  (`UserClient.CaptchaRetryAlone`).
- `failed=1` carries a new ts that the code does not take (`LongPoll.TimeoutsRepeatGet`).

## Model

| member | source | states |
|---|---|---|
| Percent.UrlEncode | src/Utilities.cpp:15-32 | the loop gives the percent-encoding, which decodes to the input and has two more bytes for each escaped one |
| Percent.RoundTrip | src/Utilities.cpp:15-32 | decoding undoes encoding for every byte string, also for a reader that takes '+' as space |
| Percent.EncodeConcat | src/Utilities.cpp:24-30 | encoding distributes over concatenation |
| Percent.EncodeIdentity | src/Utilities.cpp:17-19 | a string is its own encoding exactly when every byte is unreserved |
| Percent.UnreservedList | src/Utilities.cpp:17-19 | the bytes left alone are exactly the list of RFC 3986 section 2.3 |
| Percent.EscapeForm | src/Utilities.cpp:21-30 | any other byte becomes '%' and the two capital hexadecimal digits of its value |
| Percent.EncodeAlphabet | src/Utilities.cpp:24-30 | encoded text never holds '&', '=' or '+' |
| Percent.EncodeInjective | src/Utilities.cpp:15-32 | two strings with one encoding are equal |
| Query.ParamsToQuery | src/ClientBase.cpp:40-54 | the loop visits the keys in ascending order, throws exactly when a value is no string, and gives the promised text |
| Query.QueryRoundTrip | src/ClientBase.cpp:40-54 | splitting on '&' and the first '=' and decoding gives back exactly the parameters, empty keys, values and map included |
| Query.QueryText | src/ClientBase.cpp:43-52 | the text is key=value, escaped, for the keys in ascending order, with '&' between |
| Query.QueryInjective | src/ClientBase.cpp:40-54 | different parameters never share a text |
| Query.ParamsMeaning | src/BotBase.cpp:481-488 | which documents can be filled with which parameters, and their texts |
| Query.FillBotMeaning | src/BotBase.cpp:481-488 | filling is the defaults overridden by the caller, and filling twice is filling once |
| Query.FillUserMeaning | src/UserBase.cpp:192-197 | the same for the user client's two defaults |
| Query.BotBodyContent | src/BotBase.cpp:270-273 | the body decodes to the caller's parameters over the defaults; there is one exactly when all values are strings |
| Query.UserBodyContent | src/UserBase.cpp:184-187 | the same for the user client |
| KeyOrder.LessMeaning | src/ClientBase.cpp:43 | the order is that of the first byte that differs, a proper prefix first |
| KeyOrder.InsertElements | src/ClientBase.cpp:18-24 | inserting a scope adds exactly that element and keeps the order |
| KeyOrder.AscendingUnique | src/ClientBase.cpp:18-29 | an ordered list is fixed by its set of elements |
| Decimal.StollReads | src/BotBase.cpp:396-401 | what `std::stoll` makes of blanks, sign, digits and a rest, and exactly when it throws |
| Decimal.StollParts | src/BotBase.cpp:396-401 | every text has such parts, so that is said of every text |
| Decimal.StollPrint | src/BotBase.cpp:396-403 | the reader gives back every printed 64-bit number, the smallest included |
| Decimal.PrintInjective | src/BotBase.cpp:403 | printing loses nothing |
| Decimal.PrintCanonical | src/BotBase.cpp:403 | a printed number has a '-' exactly when negative and no leading zero |
| Multipart.GenerateBoundary | src/BotBase.cpp:24-33 | the boundary is the prefix and sixteen letters or digits, at most 70 bytes, without CR |
| Multipart.BuildMultipartBody | src/BotBase.cpp:49-62 | the pieces written one by one are the one-part body |
| Multipart.BodyText | src/BotBase.cpp:54-60 | the body and the delimiter, written out line by line |
| Multipart.FirstDelimiter | src/BotBase.cpp:49-62 | the closing delimiter is the first one exactly when the data holds none; none straddles the end of the data |
| Multipart.MultipartRoundTrip | src/BotBase.cpp:49-62 | the reader recovers field, file name, type and data exactly when the names hold no quote, the type no CR and the data no delimiter |
| Multipart.MultipartInjective | src/BotBase.cpp:49-62 | different parts that can be read back never share a body |
| Multipart.QuotesCollide | src/BotBase.cpp:55-57 | with a quote in a name they may: for any texts two different parts that share one |
| HostPath.CutParts | src/BotBase.cpp:63-69 | host without '/', path starting with it, together the text that was cut |
| HostPath.HostPathRoundTrip | src/BotBase.cpp:63-69 | both splitters give back host and path of a URL made of them, the loop's also behind http:// |
| HostPath.SplittersAgree | src/BotBase.cpp:164-180 | the two splitters differ on every http:// URL and on no other |
| HostPath.PollQueryRead | src/BotBase.cpp:161-162 | the unescaped poll query is read as meant exactly when key, ts and wait hold no '&' |
| JsonValues.Accesses | src/BotBase.cpp:107-110 | what `contains`, `at` and `get<std::string>` give, on the document itself |
| JsonValues.IntegerAccess | src/UserBase.cpp:45-46 | what `get<int64_t>` and `get<int>` give: every number that fits unchanged, the rest modulo 2^64 |
| Http.SaysAbortedMeaning | src/BotBase.cpp:187-190 | the text test finds "aborted" or "cancel" anywhere, and nothing else |
| Http.RefusalSaysAborted | src/BotBase.cpp:187-190 | the exception of a refused request passes the loop's text test |
| Http.ReplyToMeaning | src/HttpClient.cpp:73-148 | a body comes out exactly when the network gave it, an exception exactly for the refusal or what set-up or talk threw |
| Http.HttpClient.Execute | src/HttpClient.cpp:73-148 | a set flag refuses; otherwise the exchange's end; a cancel meanwhile hits this request's socket; nothing stays registered on any exit |
| Http.HttpClient.Cancel | src/HttpClient.cpp:24-31 | sets the flag and hits the registered socket, which is alive |
| Http.HttpClient.ResetCancel | src/HttpClient.cpp:33-35 | clears the flag |
| LongPoll.ParsedMeaning | src/BotBase.cpp:275 | the caller gets exactly the document of a reply, and each exception has its one cause |
| LongPoll.TakeServerEffect | src/BotBase.cpp:717-720 | key, server and ts are assigned in that order up to the first bad one; it succeeds exactly when all three are there |
| LongPoll.DepthMeaning | src/BotBase.cpp:107-110 | how many are there, and their texts, on the document of the reply |
| LongPoll.TakeServerFaults | src/BotBase.cpp:710-720 | which exception comes out, exactly |
| LongPoll.DeliversExactlyWhen | src/BotBase.cpp:216-252 | exactly when a pass returns an event: the first update, under the name of its type |
| LongPoll.ThrowsExactlyWhen | src/BotBase.cpp:154-253 | exactly when a pass throws, and what |
| LongPoll.RefreshesExactlyWhen | src/BotBase.cpp:187-231 | exactly when a pass refreshes the session |
| LongPoll.PassSends | src/BotBase.cpp:154-231 | what a pass sends: nothing, its GET, or its GET and the POST of its refresh |
| LongPoll.PollGetContent | src/BotBase.cpp:161-185 | the server reads key, ts and wait of the moment behind the first '?', exactly when none of them holds an '&' and the path of the server URL no '?' |
| LongPoll.TimeoutsRepeatGet | src/BotBase.cpp:218-223 | k replies failed=1 leave the session and give k+1 equal GETs if the loop goes on |
| Generations.SessionOrigin | src/BotBase.cpp:717-720 | after any replies, torn ones too, key and server are those of their generation and ts of its base or a later poll, with generations in that order |
| Generations.GenerationOrder | src/BotBase.cpp:108-112 | key never older than server, server never older than the base of ts |
| Generations.GenerationsAgree | src/BotBase.cpp:108-112 | the generations agree exactly when the last reply with a key was complete; so always with well-formed replies |
| Delivery.DeliveredInOrder | src/BotBase.cpp:154-253 | events returned over any honest run are the log entries at strictly increasing positions, each under the name of its type |
| Delivery.LossAccounting | src/BotBase.cpp:237-252 | ts moves by delivered heads, batch tails, unreadable batches and skipped gaps, and by nothing else |
| Delivery.NothingLostIff | src/BotBase.cpp:237-252 | no event is lost exactly when every moving batch is one readable update and every refresh returns the current position |
| Delivery.MissingTsRepeats | src/BotBase.cpp:237-252 | an answer with updates but no ts delivers its event again |
| BotClient.AuthOutcome | src/BotBase.cpp:77-117 | `auth` returns normally exactly for a non-empty token and a complete session; each exception has its one cause |
| BotClient.ReconnectOutcome | src/BotBase.cpp:139-144 | the same for `reconnect`, about the token in force |
| BotClient.AuthSends | src/BotBase.cpp:89-99 | `auth` sends the one POST of the new token, and none for an empty one |
| BotClient.WaitNeedsAuth | src/BotBase.cpp:148-150 | a wait throws NotConnected exactly when unauthorised, and then sends and changes nothing |
| BotClient.BotBase.Auth | src/BotBase.cpp:77-117 | new state, exception and request of `auth`, for every exchange; refused while a cancel stands |
| BotClient.BotBase.Reconnect | src/BotBase.cpp:139-144 | the same for `reconnect`, which leaves the bot unauthorised while a cancel stands |
| BotClient.BotBase.RefreshLongPollServer | src/BotBase.cpp:695-725 | the same for the refresh |
| BotClient.BotBase.HandleBody | src/BotBase.cpp:216-252 | what one poll body does to ts and what it returns |
| BotClient.BotBase.OneTurn | src/BotBase.cpp:154-253 | one pass of the loop, with the GET built from the session at that moment |
| BotClient.BotBase.WaitForEvent | src/BotBase.cpp:146-254 | the loop is the fold of the passes: session, outcome, all requests and the cancel flag |
| BotClient.EveryRoundArises | src/BotBase.cpp:154-253 | every sequence of passes is one that the network can play, so the class loses none |
| BotClient.RefusedTurns | src/HttpClient.cpp:75-79 | while a cancel stands every GET of the loop is refused |
| BotClient.CancelledMeaning | src/HttpClient.cpp:24-35 | after some passes the cancel flag is set exactly when it was before or one of their requests was cancelled |
| BotClient.BotBase.WaitForEventOrThrow | src/BotBase.cpp:119-127 | an abort becomes an exception; session, other outcomes and requests are unchanged |
| BotClient.BotBase.Interrupt | src/BotBase.cpp:129-132 | sets both flags and hits a registered socket |
| BotClient.BotBase.ResetInterrupt | src/BotBase.cpp:134-137 | clears both flags |
| BotClient.BotBase.SendRequest | src/BotBase.cpp:261-276 | one POST with the prepared body, or the exception and none; the caller gets exactly the document of the reply; refused while a cancel stands |
| BotClient.BotBase.SendRequestAsync | src/BotBase.cpp:283-302 | the job holds the request of the state at the call |
| BotClient.RequestContent | src/BotBase.cpp:261-302 | a request goes out exactly when authorised, named and textual, to its method at the API host, and reads as the caller's parameters over the defaults; otherwise the first of the three decides the exception |
| BotClient.ServerPostContent | src/BotBase.cpp:700-708 | the getLongPollServer request goes to its method at the API host and reads as exactly token, group and version |
| BotRuns.AuthorizedIffEarned | src/BotBase.cpp:77-117 | authorised exactly when a full session was obtained for the token in force and nothing took it back; that token is not empty |
| BotRuns.RefusedCalls | src/BotBase.cpp:77-254 | while every request is refused nothing is delivered, the session stays, and the bot is authorised exactly until the first `reconnect`, or `auth` with another token |
| BotRuns.CallsAreRun | src/BotBase.cpp:77-254 | session and returned events of any calls are those of the replies they took |
| BotRuns.CallsOrigin | src/BotBase.cpp:77-254 | the generation order after any sequence of calls |
| BotRuns.CallsDeliver | src/BotBase.cpp:77-254 | order, at most once and the loss condition after any sequence of calls |
| Interleaving.SocketSafe | src/HttpClient.cpp:100-111 | in every reachable state a registered pointer is the current request's live socket and the mutex has the owner the threads say |
| Interleaving.UsedSocketIsLive | src/HttpClient.cpp:24-31 | a pointer about to be used is used under the mutex, by one thread, while its stream lives |
| Interleaving.NeverStuck | src/HttpClient.cpp:24-111 | in every reachable state a thread that waits for the mutex waits for one that can step |
| Interleaving.AloneIsExecute | src/HttpClient.cpp:73-148 | without controllers the steps of a request do what the method does |
| InterruptSafety.AtMostOneMoreRequest | src/BotBase.cpp:154-253 | with the flag set waiting calls start at most one more request, and only from two places |
| InterruptSafety.EventOnlyIfChecked | src/BotBase.cpp:211-253 | over later calls too, an event or the unknown result only from a reply already past the re-check at the interrupt |
| InterruptSafety.ExactOutcome | src/BotBase.cpp:154-253 | the outcome of an interrupted call is the verdict on its place, session and refresh; no schedule changes it |
| InterruptSafety.AbortedIff | src/BotBase.cpp:154-253 | an interrupted call ends aborted exactly from its first check, its GET, a refresh that brings a complete session, or an accepted reply that makes the loop go round |
| InterruptSafety.EndsWithinTwelveSteps | src/BotBase.cpp:154-253 | an interrupted call has its outcome after at most twelve worker steps |
| InterruptSafety.RefusedRefreshThrows | src/BotBase.cpp:191-206 | under every schedule a call whose refresh is due or has not loaded the cancel flag ends with the exception of the refusal |
| Executions.EveryCallArises | src/BotBase.cpp:146-254 | the converse of the refinement: whatever the replies and whatever the checks read, some schedule leads to the outcome and session of the fold |
| Executions.WholeRequest | src/BotBase.cpp:77-144 | an undisturbed request from outside the loop runs through the steps to its end; that of `auth` takes its reply into the session, any other does not |
| Executions.LateEvent | src/BotBase.cpp:211-252 | from the initial state, every first answer with an event can be returned after `interrupt()` has returned |
| Executions.LateRefusal | src/BotBase.cpp:191-206 | from the initial state, every network error that does not say abort can be followed by an interrupt that ends the call with the exception of the refusal |
| CancelWindow.FlagHistory | src/HttpClient.cpp:24-35 | the cancel flag is set exactly when a store of true stands |
| CancelWindow.ActiveHistory | src/HttpClient.cpp:100-111 | the pointer is a request's exactly between its two steps |
| CancelWindow.ExactWindow | src/HttpClient.cpp:75-111 | a request escapes a cancel exactly when no store stands at its load and the critical section is outside its registration |
| CancelWindow.SoleCancelWindow | src/HttpClient.cpp:24-111 | for one cancel alone and any request, refused ones too: load before store, and critical section outside the registration |
| CancelWindow.OpenInterval | src/HttpClient.cpp:100-111 | a request that registers and unregisters is registered between the two and at no other time |
| CancelWindow.EscapedStillAborts | src/BotBase.cpp:187-214 | a GET that escaped goes out, and its call ends aborted at the re-check exactly when an interrupt stands there or the GET failed with the text of an abort |
| CancelWindow.FlagsAgree | src/BotBase.cpp:129-137 | without overlap: cancelled implies interrupted or a reset under way, and the flags agree at rest |
| CancelWindow.FlagsEqualIff | src/BotBase.cpp:129-137 | with any overlap: the flags agree exactly when their last writers are of one kind |
| CancelWindow.OverlapBreaksFlags | src/BotBase.cpp:129-137 | the schedule that leaves the client refusing every request |
| PollRefinement.EveryRunRefines | src/BotBase.cpp:146-254 | under every interleaving outcome and session are those of the fold of the passes taken |
| PollRefinement.EveryRunDelivers | src/BotBase.cpp:146-254 | order, at most once and the loss condition under every interleaving |
| UserClient.UserBase.Create | src/UserBase.cpp:14-20 | fails exactly when an argument is empty |
| UserClient.UserBase.AddScope | src/ClientBase.cpp:18-20 | adds exactly the scope |
| UserClient.UserBase.ClearScope | src/ClientBase.cpp:26-29 | no scope is left |
| UserClient.UserBase.JoinScope | src/UserBase.cpp:71-77 | the loop builds the scope text |
| UserClient.UserBase.AuthToken | src/UserBase.cpp:26-62 | new state, result and request of the token login, for every reply |
| UserClient.UserBase.AuthLogin | src/UserBase.cpp:65-128 | new state, result and all POSTs of the password login, for every script |
| UserClient.UserBase.Handle2fa | src/UserBase.cpp:131-170 | the same for the second factor, partial writes included |
| UserClient.UserBase.SendRequest | src/UserBase.cpp:178-189 | one POST with the prepared body, or the exception and none; the caller gets exactly the document of the reply |
| UserClient.RepliesMeaning | src/UserBase.cpp:94-122 | the kinds of replies the login tells apart, on their documents |
| UserClient.FirstIdMeaning | src/UserBase.cpp:43-46 | the id is that of the first entry of the users.get response |
| UserClient.LoginOutcome | src/UserBase.cpp:88-170 | login succeeds exactly when the first reply is complete or a recognised challenge is answered completely; it throws exactly when a POST it reaches fails |
| UserClient.LoginFaults | src/UserBase.cpp:88-170 | the only exceptions of a login are those of the POSTs it reaches, unchanged |
| UserClient.TokenFaults | src/UserBase.cpp:26-39 | each exception of the token login has its one cause, and an empty token changes nothing |
| UserClient.CaptchaRetryAlone | src/UserBase.cpp:98-117 | a captcha retry without a challenge never authorises |
| UserClient.LoginPostsExact | src/UserBase.cpp:79-158 | the parameter maps a login posts, all of them and no other |
| UserClient.LoginRequestsContent | src/UserBase.cpp:89-158 | every request of a login goes to /token at the OAuth host and reads as the map that was posted |
| UserClient.ClientLoginPosts | src/UserBase.cpp:79-158 | at most three POSTs, each parameter map extending the one before |
| UserClient.CaptchaContent | src/UserBase.cpp:98-110 | the captcha retry carries the captcha's id and the typed text, and nothing else changes |
| UserClient.RetryContent | src/UserBase.cpp:138-158 | after a challenge the last POST carries the typed code, and a forced SMS exactly for the SMS challenge |
| UserClient.LoginPostContent | src/UserBase.cpp:79-91 | the first login request goes to the OAuth host and reads as exactly its six parameters |
| UserClient.TokenPostContent | src/UserBase.cpp:31-39 | the users.get request goes to the API host and reads as exactly token and version |
| UserClient.LoginIdentity | src/UserBase.cpp:118-169 | which token and id a login leaves, torn pairs included |
| UserClient.TokenIdentity | src/UserBase.cpp:42-61 | which token and id a token login leaves, and exactly when it returns true or throws |
| UserClient.AuthorizedIdentity | src/UserBase.cpp:26-170 | authorised exactly when the last effective call succeeded, and then token and id are the pair of that call |
| UserClient.ScopeTextJoin | src/UserBase.cpp:71-77 | the text is the comma join of the scopes, an empty one aside |
| UserClient.ScopeRoundTrip | src/UserBase.cpp:71-77 | splitting the text gives the scopes back if none holds a comma |
| UserClient.ScopeOrderIrrelevant | src/UserBase.cpp:71-77 | the order of `add_scope` calls does not show |
| UserClient.RequestContent | src/UserBase.cpp:178-189 | a user request goes out exactly when allowed, to its method at the API host, and reads as the caller's parameters over the defaults; otherwise the exception is the first that applies |
| Upload.TextsOfValues | src/BotBase.cpp:367-372 | which photo and server values are taken, and as which texts |
| Upload.IdsOfValues | src/BotBase.cpp:396-401 | which owner and id values are taken, and as which numbers |
| Upload.FileSends | src/BotBase.cpp:349-375 | the requests of the file overload: peer, file to the URL of the first reply, and the three texts of the second |
| Upload.BufferSends | src/BotBase.cpp:406-433 | the same for the buffer overload, with its own content type |
| Upload.SendsCount | src/BotBase.cpp:349-375 | how many of them go out, on authorisation and replies |
| Upload.FileFaults | src/BotBase.cpp:349-403 | each exception of the file overload has its cause; the rest are failed accesses |
| Upload.BufferUnnamed | src/BotBase.cpp:441-456 | what the buffer overload throws where only the other tests for owner and id |
| Upload.OverloadsAgree | src/BotBase.cpp:349-457 | both overloads return the same attachment or both throw, with the same requests up to the upload body; the kinds of their exceptions differ exactly when the upload comes as far as the saved photo and that lacks owner or id |
| Upload.PeerRequestContent | src/BotBase.cpp:350-352 | the first request goes to its method and reads as the peer over the defaults |
| Upload.SaveRequestContent | src/BotBase.cpp:366-375 | the third request goes to its method and reads as photo, server and hash over the defaults |
| Upload.ServerTextOrNumber | src/BotBase.cpp:370-372 | a server number and its text give the same parameter exactly when it fits in 32 bits |
| Upload.FileRequestContent | src/BotBase.cpp:331-339 | the upload body is read back exactly when the file name holds no quote, the type no CR and the bytes no delimiter |
| Upload.AttachmentText | src/BotBase.cpp:403 | the attachment is "photo", the owner, '_' and the id |
| Upload.AttachmentRoundTrip | src/BotBase.cpp:403 | owner and id come back from the attachment, for all 64-bit values |
| Upload.UploadedIsReadable | src/BotBase.cpp:349-457 | what either overload returns reads back as the owner and id of the saved photo; they succeed exactly when the upload comes that far and the reply gives both |
| Upload.TextOrNumber | src/BotBase.cpp:396-401 | a number and its decimal text give the same id and the same photo parameter |

## Left out

- TLS, name resolution, Beast streams, timeouts and what `socket->cancel` does to a blocked call: only the
  check, the registration, the wait and an arbitrary end are modelled.
- The texts of exceptions other than network ones: the model tells kinds of exceptions apart.
- The parsing and printing of JSON text, floating-point numbers in it, and repeated keys.
- The GET to `redirect_url` in the SMS branch of `handle_2fa`: it reads a view of a destroyed string, so
  the model treats replies as if they had no such field.
- `method_to_string` and `parse_event_type`: lookup tables; an event keeps the name of its type.
- `parse_error_code`, `random_id`, `send_photo`, the logger and the console prompts; captcha text, codes,
  boundary draws and file bytes are inputs.
- Weak memory: the atomics are used with acquire and release order, and the machine interleaves single
  steps in one order that all threads see.
- Two threads that wait on one client at a time: `HttpClient` is documented not to allow it.
- Parameters that are neither an object nor null make the fill throw; the model has no further detail of
  JSON arrays used as parameters.
- Interleaving.NeverStuck: says that some thread can step, not that the scheduler lets it.
- Delivery.DeliveredInOrder: assumes a server whose positions never go back and whose answers with
  updates carry ts; `MissingTsRepeats` shows what happens without the second.
