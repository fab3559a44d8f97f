# A verified model of the MCP bridge

The bridge carries JSON-RPC messages of the Model Context Protocol between HTTP clients and a
subprocess that speaks on stdin and stdout. This project models its stateful parts in Dafny 4.11 and
proves whole-run properties of them. `dafny verify dfyconfig.toml` checks everything.

| part | files | form |
|---|---|---|
| event-stream codec (section 9.2.6 of the HTML Living Standard) | SseFormat, SseStream, SseLines, SseWriter, SseReader, SsePipe | classes with the loops of the source, proved against a format of lines and records |
| subprocess manager | ProcessManager, ProcessRuns | goroutines as program counters; a step is one statement |
| rate limiter | RateLimiter | class with a ghost log of the run, proved against a one-IP limiter |
| OAuth grants (RFC 6749 sections 4.1 and 6, RFC 7636 section 4.6) | Storage, Csrf, Requests, Grants, GrantRuns, AuthServer | the handlers as methods on shared storage, each proved equal to a step of the machine in Grants; the run properties are proved there, and in GrantRuns from the calls and answers alone |
| session manager | Sessions, SessionRuns | goroutines as program counters over a heap of sessions |
| request/response correlation | Correlation, CorrelationRuns | handlers and read loops as program counters |
| client with retries (notification rule of section 4.1 of JSON-RPC 2.0) | Backoff, ClientModel, ClientRetry, ClientProperties, ClientStdout | classes with both retry loops, each method proved equal to a function of ClientModel; the properties are proved there |

In the three concurrent models a schedule is any sequence of steps, and the main lemmas hold of every
schedule. Where the code cannot decide something (a select with two ready arms, map iteration order,
a process exit, a timer, the outcome of a network exchange), the step or the method takes it as a
parameter or asks an oracle that is left arbitrary. Fields whose comment says that they record history
influence no step; they only let a property speak about the past.

## What the proofs showed about the code

- `Close` marks the manager closed before it calls `Stop`, so that `Stop` is always refused.
  The comment at internal/process/manager.go:468 says that it stops the process;
  it does not. What the call does contribute is a pass through the mutex, and the proof needs it.
- The rate limiter can grant (k+1)*limit - 1 requests within k windows, and not one more, as long as the
  window lasts at least k nanoseconds; RateLimiting.MostGranted is the exact maximum for any interval.
- A client's registered redirect URIs can never reach beyond the global list, because loopback
  matching is transitive.
- A federated callback checks that its request is still pending but not how old it is. A request older
  than ten minutes is honoured until the next sweep (Grants.PendingSurvivesIff, Grants.CallbackIsHonouredIff,
  Grants.LateCallbackIsHonoured).
- Two HTTP clients whose requests with the same JSON-RPC id are registered at the same time share one
  entry of the pending table: the later registration takes the response, and whichever finishes first
  removes the entry of the other. The table is exact in exactly the runs in which this does not happen
  (Correlation.TableIsExactIff); using an id again after the earlier request is done is harmless.
- A read loop that finds no stdout returns without clearing its flag, after which no response is ever
  routed again. This is the only way in which routing stops for good (Correlation.SilentIff); the loop
  that fails to read does clear the flag.
- Order of notifications within a session holds because a single read loop broadcasts them one after
  the other. The read lock by itself admits overlapping broadcasts that arrive in the opposite order.
- Section 9.2.6 of the HTML Living Standard says that a blank line without data before it makes the reader
  forget the event's name, and that an event cut off by the end of the stream is discarded. This reader
  keeps the name (SseLines.NameOutlivesBlankLine) and delivers the event as far as it has data
  (SseLines.FirstEvent).
- The transport's retry loop never retries on an HTTP status: a response ends it, so the status branch
  of `shouldRetry` is never reached.
- The comment at internal/client/client.go:261 says that a message that meets an expired session is sent
  again without it. That is so if and only if retries are on, MaxRetries is at least one and the context
  is live at the first wait (ClientProperties.ExpiredIsResentIff); otherwise the message is given up.
- A write that stdout cuts short does not end the client. Stdout holds exactly the answers written if and
  only if no write was cut short after its first byte (ClientStdout.StdoutOfRun).
- The first wait of both retry loops is not capped by `MaxDelay`.
- docs/reference/api.md:552 says that the bridge has no rate limiting; internal/authserver/ratelimit.go
  implements it, and the code is what is modelled.

## Assumptions

Bytes are characters, time is an integer number of nanoseconds that never runs backwards, and integers
are unbounded. Generated codes, tokens, client ids and states are fresh. SHA-256 with base64url and URL
parsing are arbitrary functions; of a loopback URI (RFC 8252 section 7.3) only path and query matter.
The retry multiplier is an integer; the schedule results require it to be at least 1 and
`0 <= InitialDelay <= MaxDelay`, and say so.

## Model

| member | source | states |
|---|---|---|
| `ProcessManagement.NoInterleavingPanics` | internal/process/manager.go:208-624 | In every interleaving of Start, Stop, Restart, Close, the monitors and their automatic restarts, nothing is sent on the closed event channel, it is not closed twice, and the WaitGroup always equals the number of live monitors (plus one counted but not yet started); once the channel is closed no monitor is left, and no caller is about to send or to close it |
| `ProcessManagement.NoMonitorCountedOnceCloseWaits` | internal/process/manager.go:462-487 | Once Close has been through the mutex, no goroutine is inside startLocked or about to enter it, so no monitor is added while Close waits; this is what the Stop inside Close is for |
| `ProcessManagement.StopInsideCloseIsAlwaysRefused` | internal/process/manager.go:302-312 | The Stop that Close calls always finds the manager already closed and is refused; it never stops the process |
| `ProcessManagement.AutomaticRestartsAreBounded` | internal/process/manager.go:559-607 | With MaxRestarts > 0, all monitors together call startLocked at most MaxRestarts times over the life of the manager, whatever callers do meanwhile; which exits lead to a call is ProcessRuns.UnaskedExitDecides |
| `ProcessManagement.CloseAdvances` | internal/process/manager.go:462-487 | Each statement of Close moves it one stage on, and the channel is closed only when the WaitGroup is at zero and nobody can count a new monitor |
| `ProcessManagement.LaunchRespects` | internal/process/manager.go:225-299 | The statements of startLocked, which run under the mutex, keep the invariant: the WaitGroup is raised before the monitor exists, and a start already past its closed check still holds the mutex that Close needs |
| `ProcessManagement.WatchRespects` | internal/process/manager.go:490-607 | Each statement of a monitor keeps the mutex, the flags and the WaitGroup count as Close relies on; what the statements come to is in ProcessRuns |
| `ProcessManagement.StopRespects` | internal/process/manager.go:302-374 | Each statement of Stop and of the first half of Restart does so too |
| `ProcessManagement.SendRespects` | internal/process/manager.go:610-624 | The offer, evict, offer again of sendEvent never blocks and keeps the channel within its capacity |
| `ProcessManagement.StepKeepsSafe` | internal/process/manager.go:208-624 | One step of any goroutine keeps the invariant behind the results above |
| `ProcessManagement.StepKeepsBudget` | internal/process/manager.go:559-599 | One step of any goroutine keeps every restart number handed out at most once and within the counter |
| `ProcessRuns.NothingRestartsWhenOff` | internal/process/manager.go:559-563 | With RestartOnFailure off, in every interleaving no restart is ever counted, announced or given up, and no monitor ever comes to startLocked |
| `ProcessRuns.UnaskedExitDecides` | internal/process/manager.go:551-597 | In every run, a process that exits unasked has failed if RestartOnFailure is off; it has failed for good if the restarts are used up; otherwise its monitor announces a restart and, once the timer fires and unless the manager has been closed, enters startLocked under the mutex with the next restart number. Each with the whole state it leaves, however the environment decides meanwhile |
| `ProcessRuns.AskedExitStops` | internal/process/manager.go:513-549 | An exit under Stop or after Close leaves the manager stopped and is reported as a stop; nothing restarts |
| `ProcessRuns.WaitingRestarts` | internal/process/manager.go:582-597 | A waiting monitor restarts when the timer fires, unless the manager is closed; if the context is cancelled first it gives up, and the state is stopped |
| `ProcessRuns.StartLaunches` | internal/process/manager.go:208-222 | Start is refused by a closed manager and by one that is running or starting, without any change; otherwise it goes on to launch, with the mutex |
| `ProcessRuns.LaunchTries` | internal/process/manager.go:225-283 | A launch sets the state to starting, and then either the process runs or the state is failed |
| `ProcessRuns.RestartStarts` | internal/process/manager.go:377-394 | A Restart of a manager whose process is not running comes to what a Start comes to, unless its context ends its pause |
| `ProcessRuns.StopReturns` | internal/process/manager.go:352-386 | The wait of Stop for the exit fails only by the context of the caller, and only then Restart does not go on to Start |
| `ProcessRuns.NewManagerIsIdle` | internal/process/manager.go:182-222 | The first Start of a new manager launches a process; a Stop before that does nothing |
| `ProcessRuns.LaunchWatches` | internal/process/manager.go:273-299 | Once the process runs, a monitor is counted, then started, then the start is reported and the mutex let go; the monitor waits for the process |
| `ProcessRuns.LaunchFails` | internal/process/manager.go:264-271 | A launch that fails lets go of the mutex with the state failed; if a monitor made it, the failure is reported |
| `ProcessRuns.StopStops` | internal/process/manager.go:302-334 | Stop is refused by a closed manager, has nothing to do unless the process is running, and otherwise marks it as stopping before it waits for the exit; the mutex is free by then |
| `ProcessRuns.StoppedProcessStays` | internal/process/manager.go:302-374 | A running process that is stopped and exits is reported as stopped and is not restarted |
| `ProcessRuns.CloseCloses` | internal/process/manager.go:462-487 | The first Close marks the manager, cancels its context, waits for the last monitor, and only then closes the channel; it leaves state and process alone. Later ones do nothing |
| `ProcessRuns.SendLeads` | internal/process/manager.go:610-624 | An event that is sent is the last in the channel afterwards; when 16 were waiting, exactly the oldest has made room |
| `ProcessRuns.EventsArriveInOrder` | internal/process/manager.go:610-624 | In every interleaving, every event put into the channel was received, is waiting or was evicted; if none was evicted, what was received and what is waiting are what was put in, in order |
| `RateLimiting.RateLimiter.Allow` | internal/authserver/ratelimit.go:53-71 | The answer and the new table are those of the abstract limiter on the run so far, extended by this call |
| `RateLimiting.RateLimiter.Cleanup` | internal/authserver/ratelimit.go:106-116 | The sweep removes exactly the windows that have ended, and no later answer changes |
| `RateLimiting.CleanupAndOtherClientsAreInvisible` | internal/authserver/ratelimit.go:53-116 | The answers to one IP are those of a limiter that sees only that IP and never sweeps |
| `RateLimiting.WithinLimitNeverRefused` | internal/authserver/ratelimit.go:57-70 | An IP that asks at most limit times in each closed interval of one window length is never refused |
| `RateLimiting.NoRefusalWithinLimit` | internal/authserver/ratelimit.go:57-70 | The same completeness from any window that covers the requests so far |
| `RateLimiting.OneMoreCall` | internal/authserver/ratelimit.go:53-116 | Running one more call extends the answers to the run by the answer to that call |
| `RateLimiting.GrantsAreBounded` | internal/authserver/ratelimit.go:53-71 | In every run, whatever other IPs and sweeps do, the requests of one IP granted within any closed interval are at most MostGranted of its length: the full windows that fit, or the end of one window and the full windows after it |
| `RateLimiting.GrantsReachTheBound` | internal/authserver/ratelimit.go:57-70 | For every interval length there is a run that reaches exactly that |
| `RateLimiting.RateBound` | internal/authserver/ratelimit.go:53-71 | Hence fewer than (k+1) * max(1, limit) requests are granted in any closed interval of k window lengths, for k >= 1 |
| `RateLimiting.RateBoundIsSharpIff` | internal/authserver/ratelimit.go:57-70 | That bound, less one, is the exact maximum if and only if the window lasts at least k nanoseconds, or the limit is one and it lasts at least k - 1 |
| `RateLimiting.SoloRateBound` | internal/authserver/ratelimit.go:57-70 | The exact bound for one IP from any window opened before the interval |
| `SseStream.EventSurvivesIffWellFormed` | internal/server/sse.go:249-302 | A single event comes back unchanged if and only if its id and name have no LF and no CR at the end and no data line ends in CR |
| `SseStream.TruncatedStream` | internal/client/sse_reader.go:124-151 | After a cut at any byte, the reader delivers a prefix of the events and then at most one more, with its own name and id and the join of a non-empty prefix of its data lines, and that one only on an orderly EOF |
| `SseStream.LinesOfStream` | internal/server/sse.go:74-96 | The printed bytes split into exactly the lines of the records |
| `SseStream.ReadWellFormedEvent` | internal/client/sse_reader.go:124-175 | Reading the lines of one well-formed event delivers it and leaves the rest |
| `SseStream.ReadOtherRecord` | internal/server/sse.go:174-209 | Retry records and comments are skipped by the reader |
| `SseStream.FieldIsParsed` | internal/client/sse_reader.go:255-271 | Parsing a printed field line gives back its field and value |
| `SseStream.CutLines` | internal/client/sse_reader.go:124-151 | The same truncation result for a cut between lines |
| `SseStream.RoundTrip` | internal/client/sse_reader.go:112-175 | Repeated reading of the encodings of any sequence of well-formed records delivers exactly the events, in order, each with the last non-empty id so far, then the end; retry records and comments add nothing |
| `SseLines.EventBytes` | internal/server/sse.go:249-302 | The bytes of an event: id, event and retry lines if present, one data line for each line of the data, a blank line |
| `SseLines.DecimalReadsBack` | internal/server/sse.go:174-190 | The printed number of a retry record reads back as that number, digit by digit |
| `SseLines.LineMeans` | internal/client/sse_reader.go:138-175 | Any field line, by whomever it was written, with or without the space after the colon, a colon, or a CR at the end, means what its field and value say; a line that begins with a colon means nothing, and an empty one ends an event |
| `SseLines.FirstEvent` | internal/client/sse_reader.go:112-175 | From any lines at all, reading delivers one event at the first blank line that has data before it, or at an orderly end: its data fields up to there joined by LF, the last event field, the last id field; otherwise nothing |
| `SseLines.NameOutlivesBlankLine` | internal/client/sse_reader.go:142-151 | For any name and data, a blank line between them does not forget the name |
| `SsePipe.ReadBack` | internal/client/sse_reader.go:198-221 | Whatever calls were made on a writer, if none of its writes failed and what it was given is well formed, a reader of the response delivers exactly the events written and ends with the last non-empty id |
| `SseFormat.JoinOfSplit` | internal/server/sse.go:86-95 | Joining the lines of a text gives the text back |
| `SseFormat.CompleteLinesOfPrefix` | internal/client/sse_reader.go:124-140 | A prefix of the bytes has a prefix of the complete lines |
| `SseWriting.SseWriter.WriteSseEvent` | internal/server/sse.go:249-302 | Sends exactly the encoding of the event, or the part the response accepts, or nothing once closed, and reports which |
| `SseWriting.SseWriter.WriteEvent` | internal/server/sse.go:64-109 | The same for an event without id |
| `SseWriting.SseWriter.WriteEventWithId` | internal/server/sse.go:122-171 | The same for an event with id |
| `SseWriting.SseWriter.WriteRetry` | internal/server/sse.go:174-190 | The same for a retry record |
| `SseWriting.SseWriter.WriteComment` | internal/server/sse.go:193-209 | The same for a comment |
| `SseWriting.SseWriter.AppendData` | internal/server/sse.go:85-95 | The loop prints one data field for each line of the data |
| `SseWriting.EncodeOneMore` | internal/server/sse.go:99-105 | Writing one more record appends its encoding to the stream |
| `SseWriting.RetryPrinted` | internal/server/sse.go:174-190 | The bytes of a retry record |
| `SseWriting.CommentPrinted` | internal/server/sse.go:193-209 | The bytes of a comment |
| `SseReading.SseReader.ReadMessage` | internal/client/sse_reader.go:179-194 | Delivers the first event of type message, having skipped only events of other types |
| `SseReading.BufferedSseReader.PeekEvent` | internal/client/sse_reader.go:292-312 | Shows the first remaining event and removes nothing |
| `SseReading.BufferedSseReader.NextEvent` | internal/client/sse_reader.go:316-336 | Removes exactly the first remaining event |
| `SseReading.BufferedSseReader.UnreadEvent` | internal/client/sse_reader.go:340-346 | Puts an event in front of everything that remains |
| `SseReading.BufferedSseReader.DrainBuffer` | internal/client/sse_reader.go:356-363 | Removes exactly the buffered prefix of what remains |
| `SseReading.BufferedSseReader.TakeWithPeeks` | internal/client/sse_reader.go:292-336 | However often the caller peeks in between, n calls of NextEvent give the first n events of the plain reader |
| `SseReading.BufferedSseReader.UnreadThenNext` | internal/client/sse_reader.go:316-346 | Unread followed by Next changes nothing |
| `SseReading.SseReader.ReadLine` | internal/client/sse_reader.go:124-140 | Takes exactly one complete line off the stream, or consumes an unfinished last line |
| `SseReading.SseReader.ScanEvent` | internal/client/sse_reader.go:124-175 | The line loop finds exactly the next event of the remaining lines, keeps the last event id, and says why it ended |
| `SseReading.SseReader.ReadEvent` | internal/client/sse_reader.go:112-175 | Takes exactly the first event off the events ahead, or there is none ahead |
| `SseReading.SseReader.ReadEvents` | internal/client/sse_reader.go:198-221 | Delivers everything ahead, in order, and leaves the final last event id |
| `Storage.SweepsAreInvisible` | internal/authserver/storage_memory.go:79-99 | While no store is refused, every read answers as in a table that is never swept |
| `Storage.NothingAfterDelete` | internal/authserver/storage_memory.go:140-145 | In every interleaving of storage calls, a read after a completed deletion finds nothing until the key is stored again |
| `Storage.SweepTable` | internal/authserver/storage_memory.go:79-99 | The loop removes exactly the expired entries |
| `Storage.MemoryStorage.StoreAuthorizationCode` | internal/authserver/storage_memory.go:111-118 | Stores the code, or refuses at the limit and changes nothing |
| `Storage.MemoryStorage.GetAuthorizationCode` | internal/authserver/storage_memory.go:122-137 | Finds a code exactly while it is stored and not expired |
| `Storage.MemoryStorage.DeleteAuthorizationCode` | internal/authserver/storage_memory.go:140-145 | Removes exactly that code |
| `Storage.MemoryStorage.StoreRefreshToken` | internal/authserver/storage_memory.go:150-158 | Stores the token, or refuses at the limit and changes nothing |
| `Storage.MemoryStorage.GetRefreshToken` | internal/authserver/storage_memory.go:161-176 | Finds a token exactly while it is stored and not expired |
| `Storage.MemoryStorage.DeleteRefreshToken` | internal/authserver/storage_memory.go:179-184 | Removes exactly that token |
| `Storage.MemoryStorage.StoreClient` | internal/authserver/storage_memory.go:202-210 | Stores the client, or refuses at the limit and changes nothing |
| `Storage.MemoryStorage.GetClient` | internal/authserver/storage_memory.go:213-221 | Finds a client exactly when it is stored |
| `Storage.MemoryStorage.CleanupExpired` | internal/authserver/storage_memory.go:79-99 | Sweeps both tables that expire |
| `CsrfTokens.CsrfTable.GenerateToken` | internal/authserver/authorize.go:154-174 | Stores the token for ten minutes; the sweep it performs changes no later answer for any other token |
| `CsrfTokens.CsrfTable.ValidateToken` | internal/authserver/authorize.go:177-193 | Accepts exactly a token whose last use was its generation less than ten minutes ago, and consumes it |
| `CsrfTokens.AcceptedOnce` | internal/authserver/authorize.go:177-193 | In every run, two acceptances of one token have a new generation in between, less than ten minutes before the second |
| `CsrfTokens.AcceptedIff` | internal/authserver/authorize.go:177-193 | In every run, a token is accepted if and only if it was generated less than ten minutes ago and not used since |
| `Requests.IsAllowedRedirectUri` | internal/authserver/authorize.go:442-461 | The loop decides whether some list entry equals the URI or is a loopback URI with the same path and query |
| `Requests.ClientListIsWithinGlobalList` | internal/authserver/authorize.go:442-475 | Matching is transitive, so a URI let through by a list that lies within the global list is let through by the global list |
| `Requests.CheckRequest` | internal/authserver/authorize.go:402-439 | A request is accepted if and only if it asks for a code, names client and redirect URI, matches the list and has an S256 challenge of 43 base64url characters; only a missing method is filled in |
| `Requests.Granted` | internal/authserver/builtin.go:138-151 | A scope is granted if and only if it is requested and allowed |
| `Requests.FilterScopes` | internal/authserver/builtin.go:138-151 | The two loops compute exactly the granted scopes, in the order requested |
| `Requests.AllowedIff` | internal/authserver/authorize.go:442-475 | A URI is allowed if and only if it is on the list, or it and one on the list are http URIs on localhost, 127.0.0.1 or ::1 without user, fragment or opaque part and with the same path and query, whatever their ports |
| `Grants.TokenProvenance` | internal/authserver/token.go:165-278 | In every run, each access token and stored refresh token, however long its refresh chain, carries the user, client and scope of one stored code of a login of that user; the scopes are among the user's own, and the verifier that opened the chain hashes to the S256 challenge of the code |
| `Grants.OneChainPerCode` | internal/authserver/token.go:155-189 | In every run with token requests served one at a time, no code is exchanged twice and an exchanged code has at most one live refresh token |
| `Grants.NothingIsAcceptedTwice` | internal/authserver/token.go:165-239 | A code that was looked up, even by an exchange that failed afterwards, and a rotated token are never found again |
| `Grants.RefreshAlwaysHasRoom` | internal/authserver/token.go:233-239 | A refresh never fails because the table is full |
| `Grants.StoredCodesWereChecked` | internal/authserver/authorize.go:258-322 | Every code ever stored passed the global redirect list and its client's own list and has method S256 and a 43-character challenge |
| `Grants.ClientsStayWithinGlobalList` | internal/authserver/authserver.go:260-265 | In every run, whatever a registered client's list lets through, the global list lets through |
| `Grants.LoginExchangeRefresh` | internal/authserver/token.go:115-278 | Login, then exchange by the client that knows the verifier, then refresh succeed and carry the user and the scopes granted at login |
| `Grants.StepPermitted` | internal/authserver/authorize.go:258-322 | Each call keeps every stored code, pending request and client within what was checked |
| `Grants.StepBalances` | internal/authserver/token.go:155-278 | Each call keeps codes, exchanges, chains and issued tokens in balance |
| `Grants.AcceptedRequest` | internal/authserver/authorize.go:383-439 | A request that passes validation and the client check may be turned into a code |
| `Grants.LoginScopes` | internal/authserver/authorize.go:288-294 | The scopes of a login are among the user's own |
| `Grants.UpstreamScopes` | internal/authserver/authorize_federated.go:232-238 | The scopes of a federated login are among those the upstream granted |
| `Grants.PendingSurvivesIff` | internal/authserver/authorize_federated.go:80-99 | Unless its state is given out again, a federated login is open after a run if and only if no step was its callback or a sweep more than ten minutes after its creation |
| `Grants.CallbackIsHonouredIff` | internal/authserver/authorize_federated.go:206-285 | A callback hands out a code if and only if the login is still open in that sense, the upstream user is known, and there is randomness and room; how late it comes does not matter |
| `Grants.LateCallbackIsHonoured` | internal/authserver/authorize_federated.go:206-219 | A run from the start in which a login begun at time 0 is honoured more than ten minutes later |
| `GrantRuns.TokensTakeTheSecret` | internal/authserver/token.go:95-112 | In every run, a call at the token endpoint that is given tokens presented the secret with which its client was last registered, unless that is empty; a client never registered is let through only if registration is not required. A well-formed call of which this is not so, and only such a call, is told that its client is not authentic, and changes nothing |
| `GrantRuns.ClientsAreRegistered` | internal/authserver/authserver.go:255-294 | In every run, the clients known are those registered, each with the secret and redirect URIs of its last registration |
| `GrantRuns.ExchangeIssuesIff` | internal/authserver/token.go:115-190 | Exactly what an exchange does: without a live code for a well-formed, authentic call nothing changes; otherwise the code is gone, and tokens with its user and scope are issued if and only if client, redirect URI and verifier fit, signing works, and there is randomness and room for one more refresh token |
| `GrantRuns.RefreshIssuesIff` | internal/authserver/token.go:193-240 | Exactly what a refresh does: without a live token that belongs to the authentic client nothing changes; otherwise the token is gone, and new ones for the same user, client and scope are issued if signing works and there is randomness |
| `GrantRuns.LogInIssuesIff` | internal/authserver/authorize.go:258-322 | Exactly what a login does: for an eligible request and a known user, if there is randomness and room, it stores a code with that client, redirect URI, challenge and user, the granted scopes and the lifetime of codes |
| `GrantRuns.CallbackIssuesIff` | internal/authserver/authorize_federated.go:206-285 | Exactly what a callback does: the login is no longer open, and the code carries the upstream user as a local one, email before subject and name before both |
| `GrantRuns.LoginScopesArePicked` | internal/authserver/authorize.go:286-294 | The scopes asked for that the user has decide; if there are none, the supported ones that the user has |
| `GrantRuns.UpstreamScopesArePicked` | internal/authserver/authorize_federated.go:232-238 | The scopes asked for that the upstream granted decide; if there are none, all that it granted |
| `GrantRuns.ScopeReadsBack` | internal/authserver/token.go:301-311 | The words of the scope that a code or token carries are the scopes granted |
| `GrantRuns.TokensComeFromLogins` | internal/authserver/token.go:115-278 | In every run, whatever tokens are issued answer an exchange of a code that an earlier login of the run stored, or a refresh of tokens that an earlier call issued; within its lifetime, for the first time since, by the same client, and for the same user and scope |
| `GrantRuns.ChainsStartAtLogins` | internal/authserver/token.go:115-278 | However long the chain of refreshes, it starts with the exchange of the code of a login of the run, and carries nothing that this did not allow |
| `GrantRuns.PendingOrigin` | internal/authserver/authorize_federated.go:102-162 | In every run, a pending federated login was begun by an eligible call, and since then there was neither a callback for it nor a sweep that found it too old |
| `GrantRuns.CodeSurvivesIff` | internal/authserver/storage_memory.go:79-145 | In every run, a code is there until an exchange finds it, however that ends, or a sweep comes after its lifetime, and not longer |
| `GrantRuns.TokenSurvivesIff` | internal/authserver/storage_memory.go:79-190 | The same for refresh tokens |
| `AuthServing.AuthServer.ValidateClientAuth` | internal/authserver/token.go:95-112 | True exactly if the client is unknown and need not be registered, or is known and its stored secret is empty or the one presented |
| `AuthServing.AuthServer.HandleAuthorizationCode` | internal/authserver/token.go:115-190 | Does to the storage exactly what the exchange of the abstract machine does, which GrantRuns.ExchangeIssuesIff and GrantRuns.TokensTakeTheSecret spell out |
| `AuthServing.AuthServer.HandleRefreshToken` | internal/authserver/token.go:193-240 | Does exactly what the abstract refresh does, which GrantRuns.RefreshIssuesIff and GrantRuns.TokensTakeTheSecret spell out |
| `AuthServing.AuthServer.Issue` | internal/authserver/token.go:243-298 | Does exactly what issuing does, including its failures |
| `AuthServing.AuthServer.CheckClient` | internal/authserver/authorize.go:383-399 | Decides exactly whether the client may use the redirect URI |
| `AuthServing.AuthServer.HandlePost` | internal/authserver/authorize.go:233-334 | With a good form token, does exactly what the abstract login does; otherwise changes nothing but the form tokens |
| `AuthServing.AuthServer.CleanUpPending` | internal/authserver/authorize_federated.go:80-99 | The loop removes exactly the pending requests older than ten minutes |
| `AuthServing.AuthServer.HandleRegister` | internal/authserver/authserver.go:255-294 | Registers exactly when all redirect URIs are allowed and there is room |
| `AuthServing.AuthServer.ServeFederated` | internal/authserver/authorize_federated.go:102-162 | Does exactly what the abstract start of a federated login does; a request is kept even if the upstream URL cannot be built |
| `AuthServing.AuthServer.HandleCallback` | internal/authserver/authorize_federated.go:165-296 | Does exactly what the abstract callback does, for reported errors too; without a code nothing changes, otherwise the pending request is consumed |
| `Sessions.NoInterleavingPanics` | internal/server/session.go:146-174 | In every interleaving of creations, broadcasts, closes and evictions, nobody about to send on a session channel or to close one finds it closed, although QueueNotification lets go of the session lock between check and send; and whenever no writer holds the manager lock every session in the table is open |
| `Sessions.SessionsAreAccountedFor` | internal/server/session.go:260-287 | In every interleaving, sessions created minus sessions closed or evicted is the size of the table, which never exceeds the limit; which sessions a close removes is SessionRuns.CloseRemovesExactly |
| `Sessions.NotificationsArriveInOrder` | internal/server/session.go:353-360 | In every interleaving, what a session received followed by what is queued is exactly what broadcasts since its creation queued, and one is dropped only with 100 waiting; without overlapping broadcasts these are all broadcasts since its creation, in order |
| `Sessions.BroadcastIsSafe` | internal/server/session.go:146-161 | A broadcaster, which holds the manager's read lock, never finds a closed channel at its send |
| `Sessions.CloseSessionIsSafe` | internal/server/session.go:164-174 | Closing a session under the manager's write lock leaves every other session open |
| `Sessions.CloseDeleteIsSafe` | internal/server/session.go:316-338 | Deleting the closed session leaves only open ones; that it is one the close was asked to remove is SessionRuns.RemovedOnlyOnRequest |
| `Sessions.AttemptKeepsSession` | internal/server/session.go:154-160 | One attempt queues the notification if there is room and loses nothing else |
| `Sessions.StepIsSound` | internal/server/session.go:146-421 | One step of any goroutine keeps the invariant behind these results |
| `Sessions.OverlappingBroadcastsCanSwap` | internal/server/session.go:353-360 | A run in which two overlapping broadcasts reach a session in the opposite order |
| `SessionRuns.RemovedOnlyOnRequest` | internal/server/session.go:316-421 | In every interleaving, a session leaves the table, and its channel is closed, only by the last close that took the manager lock, and only if that was asked to close it by its id, to close all, or found it expired |
| `SessionRuns.CloseRemovesExactly` | internal/server/session.go:316-421 | In every interleaving, a close that has finished has closed and removed exactly the sessions in the table with the id it was given, or all, or those found expired; every other session is there as before, and open |
| `SessionRuns.NobodyIsStuck` | internal/server/session.go:146-421 | In every interleaving, whoever holds the manager lock can take its next step, and if nobody does, everybody can: no deadlock between the manager lock and the session locks |
| `SessionRuns.CloseEnds` | internal/server/session.go:316-338 | Each step of a close brings it one step nearer to the release of the lock, after six steps for each session |
| `SessionRuns.CreationAdds` | internal/server/session.go:260-287 | A creation adds one empty open session under a new id if there is room, and nothing at the limit; an id that is taken is not used |
| `SessionRuns.OneBroadcastAtATime` | internal/server/session.go:353-360 | In every run in which no two broadcasts hold the read lock together, a session is served each broadcast since its creation once, in order |
| `Correlation.AnswersMatchRequests` | internal/server/handler.go:207-305 | In every interleaving, a handler is only ever sent responses with its own id string, and its answer is the first one routed to it; that the subprocess sent them is CorrelationRuns.RepliesComeFromTheSubprocess |
| `Correlation.ResponseReachesOneHandler` | internal/server/handler.go:524-547 | In every interleaving, even when id strings are reused, a response reaches at most one handler |
| `Correlation.FirstResponseIsKept` | internal/server/handler.go:530-546 | In every interleaving, the first response that found a handler is never dropped |
| `Correlation.AtMostOneLoop` | internal/server/handler.go:457-467 | In every interleaving at most one read loop is alive, and only while the flag is set |
| `Correlation.MessagesDoNotInterleave` | internal/server/handler.go:222-243 | Unless a write fails, what the subprocess is sent is whole messages, one after the other, plus at most the one in progress |
| `Correlation.StepIsGood` | internal/server/handler.go:207-547 | One step of any handler or loop keeps the invariant behind these results |
| `Correlation.TableIsExactIff` | internal/server/handler.go:207-219 | In every interleaving, the pending table holds exactly the registered, unfinished requests at every state if and only if at no state two of these share an id string |
| `Correlation.ResponseFindsItsRequest` | internal/server/handler.go:530-539 | After a run without such a clash a response that the loop has read is routed to the registered request with its id string, and is dropped if and only if there is none; from the read to the channel it is CorrelationRuns.ResponseIsDelivered |
| `Correlation.ReusedIdLosesARegistration` | internal/server/handler.go:211-219 | A run with a clash: two clients use one id string at the same time, and the first loses its registration when the second is done |
| `Correlation.SilentIff` | internal/server/handler.go:456-493 | In every interleaving, the bridge ends with the flag set and no read loop left if and only if at some step a starting loop found no stdout |
| `Correlation.MissingStdoutSilencesForGood` | internal/server/handler.go:470-475 | However the run goes on after that step, no loop is alive and no request that arrives later is ever answered |
| `Correlation.StdoutCanBeMissing` | internal/server/handler.go:470-475 | Such a run exists, with a request that is forwarded in full and waits in vain |
| `CorrelationRuns.RepliesComeFromTheSubprocess` | internal/server/handler.go:470-547 | In every interleaving, whatever response a handler was routed, has in its channel or answers with, the subprocess sent with that id and those bytes: it is the response of that number that the loop read; and the id is the one with which the request arrived |
| `CorrelationRuns.ResponseIsDelivered` | internal/server/handler.go:524-547 | After a run without a clash, the loop takes a response in three steps to the one registered request with its id, into its channel if that is empty, and changes nothing else; if there is none it drops it |
| `CorrelationRuns.HandlersArrived` | internal/server/handler.go:200-243 | In every interleaving, a handler stands for the message with which it arrived, with its id and body |
| `CorrelationRuns.ForwardedIsWhatArrived` | internal/server/handler.go:222-243 | In every interleaving, the messages forwarded are those of the handlers past their writes and not told of a failure, each once, and each is a message that arrived |
| `CorrelationRuns.MessageIsForwarded` | internal/server/handler.go:200-243 | Undisturbed, a message is written whole with an LF, after which a request waits under its id and a notification is done; without stdin nothing is written and no entry is left |
| `CorrelationRuns.RequestIsAnswered` | internal/server/handler.go:200-305 | A request that is forwarded and whose id a response then carries is answered with exactly that response, and its entry is gone |
| `CorrelationRuns.WaitEnds` | internal/server/handler.go:251-305 | A wait ends with the response in the channel, a timeout or a cancellation, and in each case the entry is removed |
| `CorrelationRuns.WriteFails` | internal/server/handler.go:231-242 | A failed write leaves a prefix behind and releases stdin, the handler reports it, and the entry is gone |
| `CorrelationRuns.FailedLoopIsReplaced` | internal/server/handler.go:457-493 | A loop that fails to read is gone with the flag clear, and the next message starts another |
| `ClientProperties.TryIff` | internal/client/transport.go:293-354 | The attempts of the transport are exactly those of an independent description: all but the last failed for a retryable reason with the context live in between, the last decides, the waits follow the schedule; any response ends the loop, whatever its status |
| `ClientProperties.SendFacts` | internal/client/transport.go:144-197 | A Send makes an attempt if and only if the transport is open, it is authenticated and one is allowed; it succeeds if and only if the last exchange is a readable 2xx; at most MaxRetries+1 attempts and MaxRetries waits; each failure has its own error |
| `ClientProperties.GivenUpIff` | internal/client/client.go:197-334 | A message is given up if and only if its first Send fails and, with retries on, so does every retry that it comes to, up to MaxRetries, as long as the context is live at the waits |
| `ClientProperties.MessageStaysWithin` | internal/client/client.go:197-334 | All attempts of a message carry exactly its bytes; it costs at most (MaxRetries+1)^2 attempts, one when retry is off, and at least one if Sends are possible; it is sent again if and only if the first Send fails, a retry is allowed and the context is live; the time asleep is at most (MaxRetries+2)*(InitialDelay+(MaxRetries-1)*MaxDelay) |
| `ClientProperties.DownCostsTheBudget` | internal/client/client.go:288-331 | When nothing answers, a message costs exactly its budget of attempts |
| `ClientProperties.ExpiredIsResentIff` | internal/client/client.go:256-263 | A message that meets an expired session is sent again, then without a session id, if and only if retries are on, MaxRetries is at least one and the context is live at the first wait |
| `ClientProperties.MessageSettles` | internal/client/client.go:220-248 | If a message is given up, stdout is untouched and only an expired session id is dropped; otherwise the last exchange succeeded, and for a request with a non-empty body stdout gets that body, and an LF if it lacks one, as far as there is room |
| `ClientProperties.RunIsRecorded` | internal/client/client.go:132-172 | In a whole run each message costs at most its budget, with its bytes and in input order, and at least one attempt if Sends are possible; each message on stdout is the body of a response to an attempt for a request, at most one for each, in input order |
| `ClientProperties.RunStops` | internal/client/client.go:132-172 | A run handles the messages in turn until stdin ends, the context is found done, or a message fails with a context error behind it, and returns nil, the context error or that error; any other failure does not end it |
| `ClientProperties.WhyGivenUp` | internal/client/client.go:253-334 | The error of a message that is given up: with retries on, the context error of the wait that found it done, or that the retries are used up; with retries off, that of its first Send, or that retries are off if that found the session expired |
| `ClientStdout.StdoutOfRun` | internal/client/stdio.go:183-214 | After any run, stdout is told by the exchanges: it got the bodies of the successful exchanges made for requests, in order, each followed by an LF if it lacks one, as far as there was room. It holds the ones taken in full and nothing else if and only if no write was cut short after its first byte; these are all of them if there was always room; and then they are one line each if and only if none has an LF before its last byte |
| `ClientStdout.AnswerIsOneLineIff` | internal/client/stdio.go:183-214 | An answer with its final LF is exactly one line if and only if it has no LF before its last byte |
| `ClientRetry.Transport.TryOnce` | internal/client/transport.go:303-343 | One round: the attempt carries the whole body and leaves it whole for the next; it goes on only after a retryable failure, with attempts left and the context live |
| `ClientRetry.Transport.DoWithRetry` | internal/client/transport.go:293-354 | Makes exactly the attempts and waits, with the result, that Try says, each with the whole body and the session |
| `ClientRetry.Transport.Send` | internal/client/transport.go:144-197 | Does exactly what SendingFrom says: nothing on the wire when closed or not authenticated, otherwise the retry loop, and success only on a readable 2xx |
| `ClientRetry.Client.WriteMessage` | internal/client/stdio.go:183-214 | Adds the message, and an LF if it does not end in one, to stdout; when stdout takes only a part, that part stays behind and the write fails |
| `ClientRetry.Client.Accept` | internal/client/client.go:220-248 | The session id follows the response; a notification writes nothing, a request writes a non-empty body once |
| `ClientRetry.Client.RetryMessage` | internal/client/client.go:278-334 | Does exactly the retries of RetryFrom, or nothing with retries off |
| `ClientRetry.Client.HandleSendError` | internal/client/client.go:253-275 | Does exactly what HandleError says: an expired session is dropped first |
| `ClientRetry.Client.HandleMessage` | internal/client/client.go:197-249 | Leaves exactly the record, and returns exactly the error, of Handle |
| `ClientRetry.Client.Run` | internal/client/client.go:132-172 | Leaves exactly the record of RunFrom, for the same messages handled and with the same error |
| `Backoff.ScheduleIsDelays` | internal/client/client.go:285-330 | The waits of a loop that multiplies and caps its delay are the closed form below |
| `Backoff.DelayIsCappedPower` | internal/client/transport.go:339-343 | The i-th wait is min(InitialDelay * multiplier^(i-1), MaxDelay) |
| `Backoff.DelaysGrow` | internal/client/client.go:326-330 | Waits never decrease and stay between InitialDelay and MaxDelay |
| `Backoff.MaximumHoldsIff` | internal/client/client.go:285-330 | All waits respect MaxDelay if and only if InitialDelay does, since the first wait is never capped |
| `Backoff.LoopSleepsWithin` | internal/client/transport.go:301-343 | With MaxRetries >= 1, one retry loop sleeps at most InitialDelay + (MaxRetries-1) * MaxDelay |

## Left out

- ProcessManagement.NoInterleavingPanics: signals, pipes, pid and the wait channel are not modelled; a process exit is a step that may happen at any time.
- ProcessRuns.UnaskedExitDecides: says what a monitor comes to while no other goroutine moves, whatever the environment decides; what holds in every interleaving is in ProcessRuns.NothingRestartsWhenOff and ProcessManagement. The same goes for the other results of that file about one goroutine.
- CorrelationRuns.RequestIsAnswered: speaks of a request that nobody disturbs; what holds in every interleaving is in CorrelationRuns.RepliesComeFromTheSubprocess and Correlation.
- Sessions.NotificationsArriveInOrder: says nothing about reaching an SSE client, since a notification is both sent directly and queued; the session lock is modelled for the check and for Close only.
- Correlation.MessagesDoNotInterleave: speaks of runs in which no write to the subprocess fails; a failed write may leave part of a message behind, which the model records.
- Correlation.FirstResponseIsKept: a critical section that makes one access under pendingMu or readLoopMu is one step; the mutex around stdin is taken and released in steps of its own.
- Grants.OneChainPerCode: token requests are served one at a time; with overlapping requests lookup and deletion are separate steps and two exchanges of one code can both succeed. Storage.NothingAfterDelete is what holds in every interleaving.
- AuthServing.AuthServer.HandlePost: the form, its errors and the redirects are reduced to an outcome; an empty user name or password and a failed authentication are one outcome.
- SseReading.BufferedSseReader.NextEvent: the reader is used by one goroutine; the buffer mutex, which the source releases before it reads, is not modelled.
- SseWriting.SseWriter.WriteSseEvent: each write is told how many bytes the response accepts; headers, flushing and the writer's mutex are not modelled.
- ClientRetry.Client.Run: stdin is given as its messages; how they are read and trimmed is not modelled, and neither is the SSE mode of the client. The transport is open or closed for the whole run.
- ClientRetry.Transport.Send: request headers other than the session id, and the contents of responses other than status, session id and body, are not modelled; whether a message is a notification is an arbitrary function of its bytes.
- Backoff.DelayIsCappedPower: rounding of a fractional multiplier is not modelled.
- Storage: revoking all tokens of a user, deleting a client, and the upstream tokens that a federated code carries.
- Requests: how the scope parameter is split, and the default of an empty list of supported scopes, belong to the caller.
- Last-activity times, GetSession and listing of sessions: which sessions have expired is a parameter of the eviction step.
- HTTP plumbing, the login page, TLS, configuration, logging and the command line.
- JWT signing, JWKS, metadata endpoints, the OpenID Connect and upstream clients: network clients and library wrappers.
- The JSON-RPC types and MCP structs: easy, and the properties here need only ids and bytes.
