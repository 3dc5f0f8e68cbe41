# Verified models of the SSM session store and of jQuery's selector and callback machinery

The repository is a distributed session store: a servlet on any of N servers reads a session from the F+1 servers named
in the client's cookie, updates it, writes it to 2F+1 servers and issues a new cookie once F+1 of them acknowledged. Its
pages ship jQuery 1.11.1, whose Sizzle selector engine and Callbacks/Deferred objects are the other algorithmic core.
This project models both in Dafny and proves the properties their documentation and code promise.
`dafny verify dfyconfig.toml` checks everything.

**The session store.** The code is modelled at three levels.

- Text and objects: `JavaText` (join, split, decimal numbers), `Sessions` (the session object and its encodings), `Wire`
  (RPC messages and parsers), `SessionTable` (the versioned table and its collector), `RpcServer` (call IDs and one turn
  of the server loop), `RpcClient` (the two quorum loops with their receive loops), `Servlet` (the request handler).
- `Quorum`: what the quorum loops compute, as functions of who answered.
- `Cluster`: the whole service as a step system of requests, collector passes, crashes, reboots and clock ticks, with
  lost datagrams, half-done writes and lost pages. `Resilience`, `Collection` and `Logouts` state what whole runs
  promise, and exactly when a logout or the collector breaks it, `Shown` what the user is shown and for how long.

`Refinement` ties them together: a call of the text-level handler, while the text-level servers answer the requests it
really sends, is a request step of `Cluster`, from the requests sent to the reply and the servers' tables afterwards.

Assumptions: every datagram is delivered or lost before its request ends and is not duplicated (what happens with
duplicates is stated separately in `Quorum`); packets fit their buffer; each request is atomic; there is one
non-decreasing clock, read once per request; a client presents its latest cookie; in `Cluster` the replaced message
passed the page's check, which the handler does not repeat (`RpcServer.WriteStepOfAny` says what a server does with any
other); a reboot raises the reboot number before a request is served.

**jQuery.** `Dom` is a finite document with parent and sibling links, `Selectors` the meaning of a token list as a chain
of related elements, `Matchers` the compiler from tokens to matchers and its correctness, `MatcherRun` the run of
compiled matchers with their shared walk caches, `Select` the search with its ID shortcut and seeds, `NthChild` the child
filter with its index caches, `DocumentOrder` the comparator and the duplicate-free sort, `CallbackList` the callback
object, `CallbackRuns` its re-entrant runs, `Deferred` three lists wired together with nested fires, `DeferredCalls` the
calls they make.

Objects that the code updates in place are classes whose methods are proved against a function of the old state; the
functions carry the lemmas.

## Where the code differs from its documentation

The model follows the code.

- `isValidID` (src/proj1b/rpc/RPCConfig.java:27-38) looks a number up in a map keyed by server IDs; it never rejects a
  call ID, so replies are told apart by their fresh socket and their IP address only.
- "R out of WQ" locations (src/proj1b/servlet/proj1bServlet.java:92-96) are all of them, because R = WQ = F + 1.
- `sessionWrite` (src/proj1b/rpc/RPCClient.java:135-150) goes on listening to a server after its acknowledgement; a
  duplicated reply is counted again. `Quorum.BackupsDistinctIff` says exactly when that matters.
- A failed write leaves the next version on some servers while the client keeps the old one
  (src/proj1b/servlet/proj1bServlet.java:146-151); the consistency invariant holds regardless.
- A logout rewrites the version it found (src/proj1b/ssm/Session.java:76-80); when its page does not arrive, the servers
  named in the client's cookie need not agree any more. `Logouts.LogoutKeepsAgreementIff` says exactly when, and
  `Logouts.FailedLogoutBreaksAgreement` gives a run. "Disturbed" below means that a logout without a page broke the
  agreement in that sense. In the moment of such a logout its client can be shown the farewell on an open session
  (`Logouts.LogoutTextIsShown`).
- `empty` does not repair the firing index (WebContent/assets/js/jquery-1.11.1.js:3197-3201): additions that the same
  callback makes afterwards can be skipped. `CallbackRuns.EmptyThenAddMisses` gives a run.

## Model

| member | source | states |
|---|---|---|
| Resilience.SessionConsistency | src/proj1b/servlet/proj1bServlet.java:92-154 | Session consistency over whole runs: for a client whose replicas no failed logout disturbed, every server its cookie names holds nothing under the cookie's key but the session written when the cookie was issued, and, unless it crashed since, is up and still holds it until expiry, despite lost datagrams, failed writes, collector passes and reboots. |
| Cluster.RunKeepsInv | src/proj1b/servlet/proj1bServlet.java:92-154 | The invariant behind it, in every reachable state: agreement of the named servers; cookies name F+1 distinct known servers; session IDs are unique; table keys are their sessions' own; different clients hold different sessions. |
| Cluster.StepKeepsInv | src/proj1b/servlet/proj1bServlet.java:92-154 | Every single step (request, collector pass, crash, reboot, tick) keeps that invariant, whatever datagrams, acknowledgements or pages are lost. |
| Resilience.SurvivesFFailures | README.md:89-98 | After any run, with at most F of the F+1 named servers crashed since acknowledging or silent, an unexpired session is read back exactly as written when the cookie was issued; with at most F of the 2F+1 targets silent the reply is a page showing its update. |
| Shown.ShowsWhatWasTold | src/proj1b/servlet/proj1bServlet.java:101-154 | The same for what the user sees, in texts and times computed from the delivered pages of the run alone: up to the told moment the request works on the session and the page shows the told text, or what the button makes of it; after that moment it opens a new session with the default text. |
| Shown.WrittenIsTold | src/proj1b/ssm/Session.java:57-80 | In every run the session behind a client's cookie has the text and the time told: default text and 600000 ms from its creation, the text of a Replace, 600100 ms from each Refresh or Replace, and the farewell if its client was shown a copy that an unanswered logout had rewritten. |
| Shown.ToldIsLastReplaced | src/proj1b/ssm/Session.java:68-74 | In every run the text told is the message of the last delivered Replace on the session, or the default, or the farewell if its client has since been shown a copy that an unanswered logout had rewritten. |
| Shown.UndisturbedSeeNoLogout | src/proj1b/ssm/Session.java:76-80 | That never happens in runs whose requests come from clients no unanswered logout disturbed. |
| Shown.NothingOutlivesItsTime | src/proj1b/servlet/proj1bServlet.java:111-115 | After the told moment every request of an undisturbed client opens a new session, however many servers answer. |
| Logouts.LogoutTextIsShown | src/proj1b/ssm/Session.java:76-80 | A run in which a client is shown the farewell on an open session, by a load in the moment of a logout that was never answered. |
| Resilience.AllOutOfReachOpensFresh | src/proj1b/servlet/proj1bServlet.java:101-116 | A read comes back empty exactly when every asked server is cut off, down, or without the cookie's version, and the client then gets a fresh session. |
| Resilience.CrashesLoseIt | README.md:89-98 | The bound is tight: from every reachable state and for every client with a cookie there are at most F+1 crashes after which the client still holds the cookie and the session is lost, now and after any further steps. |
| Resilience.LostForGood | README.md:89-98 | Once no server that a cookie names holds its version of the session, none ever holds it again, whatever requests, collector passes, crashes, reboots and ticks follow. |
| Resilience.LostIffNothingIsRead | src/proj1b/servlet/proj1bServlet.java:101-116 | A client that can be served has lost its session in that sense exactly when no request of it reads anything, whichever datagrams get through. |
| Resilience.LostReadsNothing | src/proj1b/servlet/proj1bServlet.java:101-116 | A client whose session is lost is given a new one by each of its requests. |
| Logouts.LogoutKeepsAgreementIff | src/proj1b/ssm/Session.java:76-80 | A logout rewrites the same version; afterwards the servers of the old cookie still agree on the session written with it exactly when the request opened a fresh session, or left the session as it was, or reached none of them. |
| Logouts.FailedLogoutBreaksAgreement | src/proj1b/ssm/Session.java:76-80 | A run with F = 1: after a logout that reached one server of two, with no crash and no silent server, the client's unexpired session is not read back. |
| Logouts.CollectionShows | src/proj1b/ssm/SessionCleaner.java:12-22 | In that run a collector pass changes the next reply. |
| Resilience.SessionIdsAreUnique | src/proj1b/servlet/proj1bServlet.java:87-115 | Over any run the IDs of all created sessions, collected in order, are pairwise different, although counters restart at every reboot. |
| Resilience.VersionCountsUpdates | src/proj1b/servlet/proj1bServlet.java:119-154 | The version in a cookie equals the number of Refresh and Replace requests on its session whose page reached the client. |
| Resilience.VersionMovesByUpdates | src/proj1b/servlet/proj1bServlet.java:119-154 | One step leaves a client's version alone unless it is that client's own successful Refresh or Replace, which adds one; failed writes and plain loads change nothing. |
| Collection.CollectorIsInvisible | src/proj1b/ssm/SessionCleaner.java:12-22 | Taking every collector pass out of a run leaves the same replies, and table contents that differ in expired entries only, as long as without the passes no request's read meets an expired copy of its session before a live one. |
| Collection.CollectingShowsIff | src/proj1b/servlet/proj1bServlet.java:103-116 | For one request that condition is exact: some collecting of expired entries changes the session it works on exactly when its read hides a live copy behind an expired one. |
| Collection.UndisturbedRuns | src/proj1b/servlet/proj1bServlet.java:92-116 | Runs whose requests come from clients that no failed logout disturbed meet the condition. |
| Collection.NoCleansIsRun | src/proj1b/ssm/SessionCleaner.java:12-22 | Taking the passes out of any run leaves a run. |
| Refinement.ServeRequest | src/proj1b/servlet/proj1bServlet.java:59-198 | Calling the handler on the server's own state with the client's own cookie, over a network that carries the request texts really sent to the text-level servers and their answers back, is a request step of the cluster under that weather: same reply, same counter; reads of the cookie's session and version went to the step's locations in order, then writes of the step's session to the step's targets, and the writes that arrive leave the servers with the step's tables. The cookie of a delivered page is the one the client then holds, parses back to the session shown, and names servers that have it. |
| Refinement.ReplyCookieIsHolders | src/proj1b/servlet/proj1bServlet.java:141-154 | The cookie text of the step's reply is that of the cookie the step gives to its client; it parses back to the ID, version and locations of the session shown, which every server it names then holds. |
| Refinement.HandlerServesStep | src/proj1b/servlet/proj1bServlet.java:92-154 | The same for everything the handler's contract allows it to have sent, heard and tried in which order: there is a request step with that order, those reads, that session read and written, that reply and counter, and the tables the servers are left with. |
| Refinement.WritesRepresent | src/proj1b/rpc/RPCServer.java:83-89 | Handled by the servers they reach, the write requests of a request turn tables that represent a state into tables that represent the state after its step. |
| Refinement.DeliveredWrites | src/proj1b/rpc/RPCServer.java:83-89 | Write requests for one session put it into the tables of exactly the servers they reach, and leave the other tables alone. |
| Refinement.RunRepresents | src/proj1b/rpc/RPCServer.java:40-99 | Over whole runs: while all numbers fit the formats, what the servers' text handlers, collectors, crashes and reboots do to the stored tables leaves them with the tables of the step system. |
| Refinement.ReadRefines | src/proj1b/rpc/RPCClient.java:39-95 | Reads of a key, sent to servers that answer the texts sent, come to what the step system's read returns. |
| Refinement.WriteRefines | src/proj1b/rpc/RPCClient.java:108-172 | Writes of a session, sent to servers that acknowledge the texts sent, all go out and count exactly the targets the step system counts. |
| Cluster.ReadIsExact | src/proj1b/rpc/RPCServer.java:65-80 | Whatever a read brings back carries the session ID and version that the cookie asked for. |
| Cluster.ReadsWritten | src/proj1b/servlet/proj1bServlet.java:101-110 | A client without an attempted logout reads back the session its cookie was issued for, or nothing. |
| Cluster.LocatedFacts | src/proj1b/servlet/proj1bServlet.java:141-154 | The servers a new cookie names are F+1 different known targets, each of which stored the session. |
| Quorum.FirstAnswerIsFirst | src/proj1b/rpc/RPCClient.java:40-94 | The read result is null exactly when no listed server answered, and else the answer of the first one that did. |
| Quorum.OpenedIsMadeOf | src/proj1b/servlet/proj1bServlet.java:111-128 | What a request makes of its read, in literal texts and times: a session read up to its expiry goes on under its ID, anything else begins anew, and the button decides version, message and expiry. |
| Quorum.BackupsAreFirstAnswerers | src/proj1b/rpc/RPCClient.java:108-172 | Write quorum exactness without duplicated replies: the result is non-null exactly when WQ listed servers were heard, and is then the first WQ of them in list order, without repeats. |
| Quorum.WriteAvailable | src/proj1b/util/Utils.java:67-69 | With 2F+1 distinct targets of which at most F are silent, the F+1 acknowledgements are reached, for every F. |
| Quorum.BackupsDistinctIff | src/proj1b/rpc/RPCClient.java:134-150 | With duplicated replies, a backup list names WQ different servers exactly when no server is counted twice before the list is full. |
| Quorum.DuplicateReplyFillsQuorum | src/proj1b/rpc/RPCClient.java:134-150 | A concrete input: with F = 1 one duplicated acknowledgement fills the list with a single server. |
| RpcClient.RpcClient.SessionRead | src/proj1b/rpc/RPCClient.java:39-95 | The loop sends the read to the listed servers in order, up to the first one that is not silent and to nobody behind it, under one call ID that it then advances by one (as long as the local server's own replies echo it); that server decides the result: its session, or an exception when its reply is of no use or it has no address. |
| RpcClient.ReadOutcomeIs | src/proj1b/rpc/RPCClient.java:40-94 | A read throws exactly when the last server it contacts breaks it, and otherwise returns the first answer in list order, or null. |
| RpcClient.RpcClient.SessionWrite | src/proj1b/rpc/RPCClient.java:108-172 | The loop writes to every listed server in order, even after the list is full, under one call ID that it then advances by one (with the same proviso), and returns the list when it got full, else null. |
| RpcClient.WriteOutcomeIs | src/proj1b/rpc/RPCClient.java:108-172 | A write that does not throw returns the first WQ replies in list order, or null when there are fewer; it cannot throw when every reply starts with a number. |
| RpcClient.RpcClient.ReceiveOk | src/proj1b/rpc/RPCClient.java:60-80 | The receive loop ends at the first OK reply from the server asked, skips all other datagrams, and throws at a reply it cannot parse or at any datagram when the server has no address. |
| RpcClient.RpcClient.ReceiveAcks | src/proj1b/rpc/RPCClient.java:134-155 | The receive loop counts every reply from the server asked, repeats included, and never beyond WQ; it throws at one without a call ID. |
| RpcClient.AnswerOfServer | src/proj1b/rpc/RPCClient.java:60-84 | A socket on which a read was sent and that hears the asked server's answer to it, or nothing, yields what that server's table means for the key, or nothing. |
| RpcClient.AckOfServer | src/proj1b/rpc/RPCClient.java:134-155 | A socket on which a write was sent and that hears the asked server's acknowledgement of it counts it exactly once. |
| RpcServer.ReadExchange | src/proj1b/rpc/RPCServer.java:65-80 | From request text to decoded reply, a read returns exactly the session the table means under that ID and version, 'OK' exactly when there is one, and leaves the table alone. |
| RpcServer.WriteExchange | src/proj1b/rpc/RPCServer.java:83-89 | A write request stores exactly its session before it is acknowledged with the request's call ID. |
| RpcServer.WriteStepOfAny | src/proj1b/rpc/RPCServer.java:83-89 | For every message, checked by the page or not, a write request either stores and acknowledges exactly what is left of its session, or gets no response and changes nothing. |
| RpcServer.WriteIsAnsweredIff | src/proj1b/rpc/RPCServer.java:83-89 | A write request is answered exactly when its message has no delimiter, or has a '#' before any '_' with a number from there to the next delimiter. |
| RpcServer.CutMessageIsStored | src/proj1b/rpc/RPCServer.java:83-89 | A message that ends in '#' and a number is stored without them, and the number becomes the expiry. |
| RpcServer.AnswerEchoes | src/proj1b/rpc/RPCServer.java:43-58 | Whatever a datagram asks for, an answer to it starts with its first field, the call ID. |
| RpcServer.OtherExchange | src/proj1b/rpc/RPCServer.java:57-95 | A no-op is answered OK and any unknown operation code is turned away, with the request's call ID and the table left alone. |
| RpcServer.ServerStepKeepsTableValid | src/proj1b/rpc/RPCServer.java:59-95 | No datagram, however malformed, breaks the rule that every table key is the text of its own session's ID and version. |
| RpcServer.RpcServer.Handle | src/proj1b/rpc/RPCServer.java:43-99 | One turn of the receive loop does to table and response what the step function says, for every operation code and for requests that make it throw. |
| RpcServer.RpcConfig.IsValidID | src/proj1b/rpc/RPCConfig.java:27-38 | The check looks a number up among server IDs, so it records every call ID and turns none away. |
| RpcServer.RpcConfig.GetLocalCallID | src/proj1b/rpc/RPCConfig.java:40-45 | The local call ID, entered as 0 when there is none yet. |
| RpcServer.RpcConfig.IncrementLocalCallID | src/proj1b/rpc/RPCConfig.java:47-53 | Only the local server's call ID moves, by one. |
| Wire.ReadRoundTrip | src/proj1b/rpc/RPCStream.java:86-116 | Parsing a joined read request gives back call ID, operation, session ID and version. |
| Wire.WriteRoundTrip | src/proj1b/rpc/RPCStream.java:126-138 | Parsing a joined write request gives back the whole session exactly when its message contains neither '#' nor '_'. |
| Wire.ExtractOfWrite | src/proj1b/rpc/RPCStream.java:126-138 | What parsing a joined write request gives for any message: of the message and its expiry, as far as the first '_', what is before the first '#' as the message and what is from there to the next one as the expiry, or an exception when that is not a number. |
| Wire.WrittenMessageIsClean | src/proj1b/rpc/RPCStream.java:126-138 | A message that parsing a write request brings back never contains a delimiter. |
| Wire.ReplyRoundTrip | src/proj1b/rpc/RPCClient.java:71-83 | The client reads back the call ID, the code and the payload that the server appended. |
| Sessions.DecodeOfEncode | src/proj1b/ssm/Session.java:41-52 | decode(encode(s)) is s exactly when the message contains no '#', for all integers in range and for empty messages. |
| Sessions.KeyTextInjective | src/proj1b/ssm/SessionManager.java:30-33 | Different (server, reboot, counter, version) tuples never share a table key. |
| Sessions.MessagesStayClean | WebContent/index.jsp:171-182 | Default, refreshed, logged-out and page-validated messages contain no delimiter and some character that is not blank. |
| Sessions.TrimIsEmpty | WebContent/index.jsp:173-176 | Trimming leaves nothing exactly of the blank messages. |
| Sessions.LifetimesAre | src/proj1b/util/Constants.java:30-32 | A session is expired 600000 ms after its creation and 600100 ms after a Refresh or Replace, a load does not change its time, and a logged-out one is expired at every later moment. |
| Sessions.MessagesAre | src/proj1b/ssm/Session.java:64-80 | Replace shows the new message, Refresh and load keep the old one, logout shows the farewell, all under the same ID. |
| JavaText.SplitOfJoin | src/proj1b/rpc/RPCStream.java:86-95 | Java's split undoes join exactly when there are parts and the last of several is not empty. |
| JavaText.ParseOfDec | src/proj1b/rpc/RPCStream.java:86-116 | Parsing a decimal rendering gives back every integer. |
| JavaText.ParseIntOfDec | src/proj1b/rpc/RPCStream.java:86-116 | The parsers take the decimal rendering of exactly the numbers of their width. |
| Sessions.Session.DoRefresh | src/proj1b/ssm/Session.java:57-62 | The version goes up by one and the expiry moves to 600100 ms from now; ID and message stay. |
| Sessions.Session.DoReplace | src/proj1b/ssm/Session.java:68-74 | The message is the new one, the version goes up by one and the expiry moves to 600100 ms from now; the ID stays. |
| Sessions.Session.DoLogout | src/proj1b/ssm/Session.java:76-80 | The message is the farewell and the expiry now; ID and version stay. |
| SessionTable.GetRawIsExact | src/proj1b/ssm/SessionManager.java:48-53 | A lookup finds exactly what the table means under that ID and version, and never another session or version. |
| SessionTable.SessionManager.AddSession | src/proj1b/ssm/SessionManager.java:30-33 | The table gains exactly this session under its ID and version. |
| SessionTable.SessionManager.GetSession | src/proj1b/ssm/SessionManager.java:48-53 | The stored session under that key text, or null. |
| SessionTable.SessionManager.RemoveFromTable | src/proj1b/ssm/SessionManager.java:35-40 | The table loses exactly this session's version. |
| SessionTable.SessionManager.RunCleaner | src/proj1b/ssm/SessionCleaner.java:12-22 | The pass, in any visiting order, keeps exactly the entries whose expiry is not before now. |
| Servlet.Servlet.DoGet | src/proj1b/servlet/proj1bServlet.java:59-198 | From cookie text to reply: an unusable cookie throws, sends nothing and changes nothing; otherwise reads of the cookie's session and version go to the WQ locations in some order up to the first that is not silent, the session read or created is updated by the button, writes of exactly that session go to the first W known servers, and reply and counter are those of what came back; a loop that throws makes the handler throw. |
| Servlet.IssuedCookiesParse | src/proj1b/servlet/proj1bServlet.java:68-83 | In every reachable state every cookie parses back to its session ID, its version and exactly WQ distinct known servers. |
| Servlet.CookieParses | src/proj1b/servlet/proj1bServlet.java:68-83 | Parsing a cookie text gives back session ID, version and locations. |
| Servlet.AllIndices | src/proj1b/servlet/proj1bServlet.java:217-223 | WQ different indices below WQ are all of them, so the random choice asks every location. |
| Servlet.Servlet.GenerateRandomNumbers | src/proj1b/servlet/proj1bServlet.java:217-223 | The loop returns m different indices below n, all of them when m = n, or runs out of draws having seen fewer than m. |
| Servlet.Servlet.PickLocations | src/proj1b/servlet/proj1bServlet.java:94-96 | The chosen locations, each index once. |
| Servlet.Servlet.ReadSession | src/proj1b/servlet/proj1bServlet.java:92-101 | Reads of the cookie's session ID and version are sent to its WQ locations in some order, each at most once, up to the first one that is not silent, and that one decides. |
| Servlet.Servlet.PrepareSession | src/proj1b/servlet/proj1bServlet.java:85-128 | The session read back up to its expiry, or a fresh one with the next ID when nothing or an expired one came back, with the version, the message and the expiry that the button sets; the counter moves exactly for a fresh one. |
| Servlet.TargetLoopEnds | src/proj1b/servlet/proj1bServlet.java:130-138 | The target loop ever collects W servers exactly when W are known; with fewer it spins for good. |
| Servlet.Servlet.ChooseTargets | src/proj1b/servlet/proj1bServlet.java:130-138 | The first W known servers. |
| Servlet.Servlet.WriteAndReply | src/proj1b/servlet/proj1bServlet.java:130-154 | Writes of the given session are sent to the first W known servers, to all of them unless the loop throws; an error reply when fewer than WQ acknowledgements came, else a page showing that session whose cookie joins its ID, its version and the acknowledging servers. |
| Servlet.PageCookieParses | src/proj1b/servlet/proj1bServlet.java:68-83 | The cookie of a page parses back to the ID and version of the session shown and to the servers that acknowledged it. |
| Servlet.Servlet.Respond | src/proj1b/servlet/proj1bServlet.java:85-154 | What follows the read: the session that the button makes of it is the one written and the one the page shows, and the page's cookie joins its ID, its version and the acknowledging servers. |
| Servlet.Servlet.GetCookieValue | src/proj1b/ssm/Session.java:98-106 | The loop appends session ID, version and locations, joined by '#'. |
| Matchers.CompiledMeansSelected | WebContent/assets/js/jquery-1.11.1.js:2292-2345 | Compiler correctness: for every finite document, element, context and token list with any mix of the four combinators, the compiled matcher accepts the element exactly when the tokens select it in the sense of section 8 of W3C Selectors Level 3. |
| Matchers.CombFindsRelated | WebContent/assets/js/jquery-1.11.1.js:2102-2153 | The closure for a combinator accepts a node exactly when some element in that relation is accepted by the inner matcher. |
| Matchers.BaseFindsContext | WebContent/assets/js/jquery-1.11.1.js:2298-2313 | The foundational closure accepts a node exactly when the context stands in the leading relation to it. |
| Matchers.MatcherFromTokens | WebContent/assets/js/jquery-1.11.1.js:2292-2345 | The loop builds the matcher that the compilation function describes. |
| Selectors.SelectsThen | WebContent/assets/js/jquery-1.11.1.js:2315-2318 | What a selector with one more combinator selects, in terms of the shorter one (independent chain semantics). |
| Selectors.SelectsNarrowed | WebContent/assets/js/jquery-1.11.1.js:2319-2340 | What one more simple selector in the last compound selects. |
| MatcherRun.Runner.Match | WebContent/assets/js/jquery-1.11.1.js:2102-2167 | Cached evaluation returns what plain evaluation returns, from any cache state that is right about the matcher, and leaves the caches right. |
| MatcherRun.Runner.CachedWalk | WebContent/assets/js/jquery-1.11.1.js:2118-2151 | The walk with one shared cache entry on all walked nodes returns what the plain loop returns; a live entry means that this node or one further along matches, although nested combinators overwrite the same slots. |
| MatcherRun.Runner.ClosestOnly | WebContent/assets/js/jquery-1.11.1.js:2107-2115 | The 'first' branch asks the closest checked node only. |
| MatcherRun.Runner.SuperMatcher | WebContent/assets/js/jquery-1.11.1.js:2347-2397 | A whole run over any element list keeps, in order, exactly the elements some matcher accepts, whatever earlier runs left in the caches. |
| MatcherRun.CompiledNames | WebContent/assets/js/jquery-1.11.1.js:2102-2105 | Every combinator of a compiled list has a cache name of its own. |
| Select.SelectOne | WebContent/assets/js/jquery-1.11.1.js:2485-2552 | select for one group, from the document or from any element of it, returns exactly the selected elements in document order, through ID shortcut, seed or full scan alike (unique IDs). |
| Select.SelectMany | WebContent/assets/js/jquery-1.11.1.js:2485-2552 | select for several groups, from the document or from any element, returns the elements any group selects, each once, in document order. |
| Select.SeededRun | WebContent/assets/js/jquery-1.11.1.js:2513-2541 | Filtering the seed of one token of the last compound by all other tokens gives what filtering everything by all tokens gives. |
| Select.SeedFirst | WebContent/assets/js/jquery-1.11.1.js:2530-2532 | Taking a simple selector out of the last compound and testing it separately changes nothing. |
| Select.IdShortcut | WebContent/assets/js/jquery-1.11.1.js:2497-2511 | With the element of the leading ID as context, the rest of the list selects what the whole list selects. |
| Select.ShortcutKeepsPicks | WebContent/assets/js/jquery-1.11.1.js:2497-2511 | So the shortcut keeps the result, and an ID nobody has selects nothing. |
| Select.UnseededRun | WebContent/assets/js/jquery-1.11.1.js:2543-2551 | Running all tokens over all elements below the outer context, widened for sibling combinators, misses no selected element. |
| Select.Compile | WebContent/assets/js/jquery-1.11.1.js:2446-2478 | One matcher per group, from the last to the first, with cache names that no two matchers share. |
| CallbackRuns.EveryEligibleCallbackHadItsTurn | WebContent/assets/js/jquery-1.11.1.js:3111-3136 | Re-entrant iteration: however callbacks add, remove, fire, empty, disable and lock, when a firing loop ends an addition it was about that was not removed was called exactly if it was not put in at or before the firing index, which only emptying makes possible; calls went in list order, each addition at most once. |
| CallbackRuns.EmptyEndsTheBatch | WebContent/assets/js/jquery-1.11.1.js:3197-3206 | After empty or disable no addition made before is ever called again. |
| CallbackRuns.FalseEndsTheFire | WebContent/assets/js/jquery-1.11.1.js:3118-3135 | A false return to a stopOnFalse list ends the fire: the next queued fire begins at once, or nothing is called until another fire is accepted, whatever is added meanwhile. |
| CallbackRuns.EmptyThenAddMisses | WebContent/assets/js/jquery-1.11.1.js:3159-3160 | A run in which a callback empties the list and adds two functions, and the fire skips the first of them. |
| CallbackRuns.NoCallAfterRemoval | WebContent/assets/js/jquery-1.11.1.js:3118-3123 | The callback about to be called is in the list, not yet called by this fire, and not among the additions that a remove, empty, disable or lock so far was to take out. |
| CallbackRuns.RemovedIsNotCalled | WebContent/assets/js/jquery-1.11.1.js:3171-3190 | Once a function is removed, inside a fire or outside, the list has no entry for it and it is not called until it is added again. |
| CallbackRuns.RemovalKeepsPlace | WebContent/assets/js/jquery-1.11.1.js:3171-3190 | A removal during a fire takes out of what is still to come just the named functions, in their order. |
| CallbackRuns.GoneForGood | WebContent/assets/js/jquery-1.11.1.js:3171-3190 | An addition that a removal named stays removed. |
| CallbackRuns.FiresAreFifo | WebContent/assets/js/jquery-1.11.1.js:3224-3235 | Accepted fires start in the order they were issued; when the list is idle all have started but those that disable and lock took out of the queue, after which none is accepted. |
| CallbackRuns.FiresAreTaken | WebContent/assets/js/jquery-1.11.1.js:3224-3235 | A list that nobody disables or locks takes every fire, a once list exactly the first. |
| CallbackRuns.CalledWithLastBegun | WebContent/assets/js/jquery-1.11.1.js:3111-3120 | Every callback is called with the arguments of the fire begun last, and those are what a memory list remembers. |
| CallbackRuns.UniqueHoldsOneEach | WebContent/assets/js/jquery-1.11.1.js:3146-3150 | A unique list holds every function at most once in every run. |
| CallbackRuns.AddReplaysNewOnes | WebContent/assets/js/jquery-1.11.1.js:3160-3166 | Adding to an idle list that remembers a fire calls just the new entries, with the remembered arguments. |
| CallbackRuns.OnceListIsDisabled | WebContent/assets/js/jquery-1.11.1.js:3124-3135 | A once list without memory is disabled when its fire is over, unless somebody empties it. |
| CallbackRuns.RunKeepsInv | WebContent/assets/js/jquery-1.11.1.js:3111-3235 | The invariant behind these in every reachable state, under every operation and every return value: the loop's index and end point into the repaired list, and every eligible addition is called, removed, missed or still to come. |
| CallbackList.Callbacks.Add | WebContent/assets/js/jquery-1.11.1.js:3140-3169 | Appends the new entries (skipping known ones with unique), extends a firing loop, or with memory starts a fire at the first new entry. |
| CallbackList.Callbacks.Remove | WebContent/assets/js/jquery-1.11.1.js:3171-3190 | Exactly the entries for other functions stay, in their order, and the firing index and end move back by exactly the entries that left at or before them. |
| CallbackList.RemovedIs | WebContent/assets/js/jquery-1.11.1.js:3171-3190 | A removal leaves an entry in the list exactly when its function is not among those named, and keeps the order. |
| CallbackList.NewOnesAreAppended | WebContent/assets/js/jquery-1.11.1.js:3146-3150 | With unique an addition appends one entry for exactly those named functions that the list does not hold. |
| CallbackList.Callbacks.RemoveFn | WebContent/assets/js/jquery-1.11.1.js:3173-3187 | The splice loop with its index repair removes all entries of one function. |
| CallbackList.Callbacks.FireWith | WebContent/assets/js/jquery-1.11.1.js:3224-3235 | A fire is refused, queued or begun. |
| CallbackList.Callbacks.Fire | WebContent/assets/js/jquery-1.11.1.js:3111-3117 | Memory, start, end and firing flag at the beginning of a fire. |
| CallbackList.Callbacks.AfterLoop | WebContent/assets/js/jquery-1.11.1.js:3124-3135 | After the loop: the next queued fire, an emptied list that remembers, or a disabled one. |
| CallbackList.Callbacks.CallbackReturned | WebContent/assets/js/jquery-1.11.1.js:3118-3123 | On to the next index, or out of the loop on false with stopOnFalse. |
| CallbackList.Callbacks.Disable | WebContent/assets/js/jquery-1.11.1.js:3203-3206 | Forgets list, queue and memory. |
| CallbackList.Callbacks.Lock | WebContent/assets/js/jquery-1.11.1.js:3212-3218 | Forgets the queue, and everything without memory. |
| Deferred.SettlesOnce | WebContent/assets/js/jquery-1.11.1.js:3302-3325 | Over every sequence of resolve, reject, notify, done, fail and progress calls, made inside callbacks or outside, the state is that of the first resolve or reject, and the losing list never runs a user callback. |
| DeferredCalls.RunMirrors | WebContent/assets/js/jquery-1.11.1.js:3253-3337 | Over every such sequence the three wired lists make exactly the calls of a reference that is computed from the events alone and knows no list, memory, lock or firing index: the same callbacks with the same arguments in the same order, under the same state and control. |
| DeferredCalls.ProgressCalls | WebContent/assets/js/jquery-1.11.1.js:3258-3324 | The progress calls of any run are those of passes over the callbacks added, in order of addition: a pass for a notify starts with the first callback, a later addition is called at once with the latest arguments, going on where the last pass ended, and at rest everybody ever added is up to date. |
| DeferredCalls.NotifiesAreAnswered | WebContent/assets/js/jquery-1.11.1.js:3258-3324 | The passes answer the notifies made before settling first in, first out, each over all callbacks added until then; those still waiting when the deferred settles are dropped. |
| DeferredCalls.EveryNotifyCallsAll | WebContent/assets/js/jquery-1.11.1.js:3258-3324 | An unsettled deferred at rest has made one such pass for every notify, in order. |
| Deferred.StateIsFinal | WebContent/assets/js/jquery-1.11.1.js:3309-3317 | Once the state has left pending it never changes again. |
| Deferred.WinnersRunOnceInOrder | WebContent/assets/js/jquery-1.11.1.js:3302-3325 | Every callback added to the winning list, before or after settling, runs exactly once, in order of addition, with the first settlement's arguments. |
| Deferred.NotifyIsRefusedOnceSettled | WebContent/assets/js/jquery-1.11.1.js:3315-3316 | Once the state has left pending, a notify call from user code, inside callbacks or outside, does nothing at all. |
| Deferred.RunKeepsInv | WebContent/assets/js/jquery-1.11.1.js:3253-3337 | The invariant behind these in every reachable state of the three wired lists and their nested fires. |
| NthChild.NthTestMeansNth | WebContent/assets/js/jquery-1.11.1.js:1766-1768 | The final test holds exactly when some n >= 0 gives index = a*n + b, for all integers a and b (section 6.6.5.2 of W3C Selectors Level 3). |
| NthChild.Siblings.NthChild | WebContent/assets/js/jquery-1.11.1.js:1689-1770 | For any order of queries and changes of the children between runs, :nth-child(an+b) and :nth-last-child(an+b) hold exactly when some n >= 0 gives the element's index. |
| NthChild.Siblings.ForwardIndex | WebContent/assets/js/jquery-1.11.1.js:1722-1741 | The cached, wrapping scan ends and yields the element's 1-based index among its element siblings. |
| NthChild.Siblings.BackwardIndex | WebContent/assets/js/jquery-1.11.1.js:1743-1763 | The scan from the end, or the index stored on the child, yields the index counted from the end. |
| NthChild.Siblings.TypeIndex | WebContent/assets/js/jquery-1.11.1.js:1749-1763 | The scan without cache yields the index among the siblings of the type, from either end. |
| NthChild.Siblings.SimpleChild | WebContent/assets/js/jquery-1.11.1.js:1705-1718 | first, last and only hold exactly when no counting sibling is on the tested sides. |
| NthChild.IndexIsPosition | WebContent/assets/js/jquery-1.11.1.js:1737-1740 | Indices start at 1 and grow strictly along the counting siblings. |
| DocumentOrder.SortOrder | WebContent/assets/js/jquery-1.11.1.js:1353-1405 | The comparator is negative exactly when the first node comes first in document order, positive exactly when the second does, zero exactly for the same node. |
| DocumentOrder.SiblingCheck | WebContent/assets/js/jquery-1.11.1.js:952-973 | The next-sibling walk tells which sibling comes first; a missing node counts as an ancestor. |
| DocumentOrder.BeforeIsPreorder | WebContent/assets/js/jquery-1.11.1.js:1353-1405 | The order the comparator decides is the order in which a preorder walk of the document meets the nodes. |
| DocumentOrder.OrderIsStrictAndTotal | WebContent/assets/js/jquery-1.11.1.js:1353-1405 | That order is irreflexive, asymmetric, transitive and total. |
| DocumentOrder.UniqueSort | WebContent/assets/js/jquery-1.11.1.js:1480-1507 | The result is strictly increasing in document order with exactly the given nodes. |
| DocumentOrder.SortResults | WebContent/assets/js/jquery-1.11.1.js:1486-1489 | Sorting with the comparator leaves a permutation in document order, and a repeat in it has been noted as a duplicate. |
| DocumentOrder.FindRepeats | WebContent/assets/js/jquery-1.11.1.js:1491-1496 | The scan collects the index of every repeat, in increasing order. |
| DocumentOrder.DropRepeats | WebContent/assets/js/jquery-1.11.1.js:1497-1499 | The splices from the last repeat to the first leave one of each. |

## Left out

- Sockets, object serialisation, packet truncation, logging, AWS, configuration files: the network is the sequence of
  datagrams a socket receives, the configuration is given.
- Data races on the call-ID map and the session counter, datagrams that arrive after their request ended, and the window
  in which a rebooting server runs before its number is raised.
- Rejection of stale call IDs: the code never rejects.
- 32-bit and 64-bit wrap-around: counters, versions and times are unbounded in `Cluster`; the text lemmas ask for numbers
  in range, as the parsers do.
- Parsing of digits other than '0' to '9', which `Integer.parseInt` also accepts.
- A request with fewer than W known servers never ends (`Servlet.TargetLoopEnds`); the handler's contract asks for W. Its
  random draws are given, enough of them for the loop of draws to end.
- A datagram whose bytes are no string at all. A request the server cannot parse is answered with no response, as the
  exception it raises; that its thread is gone afterwards is not carried into `Cluster`. Network errors other than the
  timeout, which the client's loops skip over, do not occur.
- Several cookies of the same name, cookie age and domain, the JSON reply and the JSP pages.
- RpcServer.RpcConfig.IncrementLocalCallID: is stated for a server that already has a call ID, since the original fails without one.
- Positional selectors, nested selector runs (:not, :has), XML documents, contexts given as lists, tokenizing by regular
  expression, the compiler cache and the native query paths; a filter other than TAG, ID and CLASS is any test of the node.
- A seed or a precompiled selector passed to select; getElementById is taken to find the first element with the ID.
- The engine's own Array.sort: an insertion sort with the comparator (`DocumentOrder.SortResults`) stands for it; the
  result of uniqueSort does not depend on which sort it is. Comparison of nodes of different documents, and IE's sourceIndex.
- Collections passed to the callback list's add are given flattened.
- `then`, `always`, `when` and `promise` of Deferred, which are built from the operations modelled.
- The :nth-of-type test itself, which applies `NthChild.NthTest` to what `NthChild.Siblings.TypeIndex` counts.
- The rest of jQuery, Bootstrap, the install scripts and the manual drivers under src/proj1b/test.
