# Verified models of the protocol and data cores

This project models the parts of the repository that carry a protocol, a cipher, a compiler or a
store, and proves what they promise. Code that works by assigning variables is modelled as methods
and classes that assign them, each proved against a specification function; the properties are then
proved about that function, over every input or every run.

| files | what they model |
|---|---|
| `Live`, `LiveSafety`, `LiveProgress`, `LiveEffect` | the reconnecting stream of the mobile client: tickets, sockets, timers, connectivity events, watchdog and retry budget |
| `AnyStream`, `TerminalStream`, `EventStream`, `EventStreamLife`, `EventStreamTorn` | what reaches the callback: the client on either route with any server that streams in order, the terminal broker and the event server as such servers, and the event server's races over whole runs |
| `MetadataKeys`, `Trimming`, `MetadataScopes`, `MetadataCollisions`, `MetadataCache`, `CacheFreshness`, `CacheHits`, `SearchQueue`, `SqlIdentifiers`, `SqlWriting` | the database metadata cache: keys and scopes, fetches racing with invalidations, the bounded search queue, and the qualified-name parser |
| `Bits`, `DesTables`, `Des`, `DesKeys`, `DesProgram`, `VncAuth` | DES as VNCAuth uses it: the cipher on bit lists, the program on numbers and byte arrays, and the tie between the two |
| `DesHex`, `DesBoxes`, `DesWiring`, `DesVectors`, `VncAnswers` | the same cipher digit by digit: the criteria its boxes were chosen by, its tables as wiring, and published answers followed through all sixteen rounds |
| `EditDistance` | the two-row edit distance of the speech benchmark |
| `VncPacing`, `VncOverrun`, `VncDrawing`, `VncSession`, `SocketReader`, `ClipboardCodec`, `ClipboardWire` | the VNC relay: update pacing, exact reads, the clipboard codec |
| `GridChanges`, `GridMeaning`, `GridExact`, `GridKeyless`, `GridWarning` | grid edits compiled to DML, over a statement syntax tree with a small semantics |
| `DiffWhitespace`, `LineEndings`, `LineTexts` | whitespace-insensitive diff mapping, line-ending rewriting |
| `HistoryRows`, `LocalHistory`, `HistoryPaths`, `HistoryIntegrity` | content-addressed local history with pruning and collection |
| `WorkspaceSearch` | batching and limits of the workspace search |
| `TlsSni` | the ClientHello server-name scanner |
| `Options` | the shared option type |

Callbacks, timers, network and clock are events and parameters: a run is any sequence of enabled
events, so callbacks may be late, reordered or lost. Clocks are arbitrary integers. Hashing, zlib,
UTF-8 and the diff of the normalised texts are parameters with the laws they are relied on for.

## What turned out not to hold

Each of these is proved, with the exact condition where there is one.

- After a server restart the event stream can skip events for good: `events` takes the publication
  lock once in `subscribe` and again in `resume`, so events published in between can fall past the
  greeting's cursor and before the backlog (`EventStream.RestartIsGapFreeIffNotTorn`). Over every run
  delivery stays exactly once precisely when the client's current socket is never handed the frame
  after the greeting of such a connection (`EventStream.ExactlyOnceIffNeverSkips`); a run from the
  first connection in which it is, is `EventStreamTorn.SomeRunSkips`. The comment
  at `src-tauri/src/mobile/streams.rs:42` says no event can fall in the gap. While one server lives
  it cannot happen (`EventStreamLife.ExactlyOnceInOneLife`).
- An `offline` event that no queued connectivity event explains leaves the client with nothing
  pending exactly when it was waiting on a retry timer (`LiveSafety.StrayOfflineStrands`, and
  `LiveSafety.StrayOfflineStrandsARun` from the start of an effect).
- Two items of the metadata cache share a key exactly when one of two or more names holds a `|` with
  no white space beside it; beside white space the trimming of names keeps them apart
  (`MetadataCollisions.CollidesIffMovable`).
- A quoted name does not come back from `splitSqlQualifiedName` when it holds two adjacent copies of
  another style's closing quote (`SqlIdentifiers.SplitUndoesPrint`).
- A result that shows part of a composite primary key gives statements that match on that part, with
  no warning, and can change several rows (`GridWarning.QuietSaveIsSafeIff`).
- `buildProvideBody` writes messages that `parseProvideBody` refuses, past 16 MiB for one format or
  32 MiB in all (`ClipboardCodec.RoundTripIffWithinLimits`).
- A VNC server gets a second request before it has begun to answer the first exactly when it begins
  an update before the panel has answered the frame before, the panel answers while that update is
  read, and answers its frame before the server begins another (`VncOverrun.TwoRequestsIffOverrun`;
  one such run is `VncPacing.UnaskedUpdateDoublesRequests`). A server that only answers never does
  that (`VncOverrun.HonestNeverOverruns`).
- The statements of a grid edit affect one row each exactly when no change takes the key of a row
  that a later statement is for (`GridExact.OneRowEachIffInTurn`).
- After a ClientHello without an extension block the scanner takes whatever follows for one, and
  invents a host name exactly when those bytes can be cut into extensions up to one that names a host
  (`TlsSni.NoBlockReadsWhatFollows`).
- `normalizeWorktreeToMatchHead` always returns the old text; the rewritten new text its comment
  speaks of is never the result (`LineEndings.WorktreeBecomesHead`).
- A snapshot that is reported as taken can be pruned as it is taken
  (`HistoryIntegrity.NewRowStaysIff`): with the clock set back while fifty versions stand
  (`HistoryIntegrity.ClockBackLoses`), or set ahead by more than a week between its two readings
  (`HistoryIntegrity.ClockAheadLoses`). With the clock set back the same version can also be listed
  twice running (`HistoryIntegrity.ClockBackRepeats`).
- `history_prune` collects no blob when its age limit removes every row
  (`HistoryIntegrity.PruneCollectsIffRowsLeft`).
- A search that meets a limit exactly is marked truncated although nothing is missing
  (`WorkspaceSearch.MarkedIsIncompleteIff`; one such file is
  `WorkspaceSearch.ExactlyFullIsMarkedYetComplete`).

## Model

| member | source | states |
|---|---|---|
| `EditDistance.Distance` | scripts/asr-bench/bench.py:40-47 | the two-row program returns the least cost of any insert/delete/substitute script from `reference` to `actual`, and some script attains it |
| `EditDistance.LevIsOptimum` | scripts/asr-bench/bench.py:45-45 | the recurrence one cell computes is that optimum, both bounds |
| `EditDistance.BestScriptAttains` | scripts/asr-bench/bench.py:42-46 | the script read off the recurrence turns one text into the other at exactly that cost |
| `EditDistance.LevBoundsScripts` | scripts/asr-bench/bench.py:42-46 | no script between its own source and target is cheaper |
| `EditDistance.ComposeDoes` | scripts/asr-bench/bench.py:40-47 | two scripts compose into one that does both for no more |
| `EditDistance.UndoReverses` | scripts/asr-bench/bench.py:40-47 | a script undone leads back at the same cost |
| `EditDistance.DistanceZeroIffEqual` | scripts/asr-bench/bench.py:40-47 | zero exactly for equal sequences |
| `EditDistance.DistanceSymmetric` | scripts/asr-bench/bench.py:40-47 | symmetric |
| `EditDistance.DistanceTriangle` | scripts/asr-bench/bench.py:40-47 | triangle inequality |
| `EditDistance.DistanceBounds` | scripts/asr-bench/bench.py:40-47 | between the length difference and the longer length |
| `Des.Complementation` | vite-plugins/vncDes.ts:74-95 | complementing key and block complements the output (FIPS 46-3) |
| `Des.KeyScheduleNot` | vite-plugins/vncDes.ts:61-72 | the complemented key has the complemented subkeys |
| `Des.MixNot` | vite-plugins/vncDes.ts:79-86 | the round function cannot tell a complemented half and subkey apart |
| `Des.FPUndoesIP` | vite-plugins/vncDes.ts:10-17 | the final permutation undoes the initial one on every block |
| `Des.IPUndoesFP` | vite-plugins/vncDes.ts:10-17 | and the initial one the final |
| `Des.RoundsUndone` | vite-plugins/vncDes.ts:78-87 | any rounds are undone by the same rounds with the subkeys reversed |
| `Des.ReversedSubkeysDecrypt` | vite-plugins/vncDes.ts:74-95 | the whole cipher under reversed subkeys recovers the block |
| `Des.EncryptionIsBijective` | vite-plugins/vncDes.ts:74-95 | for each key encryption and decryption are inverse both ways |
| `Des.HalvesReturn` | vite-plugins/vncDes.ts:27-27 | both 28-bit registers are back at their start after all shifts |
| `DesBoxes.RowsArePermutations` | vite-plugins/vncDes.ts:28-45 | each row of each box holds each of 0 to 15 once |
| `DesBoxes.OneBitMovesTwo` | vite-plugins/vncDes.ts:28-45 | inputs of a box one bit apart give outputs at least two bits apart |
| `DesBoxes.MiddleMovesTwo` | vite-plugins/vncDes.ts:28-45 | so do inputs that differ in the two middle bits |
| `DesBoxes.EndsMove` | vite-plugins/vncDes.ts:28-45 | inputs that differ in the first two bits and agree in the last two give different outputs |
| `DesWiring.NextHalfIsRound` | vite-plugins/vncDes.ts:78-87 | a round of the tables is the wiring written out between hex digits |
| `DesVectors.KnownAnswers` | vite-plugins/vncDes.ts:74-95 | two published answers of the byte cipher: key and block all zero give 8CA64DE9C1B123A7, and 133457799BBCDFF1 takes 0123456789ABCDEF to 85E813540F0AB405 |
| `DesKeys.SubkeysSeeAllButParity` | vite-plugins/vncDes.ts:22-27 | two keys have the same subkeys exactly when they agree on the 56 positions other than each eighth |
| `DesProgram.Permute` | vite-plugins/vncDes.ts:47-53 | the shift loop on numbers selects the table's bits of the word |
| `DesProgram.ToBigInt` | vite-plugins/vncDes.ts:55-59 | the number spelled by the bytes |
| `DesProgram.RotateAndSelect` | vite-plugins/vncDes.ts:64-71 | the mask-and-shift loop gives the schedule's subkeys, for any shifts |
| `DesProgram.Subkeys` | vite-plugins/vncDes.ts:61-72 | the program's subkeys are those of the specification |
| `DesProgram.ApplyBoxes` | vite-plugins/vncDes.ts:80-85 | the box loop computes the substitution, rows from the outer bits |
| `DesProgram.MixRight` | vite-plugins/vncDes.ts:79-86 | one round's function on numbers is that of the specification |
| `DesProgram.DesEncryptBlock` | vite-plugins/vncDes.ts:74-95 | the byte-array program is the cipher of the specification |
| `DesProgram.WriteBytes` | vite-plugins/vncDes.ts:89-94 | the bytes peeled off the low end are the word's |
| `VncAuth.ReverseBits` | vite-plugins/vncDes.ts:104-105 | the or-loop reverses the eight bits |
| `VncAuth.BuildKey` | vite-plugins/vncDes.ts:99-107 | the key is the reversed Latin-1 bytes of the first eight code points, zero-padded |
| `VncAuth.VncAuthResponse` | vite-plugins/vncDes.ts:98-112 | both challenge halves encrypted under that key |
| `VncAuth.SubkeysFromLowBits` | vite-plugins/vncDes.ts:61-72 | two passwords give the same subkeys exactly when their first eight padded bytes agree on the low seven bits |
| `VncAuth.ResponseIgnoresTopBits` | vite-plugins/vncDes.ts:98-112 | such passwords give equal responses to every challenge (RFC 6143, section 7.2.2) |
| `VncAnswers.PasswordMeans` | vite-plugins/vncDes.ts:99-107 | only the first eight code points count, those past Latin-1 as a question mark, missing ones as zero |
| `VncAnswers.EmptyPasswordAnswer` | vite-plugins/vncDes.ts:98-112 | the response of an empty password to a zero challenge, byte for byte |
| `VncAnswers.TextbookAnswer` | vite-plugins/vncDes.ts:98-112 | the password that is the textbook key bit-reversed gives the textbook answer |
| `VncAuth.ComplementationOfBytes` | vite-plugins/vncDes.ts:74-95 | complementation, for the byte program |
| `VncAuth.EncryptBytesIsBijective` | vite-plugins/vncDes.ts:74-95 | for each key the byte program is one-to-one and onto |
| `LiveEffect.Effect.ConnectNow` | mobile-web/src/live.ts:31-42 | takes the step `Connect`: retires the old socket, shuts the gate and asks for a ticket, unless stopped, connecting, open or offline |
| `LiveEffect.Effect.RetryLater` | mobile-web/src/live.ts:113-122 | takes the step `Retry`: the next delay, or a pause after the fifth |
| `LiveEffect.Effect.Granted` | mobile-web/src/live.ts:47-56 | takes the step of a ticket arriving |
| `LiveEffect.Effect.Failed` | mobile-web/src/live.ts:101-111 | takes the step of a refused ticket: denied, paused or retried |
| `LiveEffect.Effect.Opened` | mobile-web/src/live.ts:57-62 | takes the step of `onopen` |
| `LiveEffect.Effect.Dispatch` | mobile-web/src/live.ts:71-89 | moves the stream position and delivers exactly as `Absorb` says |
| `LiveEffect.Effect.Received` | mobile-web/src/live.ts:63-90 | takes the step of `onmessage` |
| `LiveEffect.Effect.Closed` | mobile-web/src/live.ts:91-99 | takes the step of `onclose` |
| `LiveEffect.Effect.WentOnline` | mobile-web/src/live.ts:127-127 | takes the step of an online event |
| `LiveEffect.Effect.WentOffline` | mobile-web/src/live.ts:128-133 | takes the step of an offline event |
| `LiveEffect.Effect.CheckSilence` | mobile-web/src/live.ts:136-138 | takes the step of the watchdog |
| `LiveEffect.Effect.RetryNow` | mobile-web/src/live.ts:123-126 | takes the step of the user's retry |
| `LiveEffect.Effect.Unmount` | mobile-web/src/live.ts:140-145 | takes the step of the cleanup |
| `LiveSafety.StepInv` | mobile-web/src/live.ts:31-145 | every enabled event keeps the connection invariant |
| `LiveSafety.OneActivityAlways` | mobile-web/src/live.ts:31-145 | over every run at most one of retry timer, ticket request and current socket exists; exactly one while online, unpaused and not stopped; none while paused |
| `LiveSafety.OneLiveSocket` | mobile-web/src/live.ts:34-55 | at most one socket is connecting or open, and none after unmounting |
| `LiveSafety.StoppedMakesNoSocket` | mobile-web/src/live.ts:32-32 | once ended, denied or unmounted, no run makes another socket |
| `LiveSafety.RetiredSocketInert` | mobile-web/src/live.ts:57-93 | late callbacks of a retired socket change nothing but that socket |
| `LiveSafety.RetryBudget` | mobile-web/src/live.ts:113-121 | between renewals at most five timers are set, however sockets open and drop |
| `LiveSafety.StrayOfflineStrands` | mobile-web/src/live.ts:128-133 | an unexplained offline event strands the client exactly when a retry timer was pending |
| `LiveSafety.StrayOfflineStrandsARun` | mobile-web/src/live.ts:101-133 | a run from the start of the effect waits on a retry timer while online, and such an event then leaves it with nothing to wait for |
| `LiveProgress.TickEndsSilence` | mobile-web/src/live.ts:136-138 | in every reached world a tick closes the current socket exactly when it has been opening for more than 15 s or silent for more than 90 s, and changes nothing else |
| `LiveProgress.ClockTellsLastSign` | mobile-web/src/live.ts:53-64 | the silence is counted from the last time a socket was made, or the current one opened or spoke |
| `LiveProgress.CloseOutcome` | mobile-web/src/live.ts:91-99 | when the current socket closes, 4004 or an ended stream ends the client, 4001 denies it, and anything else sets a timer of 1, 2, 5, 10 or 30 s or, after the fifth, pauses and offers a retry |
| `LiveProgress.FailureOutcome` | mobile-web/src/live.ts:101-111 | a refused ticket denies, pauses or backs off in the same way, by its cause |
| `LiveProgress.FrameOutcome` | mobile-web/src/live.ts:63-90 | a frame renews the budget and reaches the callback unless it is a heartbeat or an old number; text that does not parse closes the socket |
| `LiveProgress.TimerAsks` | mobile-web/src/live.ts:113-121 | a retry timer that fires online asks for a ticket |
| `LiveProgress.RetryNowAsks` | mobile-web/src/live.ts:123-126 | the user's retry restores the budget, lifts a pause and asks for a ticket |
| `LiveProgress.OnlineAsks` | mobile-web/src/live.ts:127-127 | coming online asks at once instead of waiting for the timer |
| `LiveProgress.OfflineCloses` | mobile-web/src/live.ts:128-133 | going offline stops the timer and closes the current socket |
| `LiveProgress.GrantMakesSocket` | mobile-web/src/live.ts:47-56 | a ticket makes the next socket, which asks for what comes after the client's number if it was ever connected |
| `LiveProgress.OpenConnects` | mobile-web/src/live.ts:57-62 | an opened current socket is the channel |
| `LiveProgress.UnmountCloses` | mobile-web/src/live.ts:140-145 | unmounting stops the timer and closes every socket |
| `LiveProgress.SilentSocketIsDropped` | mobile-web/src/live.ts:91-138 | a silent socket is closed by the tick, and its end makes an online client back off |
| `LiveProgress.TimerReconnects` | mobile-web/src/live.ts:31-62 | and the timer then leads to an open socket that resumes where the client was |
| `LiveProgress.OfferOnlyWhenQuiet` | mobile-web/src/live.ts:42-121 | the user is offered to retry only while nothing is pending |
| `AnyStream.NextGood` | mobile-web/src/live.ts:31-112 | on either route, with any server that streams in order after the number it was sent, every step keeps the callback's record equal to the stream since the last reset |
| `AnyStream.ExactlyOnceOnAnyRoute` | mobile-web/src/live.ts:31-112 | over every such run the callback has had everything numbered after the last reset, in order and once each, up to the number the client holds |
| `AnyStream.OnlyResetsForget` | mobile-web/src/live.ts:72-86 | a reset is a changed instance, a resync that carries a number or a frame with `last_seq` that reaches the callback, and nothing else makes the record start over |
| `AnyStream.StandsWithTheStream` | mobile-web/src/live.ts:71-89 | the client holds the number where the current connection's frames so far have put the stream, so what was sent is had |
| `TerminalStream.TerminalInOrder` | src-tauri/src/mobile/pty_broker.rs:254-287 | a terminal connection, replay or resumed, streams in order after the number the client sent: outputs between its two looks at the broker come twice and the second copies are old |
| `TerminalStream.ResumeInOrder` | src-tauri/src/mobile/pty_broker.rs:262-287 | the broker's answer to a number is in order after it and ends at the newest output |
| `TerminalStream.TerminalExactlyOnce` | mobile-web/src/TerminalView.tsx:43-43 | over every run on the terminal route, restarts of the server included, the callback has had the terminal's outputs since its last replay or first greeting, none repeated and none skipped |
| `TerminalStream.GoneTerminalEnds` | src-tauri/src/mobile/streams.rs:64-81 | the answer of a later life of the server, which has no such terminal, or its closing code stops the client for good |
| `TerminalStream.ReusedIdInOrderIff` | src-tauri/src/mobile/streams.rs:82-94 | were the id there again in a new life, a resumed connection would be in order from zero exactly when it is answered by a replay, or the number was zero, or nothing is due and what follows starts at one or has no numbers |
| `TerminalStream.EventsInOrder` | src-tauri/src/mobile/events.rs:20-54 | a connection of the event route that is not torn is one more such server |
| `EventStream.FrameContinues` | src-tauri/src/mobile/events.rs:41-54 | what a connection delivers past its greeting is a resync, an old event or the very next one |
| `EventStream.NextGood` | mobile-web/src/live.ts:63-90 | every step of client and server keeps the record of the callback equal to the server's log since the last reset |
| `EventStream.ExactlyOnceAlways` | mobile-web/src/live.ts:71-89 | over every run in which no frame after a torn connection's greeting reaches the client, restarts included, the callback has had the server's events since its last reset in order, none repeated, none skipped |
| `EventStream.ExactlyOnceIffNeverSkips` | src-tauri/src/mobile/streams.rs:42-47 | over every run at all, the record is exact at every point if and only if no such frame ever reaches the current socket |
| `EventStreamLife.ExactlyOnceInOneLife` | mobile-web/src/live.ts:50-90 | the same with no condition while the server is not restarted |
| `EventStreamLife.TornDeliverySkips` | src-tauri/src/mobile/streams.rs:42-47 | a torn connection to a new life of the server delivers its greeting and first backlog frame and leaves the callback short of what the client has counted |
| `EventStreamTorn.SomeRunSkips` | src-tauri/src/mobile/streams.rs:42-47 | from the first connection a run with one restart ends with the callback short of an event |
| `EventStream.OnlyResetsForget` | mobile-web/src/live.ts:72-82 | nothing but a changed instance or a resync makes the record start over |
| `EventStream.CaughtUp` | src-tauri/src/mobile/streams.rs:104-122 | a connection that has delivered all it has leaves the callback with every event since the last reset |
| `EventStream.ResumeSuppliesLast200` | src-tauri/src/mobile/events.rs:41-54 | the server answers a number with exactly the events past it when they are at most the last 200, and otherwise with a resync |
| `EventStream.ShortAbsenceKeepsRecord` | src-tauri/src/mobile/events.rs:41-54 | so a client at most 200 events behind is not reset by reconnecting |
| `EventStream.TornOnlyAfterReboot` | src-tauri/src/mobile/streams.rs:42-47 | no backlog is torn while the client follows the life it connects to |
| `EventStream.RestartIsGapFreeIffNotTorn` | src-tauri/src/mobile/streams.rs:42-47 | after a restart, greeting and backlog give every event exactly when none was published between `subscribe` and `resume` past the client's old number |
| `MetadataKeys.KeyEquals` | src/lib/dbMetadataCache.ts:469-471 | for names without the separator, equal keys are equal kinds and names |
| `MetadataKeys.KeyStartsWith` | src/lib/dbMetadataCache.ts:349-393 | a key prefix closed by the separator means the same kind and leading names |
| `MetadataKeys.EntryScopeMeans` | src/lib/dbMetadataCache.ts:343-373 | the string tests drop exactly the stored items of the target's narrowest level |
| `MetadataKeys.FlightContainsEntry` | src/lib/dbMetadataCache.ts:343-399 | whatever drops a stored entry also detaches a fetch of that key |
| `MetadataScopes.TableDrops` | src/lib/dbMetadataCache.ts:343-352 | a table drops its own columns and foreign keys, the listing of its schema and the searches there, and nothing else |
| `MetadataScopes.SchemaDrops` | src/lib/dbMetadataCache.ts:353-361 | a schema drops its listing, its searches and everything of its tables, and nothing else |
| `MetadataScopes.CatalogDrops` | src/lib/dbMetadataCache.ts:362-371 | a catalog drops its list of schemas and everything in them, and nothing else |
| `MetadataScopes.FlightScopeIsEveryLevel` | src/lib/dbMetadataCache.ts:374-399 | a fetch under way is detached at every level the target names |
| `MetadataScopes.PaddedTarget` | src/lib/dbMetadataCache.ts:338-340 | white space around a target's names is dropped |
| `MetadataScopes.DefaultCatalogMeant` | src/lib/dbMetadataCache.ts:442-444 | a target without a catalog means the default one |
| `MetadataScopes.InvalidationForgets` | src/lib/dbMetadataCache.ts:333-402 | what is covered is asked for anew, and what lies outside every level is left alone |
| `MetadataCollisions.CollidesIffMovable` | src/lib/dbMetadataCache.ts:205-295 | of the items the program can form, another has the same key exactly when the item has two or more names and one of them holds a separator with no white space beside it |
| `MetadataCollisions.BareIsAlone` | src/lib/dbMetadataCache.ts:469-471 | an item whose names hold no separator is alone under its key |
| `MetadataCollisions.TrimmedIff` | src/lib/dbMetadataCache.ts:46-48 | the names the program can form are those that trimming leaves as they are |
| `MetadataCache.DbMetadataCache.Cached` | src/lib/dbMetadataCache.ts:409-435 | answers from a live entry, joins the registered fetch, or registers a new one |
| `MetadataCache.DbMetadataCache.Resolved` | src/lib/dbMetadataCache.ts:417-423 | stores only for the registered fetch, and notifies for it unless the caller, a table search, asks not to |
| `MetadataCache.DbMetadataCache.Rejected` | src/lib/dbMetadataCache.ts:424-427 | falls back to the expired value only for the registered fetch |
| `MetadataCache.DbMetadataCache.Settled` | src/lib/dbMetadataCache.ts:428-432 | frees the slot only of the registered fetch |
| `MetadataCache.DbMetadataCache.ClearAll` | src/lib/dbMetadataCache.ts:327-331 | empties entries and fetches |
| `MetadataCache.DbMetadataCache.Invalidate` | src/lib/dbMetadataCache.ts:333-402 | drops what the scopes cover, and notifies exactly on a change or a clear |
| `MetadataCache.DropWhere` | src/lib/dbMetadataCache.ts:343-373 | the loop over a copy of the keys keeps exactly the keys out of scope and reports exactly a change |
| `CacheFreshness.StepInv` | src/lib/dbMetadataCache.ts:333-435 | every fetch, completion, failure and invalidation keeps the freshness invariant |
| `CacheFreshness.ServedIsFresh` | src/lib/dbMetadataCache.ts:410-419 | over every interleaving a served value came from a fetch begun after the last invalidation covering its key |
| `CacheFreshness.FallbackIsFresh` | src/lib/dbMetadataCache.ts:424-427 | so did the stale value served on an error |
| `CacheHits.ServedUntilItExpires` | src/lib/dbMetadataCache.ts:409-423 | over every run the value a registered fetch brings at `t` is served to every question before `t + ttl` and to none from then on, until an invalidation covers the key or another fetch of it is stored |
| `CacheHits.AnswerIsKept` | src/lib/dbMetadataCache.ts:409-435 | a question that begins a fetch not detached before its answer has that answer in the cache for `ttl` |
| `CacheHits.QuestionsJoin` | src/lib/dbMetadataCache.ts:413-414 | while a fetch is neither settled nor detached, no second one of its key begins |
| `CacheHits.ExpiredIsGiven` | src/lib/dbMetadataCache.ts:424-427 | and if it fails, the value that had expired when it began is given |
| `CacheFreshness.NewerNeverLosesToOlder` | src/lib/dbMetadataCache.ts:413-433 | a stored value never gives way to an older fetch's, and no registered fetch is displaced |
| `CacheFreshness.DetachedStaysInert` | src/lib/dbMetadataCache.ts:417-432 | no callback of a detached fetch touches the cache |
| `SearchQueue.BoundedFifoOnce` | src/lib/dbMetadataCache.ts:446-467 | over every run, whichever fetchers throw: never more active than allowed, first in first out, none waits beside a free slot, each settles at most once and all once nothing runs |
| `SearchQueue.StartSettles` | src/lib/dbMetadataCache.ts:448-460 | a chain of synchronous throws leaves slots, queue and settlements consistent |
| `SearchQueue.ReleaseSettles` | src/lib/dbMetadataCache.ts:450-453 | so does a release that starts the next in line |
| `SearchQueue.SearchGate.RunBoundedSearch` | src/lib/dbMetadataCache.ts:446-467 | takes the step of a submission |
| `SearchQueue.SearchGate.Finished` | src/lib/dbMetadataCache.ts:455-455 | takes the step of a settled search |
| `SqlIdentifiers.SplitSqlQualifiedName` | src/lib/dbMetadataCache.ts:74-124 | the scanning loop computes the split of the specification |
| `SqlIdentifiers.SplitUndoesPrint` | src/lib/dbMetadataCache.ts:55-124 | splitting a printed name gives its parts back exactly when none holds two adjacent copies of another style's closing quote |
| `SqlWriting.SplitReadsWriting` | src/lib/dbMetadataCache.ts:55-124 | names written bare or quoted, with white space around the dots and parts left out, all come back |
| `SqlWriting.BareNamesSplit` | src/lib/dbMetadataCache.ts:74-124 | two bare names joined by a dot split into the two |
| `VncSession.VncBridgeSession.Attach` | vite-plugins/vncBridge.ts:367-391 | the session starts with one full request and the invariant |
| `VncSession.VncBridgeSession.AskForUpdate` | vite-plugins/vncBridge.ts:429-443 | takes the step `RequestUpdate` |
| `VncSession.VncBridgeSession.Shut` | vite-plugins/vncBridge.ts:393-401 | takes the step of closing |
| `VncSession.VncBridgeSession.UpdateBegins` | vite-plugins/vncBridge.ts:475-478 | takes the step of an update header |
| `VncSession.VncBridgeSession.RectangleArrives` | vite-plugins/vncBridge.ts:479-518 | takes the step of one rectangle, raw, resize or refused |
| `VncSession.VncBridgeSession.UpdateEnds` | vite-plugins/vncBridge.ts:519-524 | takes the step that ends a frame |
| `VncSession.VncBridgeSession.OnClientMessage` | vite-plugins/vncBridge.ts:606-641 | takes the step of a message from the panel |
| `VncSession.VncBridgeSession.ReadUpdate` | vite-plugins/vncBridge.ts:475-525 | the loop over an update's rectangles, when nothing comes between them |
| `VncPacing.StepInv` | vite-plugins/vncBridge.ts:429-641 | every event keeps the pacing invariant |
| `VncPacing.ExactlyOneWait` | vite-plugins/vncBridge.ts:429-641 | an open session waits for exactly one of server and panel, whatever both do |
| `VncPacing.RefreshNeverLost` | vite-plugins/vncBridge.ts:429-443 | after a refusal or a resize the next request is non-incremental, at the size the panel was last told |
| `VncPacing.FullOnlyWhenWanted` | vite-plugins/vncBridge.ts:429-443 | and a later request is non-incremental only then |
| `VncOverrun.TwoRequestsIffOverrun` | vite-plugins/vncBridge.ts:429-641 | over every run the server has at some point two requests exactly when an update begins before the panel has answered the frame before, the panel answers while it is read, and answers its frame before another begins |
| `VncOverrun.OneRequestShortOfOverrun` | vite-plugins/vncBridge.ts:429-641 | in every other run never two requests at once and never a stall (RFC 6143, sections 7.5.3 and 7.6.1) |
| `VncOverrun.HonestNeverOverruns` | vite-plugins/vncBridge.ts:429-641 | a server that begins an update only when it owes one is never in that case |
| `VncOverrun.OneRequestAtATime` | vite-plugins/vncBridge.ts:429-641 | with such a server an open session is owed the rest of one update, or owes one answer, and not both |
| `VncPacing.UnaskedUpdateDoublesRequests` | vite-plugins/vncBridge.ts:612-618 | an input: an update nobody asked for, answered halfway through and again after its empty frame, leaves two requests outstanding |
| `VncPacing.DrawnFits` | vite-plugins/vncBridge.ts:486-502 | pixels passed on lie inside the framebuffer the panel knows |
| `VncPacing.SizeStaysGood` | vite-plugins/vncBridge.ts:504-513 | the framebuffer stays within its limits |
| `VncDrawing.PanelSeesEverything` | vite-plugins/vncBridge.ts:479-524 | over every run the panel is sent, in order, exactly the raw rectangles inside the framebuffer that have pixels, the good changes of size, and the ends of updates |
| `VncDrawing.RectangleOutcome` | vite-plugins/vncBridge.ts:486-518 | a rectangle of either good kind leaves the session open and is counted off, and any other closes it |
| `SocketReader.SocketReader.OnData` | vite-plugins/vncBridge.ts:78-82 | arriving bytes are appended |
| `SocketReader.SocketReader.TryRead` | vite-plugins/vncBridge.ts:98-110 | exactly `n` bytes come off the front, also after the end of the stream; otherwise it waits or fails and takes nothing |
| `SocketReader.ReadsAreSlices` | vite-plugins/vncBridge.ts:71-111 | for every chunking and every wake-up schedule each read is its own stretch of the stream |
| `SocketReader.ChunkingDoesNotMatter` | vite-plugins/vncBridge.ts:71-111 | two schedules of the same bytes agree on every read |
| `ClipboardCodec.BuildProvideBody` | vite-plugins/vncBridge.ts:272-281 | header, then the deflated framed blocks of the formats present, in bit order |
| `ClipboardCodec.ParseProvideBody` | vite-plugins/vncBridge.ts:283-311 | the loop over sixteen bits computes the parse of the specification |
| `ClipboardCodec.FramedIsAcceptedIffSmall` | vite-plugins/vncBridge.ts:293-308 | framed blocks, one for each set bit, parse as themselves, and are refused exactly when one is over 16 MiB |
| `ClipboardCodec.AcceptedIsFramed` | vite-plugins/vncBridge.ts:293-309 | whatever is accepted is such blocks to its last byte |
| `ClipboardCodec.TextComesBack` | vite-plugins/vncBridge.ts:276-305 | a text turned to CRLF and back is the text with its CRLF pairs turned to line feeds |
| `ClipboardCodec.EveryLineFeedPaired` | vite-plugins/vncBridge.ts:276-276 | no line feed of the text sent is without its carriage return |
| `ClipboardCodec.UnchangedIffNoCrlf` | vite-plugins/vncBridge.ts:305-305 | that is the text itself exactly when it has no such pair |
| `ClipboardCodec.HeaderComesBack` | vite-plugins/vncBridge.ts:280-280 | the header reads back as the provide action and the mask |
| `ClipboardCodec.RoundTripIffWithinLimits` | vite-plugins/vncBridge.ts:272-311 | a built body parses to the same formats exactly within the size limits, and is refused outside them |
| `ClipboardWire.HeaderSpelled` | vite-plugins/vncBridge.ts:280-280 | the header bytes: provide, and 1, 2 and 4 for text, RTF and HTML |
| `ClipboardWire.BodySpelled` | vite-plugins/vncBridge.ts:274-280 | the rest inflates to the fields in that order, each its length with the terminator, its bytes and a zero |
| `ClipboardWire.LengthSpelled` | vite-plugins/vncBridge.ts:265-269 | a length is four bytes, most significant first |
| `ClipboardWire.LimitsSpelled` | vite-plugins/vncBridge.ts:287-299 | the limits are 16 MiB for a format and 32 MiB in all |
| `ClipboardWire.MoreIsRefused` | vite-plugins/vncBridge.ts:309-309 | bytes past the last announced format are refused as exceeding the formats |
| `ClipboardWire.NoLengthIsRefused` | vite-plugins/vncBridge.ts:295-295 | and too few for a length as truncated |
| `GridChanges.BuildGridChangeStatements` | src/lib/dbGridChanges.ts:47-84 | the loop emits one statement for each change that needs one, and raises the flag exactly when a statement matches rows without a key |
| `GridMeaning.GuardPicksKey` | src/lib/dbGridChanges.ts:33-41 | the compiled test holds of a row exactly when the row has the key |
| `GridMeaning.StatementsMeanTheEdit` | src/lib/dbGridChanges.ts:60-82 | run in order the statements give the edited table, each affecting exactly one row |
| `GridMeaning.GridDmlMeansTheEdit` | src/lib/dbGridChanges.ts:47-84 | the same for a grid that shows the whole primary key |
| `GridExact.OneRowEachIffInTurn` | src/lib/dbGridChanges.ts:60-82 | for any edit of the table each statement, run in order, affects one row exactly when no change takes the key of a row a later statement is for; a freed key may be taken |
| `GridExact.OvertakenHitsTwo` | src/lib/dbGridChanges.ts:60-82 | a statement whose row's key an earlier change has taken does not affect just one row |
| `GridKeyless.AffectedAgree` | src/lib/dbGridChanges.ts:33-82 | an UPDATE or DELETE affects exactly the rows that hold the original cell in each shown key column, or in every column when none of the key is shown |
| `GridKeyless.OneStatementIff` | src/lib/dbGridChanges.ts:60-82 | a change gets a statement, of its own kind, exactly when it has something to do and a row to find |
| `GridKeyless.KeylessAffects` | src/lib/dbGridChanges.ts:56-58 | with no key in the result, exactly the rows equal to the original in every result column |
| `GridKeyless.KeylessPicksItsRow` | src/lib/dbGridChanges.ts:56-82 | so with no two such rows equal it changes its own row, to the edited cells, and no other |
| `GridKeyless.KeylessSaveMeansTheEdit` | src/lib/dbGridChanges.ts:47-84 | and a whole save without a key gives the edited table when rows are told apart by their columns |
| `GridWarning.QuietSaveIsSafeIff` | src/lib/dbGridChanges.ts:56-90 | a save without a warning changes at most one row a statement, on every table with the declared key unique, exactly when the result shows none of that key or all of it |
| `DiffWhitespace.NormalizeWhitespace` | src/lib/diffWhitespace.ts:18-46 | the loops keep exactly the characters not dropped, and their offsets |
| `DiffWhitespace.TrailingMeans` | src/lib/diffWhitespace.ts:34-37 | trailing mode drops a blank exactly when only blanks follow on its line |
| `DiffWhitespace.OtherModesMean` | src/lib/diffWhitespace.ts:19-33 | keep mode drops nothing, all mode exactly spaces and tabs |
| `DiffWhitespace.MapIsGood` | src/lib/diffWhitespace.ts:40-45 | the map is strictly increasing, points at the kept characters and misses none |
| `DiffWhitespace.NormIdempotent` | src/lib/diffWhitespace.ts:18-46 | normalising twice is normalising once |
| `DiffWhitespace.MapPosMonotone` | src/lib/diffWhitespace.ts:48-52 | mapped positions keep their order and stay in bounds |
| `DiffWhitespace.KeptBetween` | src/lib/diffWhitespace.ts:48-52 | between two mapped positions lie exactly the characters between the positions |
| `DiffWhitespace.MappedBackSound` | src/lib/diffWhitespace.ts:150-158 | changes sound for the normalised texts map to ordered, in-bounds changes whose gaps agree up to dropped characters |
| `DiffWhitespace.OverrideIsFaithful` | src/lib/diffWhitespace.ts:142-160 | and applying them to one text gives the other, up to dropped characters |
| `LineEndings.DetectLineEndingStyle` | src/lib/diffWhitespace.ts:59-82 | the counting loop gives the style of the counts |
| `LineEndings.CountsMean` | src/lib/diffWhitespace.ts:63-75 | each count is positive exactly when the text has such an ending |
| `LineEndings.ApplyKeepsContent` | src/lib/diffWhitespace.ts:107-113 | rewriting endings keeps the stripped text |
| `LineEndings.AppliedStyleIsFound` | src/lib/diffWhitespace.ts:107-113 | the style asked for is the style then detected |
| `LineTexts.StripReads` | src/lib/diffWhitespace.ts:55-57 | on lines and their endings: stripping turns every ending into a line feed and changes nothing else |
| `LineTexts.ApplyWrites` | src/lib/diffWhitespace.ts:107-113 | rewriting gives every line the ending asked for |
| `LineTexts.StyleIs` | src/lib/diffWhitespace.ts:59-82 | the style found is that of all the endings, mixed when two differ, none without any |
| `LineTexts.AnyTextComesApart` | src/lib/diffWhitespace.ts:55-57 | every text is some lines and endings |
| `LineEndings.WorktreeBecomesHead` | src/lib/diffWhitespace.ts:119-134 | for every pair the result is the old text byte for byte, or nothing when the two differ in more than endings |
| `LocalHistory.LocalHistoryState.WriteBlob` | src-tauri/src/local_history.rs:93-105 | writes a blob unless its name is there |
| `LocalHistory.LocalHistoryState.GcOrphanedBlobs` | src-tauri/src/local_history.rs:143-182 | the loop leaves exactly the blobs rows name |
| `LocalHistory.LocalHistoryState.PrunePathLocked` | src-tauri/src/local_history.rs:107-141 | the deletions of one path, then the collection |
| `LocalHistory.LocalHistoryState.TakeSnapshot` | src-tauri/src/local_history.rs:185-251 | the step of one snapshot, with its errors and the row's reason and byte length |
| `LocalHistory.LocalHistoryState.ReadText` | src-tauri/src/local_history.rs:291-305 | the text of a row's blob, with its errors |
| `LocalHistory.LocalHistoryState.Prune` | src-tauri/src/local_history.rs:308-336 | the step of pruning everything, and the number of rows it reports |
| `HistoryRows.ListingFacts` | src-tauri/src/local_history.rs:121-125 | a listing holds exactly a path's rows, newest first |
| `HistoryRows.PruneKeepsNewest` | src-tauri/src/local_history.rs:112-138 | pruning keeps exactly the newest fresh fifty rows of the path |
| `HistoryRows.PruneLeavesOthers` | src-tauri/src/local_history.rs:112-138 | and no other path's listing changes |
| `HistoryPaths.SameHistoryIff` | src-tauri/src/local_history.rs:85-91 | two paths share a history exactly when they agree up to outer white space and the direction of slashes |
| `HistoryPaths.FiledUnderItsName` | src-tauri/src/local_history.rs:185-251 | a snapshot is refused, skipped or filed under its own path's name, with the fields of its row |
| `HistoryPaths.ReasonMeans` | src-tauri/src/local_history.rs:198-208 | the reason is at most 64 characters of what was said, `save` when that is nothing |
| `HistoryPaths.KeptSpelled` | src-tauri/src/local_history.rs:112-138 | what is kept is at most fifty rows, none older than 604800 s, and no fewer than that |
| `HistoryIntegrity.StepInv` | src-tauri/src/local_history.rs:185-336 | snapshots and prunings keep every row backed by its text's blob |
| `HistoryIntegrity.SnapshotReadsBack` | src-tauri/src/local_history.rs:291-305 | whatever came before and after, a snapshot reads back as its text while its row stands |
| `HistoryIntegrity.InsertingSnapshot` | src-tauri/src/local_history.rs:233-240 | after an inserting snapshot the path has its newest fresh fifty rows and the blobs are the live ones |
| `HistoryIntegrity.NewRowStaysIff` | src-tauri/src/local_history.rs:209-240 | the new row survives exactly when it is fresh and fewer than fifty rows of its path claim to be younger |
| `HistoryIntegrity.ClockBackLoses` | src-tauri/src/local_history.rs:217-250 | an input: fifty versions taken, the clock set back, and the next snapshot returns an entry that has no row |
| `HistoryIntegrity.ClockAheadLoses` | src-tauri/src/local_history.rs:209-250 | an input: the clock leaps more than a week between the two readings of a first snapshot, whose entry has no row |
| `HistoryIntegrity.NeighboursAlwaysDiffer` | src-tauri/src/local_history.rs:218-232 | while the clock does not go back, no path lists a version twice running |
| `HistoryIntegrity.SnapshotHeadsList` | src-tauri/src/local_history.rs:218-240 | and an inserted snapshot heads its path's list |
| `HistoryIntegrity.InsertKeepsNeighboursIff` | src-tauri/src/local_history.rs:218-232 | where the new row lands decides whether neighbours still differ; the program looks only at the head |
| `HistoryIntegrity.ClockBackRepeats` | src-tauri/src/local_history.rs:218-232 | with the clock set back the same version stands twice running |
| `HistoryIntegrity.PruneCollectsIffRowsLeft` | src-tauri/src/local_history.rs:308-336 | pruning everything collects exactly when its age limit leaves a row |
| `HistoryIntegrity.PruneCapsEveryPath` | src-tauri/src/local_history.rs:321-334 | and leaves every path at most fifty rows |
| `WorkspaceSearch.Search.ScanLine` | src-tauri/src/workspace_search.rs:215-247 | takes a line's matches in order until a limit or the flag stops it |
| `WorkspaceSearch.Search.ScanFile` | src-tauri/src/workspace_search.rs:197-251 | takes a file's matches in order, as many as both limits leave room for |
| `WorkspaceSearch.Search.Run` | src-tauri/src/workspace_search.rs:152-272 | batches, totals and marks of the whole walk |
| `WorkspaceSearch.RunWorkspaceSearch` | src-tauri/src/workspace_search.rs:136-272 | the batches joined are the per-file lists cut to both limits, all but the last of exactly 200; under a cancel or an error a prefix; the mark says exactly that a limit was reached; it succeeds when every root and entry can be read, and only then if it ran to the end; it is cancelled exactly when a reading of the flag was; and it counts the files read |
| `WorkspaceSearch.LimitsSpelled` | src-tauri/src/workspace_search.rs:144-151 | the limits used for each pair asked for |
| `WorkspaceSearch.BatchesSpelled` | src-tauri/src/workspace_search.rs:234-262 | every batch but the last has 200 matches |
| `WorkspaceSearch.WantedSnoc` | src-tauri/src/workspace_search.rs:207-237 | one more file adds as much of itself as both limits leave room for |
| `WorkspaceSearch.OmittedIff` | src-tauri/src/workspace_search.rs:253-262 | matches are missing exactly when a limit was exceeded |
| `WorkspaceSearch.UnmarkedIsComplete` | src-tauri/src/workspace_search.rs:253-255 | without the mark nothing is missing |
| `WorkspaceSearch.MarkedIsIncompleteIff` | src-tauri/src/workspace_search.rs:253-255 | with it, nothing is missing exactly when a limit was met and not exceeded |
| `WorkspaceSearch.ExactlyFullIsMarkedYetComplete` | src-tauri/src/workspace_search.rs:253-255 | an input: one file with exactly its limit of matches is marked and nothing is missing |
| `TlsSni.ExtractTlsSni` | qa-ui-auto-tests/cases/_sockscap_linux_harness.py:60-90 | the scanner ends on every input with the result of the specification, an index past the data giving none |
| `TlsSni.ScanFindsHostName` | qa-ui-auto-tests/cases/_sockscap_linux_harness.py:78-87 | the extension loop finds the host name of any list of extensions |
| `TlsSni.SniIsHostName` | qa-ui-auto-tests/cases/_sockscap_linux_harness.py:60-90 | every well-formed ClientHello gives the host name of its first server name list that starts with one, and nothing without one (RFC 6066, section 3) |
| `TlsSni.NoExtensionsNoName` | qa-ui-auto-tests/cases/_sockscap_linux_harness.py:75-90 | a hello that ends before its extensions gives nothing |
| `TlsSni.NoBlockReadsWhatFollows` | qa-ui-auto-tests/cases/_sockscap_linux_harness.py:72-90 | for any bytes after a hello with no extension block a name is given exactly when they can be cut into extensions, of another type or starting with a name of another kind, up to one that names a host, and it is that name |

## Left out

- EventStream.ExactlyOnceAlways: runs that hand the client a frame after a torn connection's greeting are excluded, because the property is false of them; `ExactlyOnceIffNeverSkips` shows the condition exact and `ExactlyOnceInOneLife` needs none.
- EventStream.NextGood: sequence numbers are integers, and texts of events are numbers.
- TerminalStream.TerminalExactlyOnce: all greetings are of the one life the terminal is in, because each id is made fresh and random (`src/lib/ipc/terminal.ts:135-137`) and later lives answer that there is no such terminal; an id registered anew within one life is not modelled.
- TerminalStream.ReusedIdInOrderIff: presupposes a reused terminal id, which this program does not make; it is no failure of the program.
- MetadataCollisions.CollidesIffMovable: lower-casing of a search prefix is known only as the set of characters it can leave.
- LiveEffect.Effect.Received: the acknowledgement of a heartbeat is a message to the server and is not modelled.
- LiveEffect.Effect.Unmount: an aborted ticket request is a late callback that finds the effect unmounted; status texts and React state other than `canRetry` are not modelled.
- MetadataCache.DbMetadataCache.Invalidate: listeners are reduced to whether they are called; a listener that throws is not modelled, nor are the SQL patterns that choose a target.
- MetadataCache.DbMetadataCache.Cached: a fetcher that throws before returning a promise registers nothing and is not modelled as a fetch.
- VncAuth.VncAuthResponse: a password is its list of code points, a challenge its sixteen bytes.
- VncSession.VncBridgeSession.RectangleArrives: pixel bytes, statistics, and whether the panel's socket is still open when a frame is handed to it are not modelled.
- VncSession.VncBridgeSession.OnClientMessage: keyboard, mouse and clipboard messages do not touch pacing and are left out.
- SocketReader.SocketReader.TryRead: one reader at a time, as the session has; the wake-up itself is the next call.
- ClipboardCodec.ParseProvideBody: the choice of flush mode is inside `inflate`, and texts with unpaired surrogates, which UTF-8 cannot carry, are not texts here.
- GridKeyless.AffectedAgree: the result's columns have distinct names; of two with one name the program reads the first.
- GridMeaning.StatementsMeanTheEdit: collation, type conversion and constraints of the database, uniqueness while the statements run among them, are not modelled; a test compares cells as written.
- GridChanges.BuildGridChangeStatements: a change has one cell for each result column, as the grid makes them; quoting and the text of the statements are not modelled.
- DiffWhitespace.NormalizeWhitespace: offsets count characters of the model, where the program counts UTF-16 units; no character it drops or compares needs two.
- DiffWhitespace.OverrideIsFaithful: the diff of the normalised texts is any sound one; the merge package is not part of this model.
- HistoryPaths.SameHistoryIff: `history_list`, which cuts the same listing to a limit, is not modelled.
- LocalHistory.LocalHistoryState.TakeSnapshot: temporary files and I/O failures are left out; snapshots are taken one at a time, each with its two readings of the clock.
- WorkspaceSearch.Search.Run: emits succeed; the walk, the matcher, globs and the character offsets of a match are not modelled.
- `score` and `aggregate` of the speech benchmark (totals of word and character errors), `java_bundles.rs` (version order and the choice of a bundle), `sftpProxy.ts` (the remote delete walk and the command queue) and `route.ts` (hash routes) are outside the model.
- Rendering, sockets, HTTP, SQLite, the file system, zlib, SHA-256 and UTF-8 themselves.
