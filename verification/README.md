# pgbalancer: a verified model

pgbalancer stands between PostgreSQL clients and a set of backends. These Dafny files model the parts
of it whose correctness depends on whole sessions, on two ends of a protocol, or on loops that are
harder than they look, and prove what those parts are for.

- **Routing and session state.** `Routing` says which backends a statement goes to in each clustering
  mode; `RoutingSteps` does it in place, on the context's array and the session's lists. `SessionStore`,
  `SentMessageMap` and `SessionSteps` keep the sent-message list and the lifetime of query contexts.
  `SessionRuns` puts both together as one machine, message by message; `SessionOrder`,
  `SessionTheorems` and `ReadYourWrites` are about every run of it, `RoutingMeaning` says where statements
  go a second time, by kinds and circumstances, and `AdaptiveExamples` follows transactions through it.
  `SendAndWait` is the send and wait loops, `TempTables` the list of temporary tables.
- **SCRAM-SHA-256, both ends.** `Base64`, `Decimals`, `ScramCrypto`, `ScramMessages` (parsers and
  printers as functions), `ScramReaders` (the same parsers cutting a buffer in place), `ScramVerifier`,
  `ScramServer`, `ScramClient`, `ScramProtocol` for the two machines run against each other and for the
  server run against anything, `ScramClientRuns` for the client run against anything, and `ScramWire` for
  the same in terms of texts, hash and MAC alone (sections 3, 5 and 7 of RFC 5802; section 4 of RFC 4648).
- **Configuration variables.** `ConfigVars` and `ConfigSteps` for array parameters, sources, contexts,
  RESET ALL, sorting and lookup; `Units` for settings shown and read with units.
- **MD5, the tokenizer, the adaptive balancer.** `Md5Spec` is RFC 1321 as functions, `Md5Bits` what it does
  to each bit, `Md5Vectors` its operations and two of the digests in its appendix, and `Md5` the program's
  loops; `HbaTokens` and `HbaSteps` read the authentication file; `AiModel`, `AiSteps`, `AiRuns` and
  `AiScores` are the scoring and learning model over the reals.

`Bytes` holds what they share. A class stands wherever the program overwrites a structure; its methods
are tied by `View()` (or `Targets()`, `Rest()`) to functions on values, and the theorems are about those
functions.

## Where the program does not do what one would expect

Where a member is named, it proves the behaviour; an if-and-only-if condition is given where the
table below says so. The last two are followed as they stand and nothing more is proved of them.

- A SCRAM verifier with an empty salt cannot be read back, because `strtok` skips the empty field; the
  handshake then fails. It succeeds if and only if the salt is not empty (`ScramProtocol.HandshakeCompletes`).
- `ROLLBACK TO` counts as the end of the transaction for dml_adaptive, so a relation written before it is
  balanced again while the transaction goes on (`ReadYourWrites.RollbackToForgets`, `AdaptiveExamples.RollbackToExample`).
- A SELECT writes the list too: looking for writing functions, and before that for pg_terminate_backend,
  notes the relations associated with the functions it calls (`ReadYourWrites.WriteListMeans`,
  `AdaptiveExamples.FunctionExample`).
- Adding an unnamed message whose context only its predecessor uses frees that context
  (`SessionStore.AddKeepsLive`, `SharedLastUseDangles`). No message of the protocol does so: Parse makes
  a new context, Bind binds one that is listed under another kind, and PREPARE has a name
  (`SessionRuns.FreshAdd`, `SecondAdd`).
- When Bind cannot take its insert lock it frees the context of a statement that stays listed, and ends
  the session; the teardown then frees it again (`SessionOrder.FailedLockDangles`).
- A Sync message leaves its context field unset, and the field is compared all the same; it can only
  delay a release (`SessionStore.SyncOnlyBlocks`).
- Removal from the sent-message list ignores the CLOSED state that lookup respects, so it can take the
  wrong entry (`SentMessageMap.AddKeepsUnique`, `RemoveThenGet`, `ClosedEntryBreaksUniqueness`).
- In raw mode a COMMIT that the session reset skips is still waited for (`SendAndWait.Send`, `RawResetWaits`).
- An index-free SET in a session hands its value on as a reset value (`ConfigVars.OneSetThenReset`,
  `IndexFreeSetSticks`); a RELOAD changes a value but not what it is reset to (`ConfigVars.ReloadForgotten`).
  In the program's own tables no array parameter is open to sessions, so RESET ALL does restore everything.
- `SET transaction_read_only TO on` reaches the primary only, since the destination passes through a `bool`
  (`SessionTheorems.SetReaches`).
- In snapshot isolation a SELECT with a writing function is balanced in a read-only transaction
  (`SessionTheorems.SnapshotBalances`).
- Temporary-table names longer than the buffer are cut and then no longer found (`TempTables.AddKeepsUnique`,
  `LongNameTwice`).
- The comment above `pool_temp_tables_delete` and its code differ; `TempTables.Delete` follows the code.
- The test of an array index lets the size itself through; the model asks for an index below the size.

## Model

| member | source | states |
|---|---|---|
| `RoutingSteps.WhereToSend` | src/context/pool_query_context.c:456-523 | the whole decision, for a context just started or routed again, made in place on its array and the session: it raises no error exactly when every node stays inside the array, and then map, load-balance node, virtual main node and session memory are those of the plan |
| `RoutingSteps.WhereToSendMainReplica` | src/context/pool_query_context.c:1979-2181 | the guards of streaming, logical and slony mode, in order, give the plan of that mode, which `RoutingMeaning.DecisionReaches` says by kinds and circumstances, and what it leaves in the write list |
| `RoutingSteps.AskTables` | src/context/pool_query_context.c:2052-2112 | the guards about tables and patterns: the functions are looked at, and the list lengthened, only when all of them let the SELECT through |
| `RoutingSteps.AskFunctions` | src/context/pool_query_context.c:2113-2168 | the walk over the calls lengthens the write list before the same statement's own test of the list |
| `RoutingSteps.Balance` | src/context/pool_query_context.c:2128-2167 | picks a node and gives it up for the primary when it lags; says which of the three node ids each case writes |
| `RoutingSteps.WhereToSendReplication` | src/context/pool_query_context.c:2188-2310 | the guards of native replication and snapshot isolation give the plan of that mode |
| `RoutingSteps.WhereToSendDeallocate` | src/context/pool_query_context.c:1164-1242 | EXECUTE and DEALLOCATE take over the stored map and load-balance node, or all nodes for ALL, or leave the own plan |
| `RoutingSteps.SetAllNodes` | src/context/pool_query_context.c:220-267 | adds exactly the live nodes, less what streaming and logical mode leave out |
| `RoutingSteps.SetLoadBalanceInfo` | src/context/pool_query_context.c:1769-1784 | session and context both hold the chosen node and the map is that node alone |
| `RoutingSteps.QueryContext.SetNode` | src/context/pool_query_context.c:172-185 | adds one node to the map, or fails outside the array |
| `RoutingSteps.QueryContext.CopyFrom` | src/context/pool_session_context.c:931-935 | the map becomes the stored one, slot by slot |
| `RoutingSteps.QueryContext.SetVirtualMain` | src/context/pool_query_context.c:1751-1764 | the first node of the map, or the old value if the map is empty |
| `RoutingSteps.Session.DmlAdaptive` | src/context/pool_query_context.c:1931-1973 | what a statement does to the transaction flag and the write list |
| `RoutingSteps.Session.NoteWritten` | src/context/pool_query_context.c:1896-1926 | the walk appends each relation not yet noted, and its associate |
| `RoutingSteps.Session.NoteAssociated` | src/context/pool_query_context.c:1838-1891 | notes the configured associate of a relation, or of a function, inside a transaction only |
| `RoutingSteps.Session.WalkFunctions` | src/utils/pool_select_walker.c:358-454 | the walk over the function calls of a SELECT notes their associates, in order |
| `RoutingSteps.Session.Arrive` | src/protocol/pool_proto_modules.c:126-166 | before routing, the look for pg_terminate_backend in a simple query's SELECT runs the same walk |
| `RoutingSteps.Session.IsInList` | src/context/pool_query_context.c:1789-1810 | membership in the write list up to the case of letters, as `RoutingMeaning.SameNameMeans` says it |
| `RoutingSteps.Session.ReadsWrittenRelation` | src/context/pool_query_context.c:1815-1836 | whether a SELECT names a noted relation |
| `Routing.AllNodesUp` | src/context/pool_query_context.c:220-267 | outside the streaming and logical modes all nodes means exactly the live ones |
| `SessionTheorems.StepKeepsInv` | src/protocol/pool_proto_modules.c:177-2112 | every message of a session keeps the invariant: held contexts are live, every stored map is sound, the main node of every context is in its map, every inherited plan points at the decision it came from |
| `SessionTheorems.Run` | src/protocol/pool_proto_modules.c:177-2473 | the state after any sequence of messages and answers satisfies that invariant |
| `SessionTheorems.RouteEntry` | src/context/pool_query_context.c:456-523 | every decision, first or repeated, own or inherited, is sound, names a main node it was sent to, and is the plan of its statement |
| `SessionTheorems.FinalPlanSound` | src/context/pool_query_context.c:1979-2181 | every plan sends somewhere and, in streaming and logical mode, contains the primary or is exactly its load-balance node, whether made or inherited |
| `SessionTheorems.VirtualMainSent` | src/context/pool_query_context.c:338-436 | for every sound plan the node that speaks for the query is in its map |
| `SessionTheorems.MainNodeWasSentTo` | src/context/pool_query_context.c:338-436 | in every run, at every point, the main node of the query in progress is one the query was sent to |
| `SessionTheorems.RootPlan` | src/context/pool_query_context.c:1164-1242 | following inheritance ends at a statement with a plan of its own; the load-balance node is unchanged along the way and no node is lost |
| `SessionTheorems.RootExact` | src/context/pool_query_context.c:1164-1242 | a map without the primary is exactly that of its root |
| `SessionTheorems.OwnPlanOffPrimary` | src/context/pool_query_context.c:903-1158 | a statement whose own plan omits the primary was alone in its query and passed every load-balance guard |
| `SessionTheorems.OffPrimaryJustified` | src/context/pool_query_context.c:1979-2181 | in every run every map without the primary goes back, through EXECUTE and DEALLOCATE only, to one statement that passed every guard when it was decided |
| `SessionTheorems.WritesReachEveryNode` | src/context/pool_query_context.c:2188-2310 | in every run of native replication or snapshot isolation, a statement that must replicate or is one of several, and every EXECUTE or DEALLOCATE that inherits from one, is sent to exactly the live nodes, a SELECT in a read-only snapshot excepted |
| `SessionTheorems.SnapshotBalances` | src/context/pool_query_context.c:2188-2262 | the exception, over every run: such a SELECT goes to the balanced node |
| `SessionTheorems.SetReaches` | src/context/pool_query_context.c:1023-1101 | in the modes with a primary every form of SET on its own reaches every node, except that serializable isolation, READ WRITE and every value of transaction_read_only reach the primary alone |
| `RoutingMeaning.DestinationMeans` | src/context/pool_query_context.c:903-1158 | for every statement, PREPAREd any number of times or not: it is balanced by syntax if and only if it is a SELECT without INTO, locking or a CTE other than SELECT, a COPY TO of a table or a SELECT, SHOW, or transaction_read_only not set to an off value; it goes everywhere only if it is a weak lock, an ordinary transaction statement, DISCARD or a SET that is not serializable or READ WRITE, and always then outside a multi-statement transaction |
| `RoutingMeaning.DecisionReaches` | src/context/pool_query_context.c:1979-2181 | in every run in streaming, logical or slony mode the map of every decision that inherits nothing is given by the kind of statement and each circumstance by name: the primary for several statements, every node, the chosen node if and only if every circumstance allows it, else the primary |
| `RoutingMeaning.OffPrimaryMeans` | src/context/pool_query_context.c:1979-2181 | in every run a map without the primary goes back to a single statement that only reads, outside a writing, failed or serializable transaction, without catalog, temporary, unlogged or pattern-matched tables, writing functions or written relations; and it is exactly the node chosen then |
| `RoutingMeaning.DecisionReplicates` | src/context/pool_query_context.c:2188-2310 | the same for native replication, snapshot isolation and raw mode: which statements are balanced, which reach every live node, which the main node |
| `RoutingMeaning.AllNodesMeans` | src/context/pool_query_context.c:220-267 | what every node comes to in each setting: all live nodes, the primary, or the primary and the session's balanced node |
| `RoutingMeaning.SameNameMeans` | src/context/pool_query_context.c:1789-1810 | names are the same if and only if they have the same length and at every place the same character or the two cases of one ASCII letter |
| `RoutingMeaning.AssociatedMeans` | src/context/pool_query_context.c:1838-1891 | a relation or function is associated with the right-hand side of the first configured pair of its kind that names it, and with no other |
| `RoutingMeaning.ControlKinds` | src/context/pool_query_context.c:1931-1973 | the statements that open and close the window, by kind |
| `RoutingMeaning.WalkableKinds` | src/utils/pool_select_walker.c:58-79 | the statements whose function calls are looked at: SELECT, PREPARE of one, and EXPLAIN ANALYZE of one however often prepared |
| `SessionTheorems.NothingDangles` | src/context/pool_session_context.c:366-488 | in every run each context held by the message list, the queue or the session is live, and no list holds the context of a plain query |
| `SessionTheorems.ListIsMap` | src/context/pool_session_context.c:581-669 | in every run without CLOSED messages the list has at most one entry for each kind and name |
| `SessionRuns.FreshAdd` | src/protocol/pool_proto_modules.c:1361-1376 | the message of a Parse, whose context is new, is added without harm |
| `SessionRuns.SecondAdd` | src/protocol/pool_proto_modules.c:1705-1746 | so is that of a Bind, because the statement it binds is listed under another kind |
| `SessionRuns.LookupMeans` | src/context/pool_query_context.c:1200-1204 | a prepared statement is the first open entry under its name, one of PREPARE whenever there is one, and none exactly when there is no open entry |
| `SessionOrder.StepTidy` | src/protocol/pool_proto_modules.c:177-2112 | every message keeps held contexts live and the contexts of plain queries off every list, and changes at most the context it routes |
| `SessionOrder.ReadyTidy` | src/protocol/pool_proto_modules.c:2436-2473 | the end of a query, guarded only by the statement not being a PREPARE, frees a context that nothing else holds |
| `SessionOrder.ParseTidy` | src/protocol/pool_proto_modules.c:1271-1677 | Parse, named or not, accepted or refused |
| `SessionOrder.BindTidy` | src/protocol/pool_proto_modules.c:1679-1889 | Bind, accepted or refused |
| `SessionOrder.RerouteStepTidy` | src/protocol/pool_proto_modules.c:1773-1798 | Bind routing a stored context again |
| `SessionOrder.UseTidy` | src/protocol/pool_proto_modules.c:1891-2112 | Execute, Describe and Close |
| `SessionOrder.StoreStepTidy` | src/context/pool_session_context.c:1169-1303 | the other messages and the queue, Sync with its unset field among them, keep held contexts live and change no context |
| `SessionOrder.CompleteTidy` | src/protocol/CommandComplete.c:242-271 | the clean-up at command completion frees a context only when nothing refers to it any more |
| `SessionOrder.FailedLockDangles` | src/protocol/pool_proto_modules.c:1842-1853 | Bind without its insert lock always leaves a freed context listed, and the destruction test of the teardown then passes for it a second time |
| `SessionStore.CanDestroyMeans` | src/context/pool_session_context.c:960-1007 | the counting loops say yes exactly when no other sent message uses the context and no pending message has its address |
| `SessionStore.SyncOnlyBlocks` | src/context/pool_session_context.c:1046-1111 | what a Sync message carries can keep a context from being freed and can do nothing else |
| `SessionStore.RemoveReleases` | src/context/pool_session_context.c:366-400 | removal frees at most the entry's context, only when unused, leaves the in-progress flag alone, and clears the current context only if it was the one freed |
| `SessionStore.RemoveKindMeans` | src/context/pool_session_context.c:405-421 | removal by kind, for all its index step-back, keeps exactly the entries of other kinds in order |
| `SessionStore.ClearMeans` | src/context/pool_session_context.c:477-488 | clearing ends with an empty list and frees exactly what no pending message has the address of |
| `SessionStore.AddKeepsLive` | src/context/pool_session_context.c:581-644 | adding keeps everything live if and only if it does not re-add an unnamed message over the last use of the same context |
| `SessionStore.SharedLastUseDangles` | src/context/pool_session_context.c:581-644 | the argument on which it does not; no message of the protocol passes it |
| `SentMessageMap.AddKeepsUnique` | src/context/pool_session_context.c:581-644 | adding keeps live entries unique if and only if the removal it makes room with meets the live entry first |
| `SentMessageMap.AddThenGet` | src/context/pool_session_context.c:581-669 | a named duplicate keeps the old entry, an unnamed one replaces it, every other key is unaffected |
| `SentMessageMap.RemoveThenGet` | src/context/pool_session_context.c:366-400 | after removal the key is gone if and only if the entry removed was the live one |
| `SentMessageMap.RemoveKeepsOthers` | src/context/pool_session_context.c:366-400 | removal changes no other key's answer |
| `SentMessageMap.CloseKeeps` | src/context/pool_session_context.c:697-704 | marking a message CLOSED keeps uniqueness and changes nothing but the mark |
| `SentMessageMap.ClosedEntryBreaksUniqueness` | src/context/pool_session_context.c:581-644 | four operations after which two live entries share a key |
| `SentMessageMap.AddIsMap` | src/context/pool_session_context.c:581-644 | without CLOSED entries adding keeps one entry for each key |
| `SentMessageMap.RemoveIsMap` | src/context/pool_session_context.c:366-400 | without CLOSED entries so does removal |
| `SentMessageMap.OthersIsMap` | src/context/pool_session_context.c:405-421 | and removal by kind |
| `SessionSteps.Session.GetSentMessage` | src/context/pool_session_context.c:649-669 | the scan finds the first live entry of the key |
| `SessionSteps.Session.CanQueryContextDestroy` | src/context/pool_session_context.c:960-1007 | the counting loops compute the test on values |
| `SessionSteps.Session.RemoveSentMessage` | src/context/pool_session_context.c:366-400 | scan, destroy and shift in the array are removal on values |
| `SessionSteps.Session.ShiftDown` | src/context/pool_session_context.c:391-397 | the shift closes the gap and nothing else |
| `SessionSteps.Session.RemoveSentMessages` | src/context/pool_session_context.c:405-421 | the loop that steps back after each removal is removal by kind |
| `SessionSteps.Session.ClearSentMessageList` | src/context/pool_session_context.c:477-488 | the loop on the head entry ends and is clearing |
| `SessionSteps.Session.Push` | src/context/pool_session_context.c:631-643 | doubling when full keeps the entries and the room for one more |
| `SessionSteps.Session.AddSentMessage` | src/context/pool_session_context.c:581-644 | is addition on values, with the list never over its capacity |
| `SessionSteps.Session.SentMessageDestroy` | src/context/pool_session_context.c:426-472 | frees the context only when the test allows it |
| `SessionSteps.Session.QueryContextDestroy` | src/context/pool_query_context.c:90-117 | frees one live context and clears the current one if it is that |
| `SessionSteps.Session.Teardown` | src/context/pool_session_context.c:173-195 | frees only live contexts, so none twice, and leaves an empty list |
| `SessionSteps.TeardownLeaves` | src/context/pool_session_context.c:173-195 | exactly which contexts survive the teardown |
| `ReadYourWrites.WriteListMeans` | src/context/pool_query_context.c:1867-1973 | at every decision of every run the flag is set exactly while a window is open, and the list then holds exactly what the writes of the window touch: relations changed, functions called, and their associates, up to case |
| `ReadYourWrites.ReadsWrittenExactly` | src/context/pool_query_context.c:1815-1836 | a SELECT is recognised exactly when one of its relations was so written in the open window, or is associated with a function it calls itself |
| `ReadYourWrites.ReadYourOwnWrites` | src/context/pool_query_context.c:1931-1973 | every single SELECT naming such a relation goes to exactly the primary until the window closes, whatever the other guards say |
| `ReadYourWrites.HeldExactlyWhenWritten` | src/context/pool_query_context.c:1979-2181 | a SELECT that passes the other guards is held on the primary if and only if one of its relations was so written; else it goes to the balanced node |
| `ReadYourWrites.RollbackToForgets` | src/context/pool_query_context.c:1931-1973 | after ROLLBACK TO such a SELECT is balanced whatever was written before |
| `AdaptiveExamples.RollbackToExample` | src/context/pool_query_context.c:1931-1973 | four statements that show it |
| `AdaptiveExamples.RelationExample` | src/test/regression/tests/032.dml_adaptive_load_balance/test.sh:46-52 | the first transaction of the regression test, statement by statement |
| `AdaptiveExamples.FunctionExample` | src/test/regression/tests/032.dml_adaptive_load_balance/test.sh:96-102 | its second transaction, in which a SELECT of a function makes its associate held |
| `AdaptiveExamples.CaseExample` | src/context/pool_query_context.c:1789-1810 | a write of T1 holds t1, and its associate t2 written T2, on the primary |
| `SendAndWait.Send` | src/context/pool_query_context.c:532-681 | the query reaches exactly the live mapped nodes (in raw mode the main node) that the selection chooses, less those a COMMIT or ROLLBACK would find idle: the nodes other than the main node in the modes with a primary, and every node during a session reset; so every node inside a transaction gets its COMMIT and the main node too. BEGIN READ WRITE and SERIALIZABLE reach the primary as written and the others rewritten. Exactly the nodes left out leave the map, and the nodes waited for are those sent to if and only if not in the one raw-mode case |
| `SendAndWait.SendLoop` | src/context/pool_query_context.c:577-626 | the first loop, in place on the map |
| `SendAndWait.WaitLoop` | src/context/pool_query_context.c:628-681 | the second loop, over what is left of the map |
| `SendAndWait.MainCases` | src/context/pool_query_context.c:396-436 | the main node is the first node of the map, except that streaming and logical mode take the primary when that is neither the load-balance node nor the primary |
| `SendAndWait.RawResetWaits` | src/include/pool.h:336-340 | an instance of that case |
| `TempTables.TempTables.Add` | src/context/pool_session_context.c:1793-1820 | a known name changes state, a new one is appended as it fits the buffer |
| `TempTables.TempTables.Delete` | src/context/pool_session_context.c:1850-1887 | an entry whose drop is committed is removed, any other takes the requested state, other entries stay |
| `TempTables.TempTables.CommitPending` | src/context/pool_session_context.c:1893-1930 | the restarting scan ends, drops what was being dropped, commits what was being created, keeps the order |
| `TempTables.TempTables.RemovePending` | src/context/pool_session_context.c:1936-1967 | the restarting scan ends and keeps exactly what was neither being created nor dropped, in order |
| `TempTables.SettledState` | src/context/pool_session_context.c:1893-1967 | commit and abort decide each name by its own state |
| `TempTables.SettledCases` | src/context/pool_session_context.c:1893-1967 | state by state: commit turns creating into committed, drops what was being dropped, and keeps the rest; abort drops both pending states and keeps the rest |
| `TempTables.AddKeepsUnique` | src/context/pool_session_context.c:1793-1820 | adding keeps names unique if and only if the name is listed already or its cut form is not |
| `TempTables.LongNameTwice` | src/context/pool_session_context.c:1793-1820 | every name too long for the buffer breaks it |
| `TempTables.NamesUnique` | src/context/pool_session_context.c:1793-1967 | over every run with names that fit, names are unique |
| `Base64.Encode` | src/utils/base64.c:39-78 | the loop over a 24-bit buffer is base64 by groups |
| `Base64.Decode` | src/utils/base64.c:86-162 | the loop with its padding state accepts and yields what the decoder on values does |
| `Base64.EncodedShape` | src/utils/base64.c:39-78 | only alphabet symbols, and the length |
| `Base64.RoundTrip` | src/utils/base64.c:39-162 | decoding undoes encoding for every octet string |
| `Base64.Alphabet` | src/utils/base64.c:19-20 | the sixty-four symbols of table 1 of RFC 4648 |
| `Base64.Vectors` | src/utils/base64.c:39-78 | the test vectors of section 10 of RFC 4648, with no, one and two padding characters |
| `ScramCrypto.SaltedPassword` | src/utils/scram-common.c:96-132 | the in-place XOR loop computes the iterated hash Hi of RFC 5802 |
| `ScramCrypto.OwnProofAccepted` | src/utils/scram-common.c:139-173 | the proof of the password's owner unmasks to the client key, for every hash and MAC |
| `Bytes.XorKeyUnmasks` | src/auth/auth-scram.c:886-888 | exactly one key remains when a mask is taken off, and each of its bits is set if and only if the two bits differ |
| `ScramWire.SaltedPasswordMeans` | src/utils/scram-common.c:96-132 | a bit of the salted password is set if and only if an odd number of the chained MACs has it set, the chain starting from the salt and block number 1 |
| `Decimals.DecimalNotation` | src/auth/auth-scram.c:901-949 | decimal notation, digit by digit |
| `Decimals.StrtolValues` | src/auth/auth-scram.c:474-477 | sign, leading space, trailing text and missing digits |
| `ScramReaders.ReadAttrValue` | src/auth/auth-scram.c:543-577 | cuts one attribute in place exactly where the grammar does, inside the buffer |
| `ScramReaders.ReadAnyAttrValue` | src/auth/auth-scram.c:624-668 | the same for an attribute of any letter |
| `ScramReaders.SkipExtensions` | src/auth/auth-scram.c:824-830 | the loop over further attributes ends and accepts exactly the well-formed ones |
| `ScramReaders.ScanToProof` | src/auth/auth-scram.c:1011-1018 | the loop to the proof ends and finds where it starts |
| `ScramReaders.ReadClientFirstMessage` | src/auth/auth-scram.c:676-833 | the in-place reader is the parser of the opening message, errors included |
| `ScramReaders.ReadClientFinalMessage` | src/auth/auth-scram.c:955-1036 | the in-place reader is the parser of the final message, errors included |
| `ScramReaders.ReadServerFirstMessage` | src/auth/auth-scram.c:1366-1426 | the same for the challenge |
| `ScramReaders.ReadServerFinalMessage` | src/auth/auth-scram.c:1431-1472 | the same for the server's last message |
| `ScramMessages.ClientFirstRoundTrip` | src/auth/auth-scram.c:1282-1315 | the server reads the opening message the client prints |
| `ScramMessages.ServerFirstRoundTrip` | src/auth/auth-scram.c:901-949 | the client reads nonce, salt and count from the challenge the server prints |
| `ScramMessages.ClientFinalRoundTrip` | src/auth/auth-scram.c:1320-1361 | the server reads nonce, signed part and proof the client prints |
| `ScramMessages.ServerFinalRoundTrip` | src/auth/auth-scram.c:1041-1084 | the client reads the signature the server prints |
| `ScramMessages.ClientFinalText` | src/auth/auth-scram.c:955-1036 | an accepted final message is its signed part, a comma and the proof, and the signed part opens with the matching channel binding and the nonce |
| `ScramWire.OpeningText` | src/auth/auth-scram.c:676-833 | an accepted opening is the flag n or y, two commas, the name, a printable nonce and well-formed extensions |
| `ScramWire.OpeningAccepted` | src/auth/auth-scram.c:676-833 | and every such text is accepted and read as its parts |
| `ScramWire.ChallengeText` | src/auth/auth-scram.c:1366-1426 | an accepted challenge has a nonce that begins with the client's, a salt that decodes and a count of at least one |
| `ScramWire.ChallengeAccepted` | src/auth/auth-scram.c:1366-1426 | and every such text is accepted, whatever follows the count |
| `ScramWire.FinalBegins` | src/auth/auth-scram.c:955-1036 | an accepted final message begins with c=biws after the flag n and c=eSws after y, then its nonce, and the proof follows the signed part |
| `ScramWire.FinalAccepted` | src/auth/auth-scram.c:955-1036 | for both flags such a message is accepted |
| `ScramWire.ConclusionText` | src/auth/auth-scram.c:1431-1472 | an accepted last message carries the signature |
| `ScramVerifier.SplitText` | src/auth/auth-scram.c:438-515 | the four strtok cuts give back the five fields if and only if the salt is not empty |
| `ScramVerifier.ParseBuilt` | src/utils/scram-common.c:184-231 | a verifier built from a password is read back, with its exact condition |
| `ScramWire.UsableText` | src/auth/auth-scram.c:438-515 | a usable verifier is SCRAM-SHA-256, count, salt and two 32-octet keys in order between their delimiters, which may repeat |
| `ScramWire.VerifierText` | src/utils/scram-common.c:184-231 | the verifier kept for a password, with both key labels written out |
| `ScramServer.Exchange.constructor` | src/auth/auth-scram.c:152-221 | missing or unreadable verifiers are replaced by a mock one and doom the exchange |
| `ScramServer.Exchange.VerifyFinalNonce` | src/auth/auth-scram.c:839-854 | the two comparisons say that the final nonce is the client's followed by the server's |
| `ScramServer.Exchange.VerifyClientProof` | src/auth/auth-scram.c:860-895 | the XOR loop and hash test accept if and only if the key that remains when the MAC of the signed text under the stored key is taken off the proof, bit by bit, hashes to the stored key |
| `ScramServer.Exchange.ReceiveFirst` | src/auth/auth-scram.c:280-294 | the opening call is the transition on values |
| `ScramServer.Exchange.ReceiveFinal` | src/auth/auth-scram.c:296-340 | the final call is the transition on values |
| `ScramServer.Exchange.Call` | src/auth/auth-scram.c:239-355 | every call is the transition of the server machine, for every input |
| `ScramClient.Exchange.CalculateProof` | src/auth/auth-scram.c:1478-1515 | derives the salted password and masks the client key with the signature of the signed text |
| `ScramClient.Exchange.Call` | src/auth/auth-scram.c:1182-1277 | every call is the transition of the client machine |
| `ScramProtocol.HandshakeCompletes` | src/auth/auth-scram.c:1182-1277 | for every password, salt, count, nonces, hash and MAC: both machines succeed against each other if and only if the salt is not empty |
| `ScramProtocol.HandshakeVerdict` | src/auth/auth-scram.c:239-355 | the four messages of a handshake, with both outcomes |
| `ScramProtocol.RunInvariant` | src/auth/auth-scram.c:239-355 | over every sequence of inputs the verifier and the doom are fixed, and past the first phase some earlier call sent the challenge on record |
| `ScramProtocol.SuccessIsJustified` | src/auth/auth-scram.c:296-340 | over every sequence of inputs a success follows a challenge, on an exchange that is not doomed, with the right nonce and channel binding and a proof that unmasks to a preimage of the stored key, and answers with the MAC of the same text under the server key |
| `ScramWire.VerdictOnFinal` | src/auth/auth-scram.c:239-355 | in every run against every peer, what the server answers to whatever follows its challenge: an error for a text that is no final message of that opening or has another nonce; else success if and only if a usable verifier exists and the unmasked proof hashes to its stored key; else failure. Stated on the texts, the hash and the MAC alone |
| `ScramProtocol.SuccessOnlyOnce` | src/auth/auth-scram.c:239-355 | success is reported at most once |
| `ScramProtocol.DoomedNeverSucceeds` | src/auth/auth-scram.c:152-221 | without a usable verifier no input sequence succeeds |
| `ScramClientRuns.RunInvariant` | src/auth/auth-scram.c:1182-1277 | over every sequence of inputs the client's state is made of its password, the nonce it drew and the challenge it received |
| `ScramClientRuns.VerifiedExactly` | src/auth/auth-scram.c:1521-1549 | over every sequence of inputs the client reports a verified server if and only if its second input was a challenge on its own nonce and its third the signature, over the messages exchanged, of the key its own password gives |
| `ScramClientRuns.SentMessages` | src/auth/auth-scram.c:1282-1361 | what it sends on the way |
| `ScramWire.ClientSigns` | src/auth/auth-scram.c:1182-1361 | the client's two messages, its proof and the signature it accepts, written out over the hash and the MAC |
| `ConfigVars.LoadResolves` | src/config/pool_config_variables.c:3387-3472 | after any lines in any order each element holds its last accepted own value, else the last accepted index-free value, else the boot value, and is reset to it |
| `ConfigVars.LoadIsLoaded` | src/config/pool_config_variables.c:3387-3472 | loading any lines leaves every value equal to its reset value |
| `ConfigVars.SetThenResetAll` | src/config/pool_config_variables.c:5996-6060 | from what loading any lines leaves, every sequence of accepted or refused session SETs followed by RESET ALL restores every value, for parameters that hand nothing on |
| `ConfigVars.OneSetThenReset` | src/config/pool_config_variables.c:3438-3472 | one SET and RESET ALL restore a parameter if and only if the SET hands no new value on |
| `ConfigVars.IndexFreeSetSticks` | src/config/pool_config_variables.c:3438-3472 | a parameter and a SET on which they do not |
| `ConfigVars.ReloadForgotten` | src/config/pool_config_variables.c:3702-3703 | RESET ALL after a RELOAD goes back to the value before the RELOAD |
| `ConfigVars.GateTable` | src/config/pool_config_variables.c:3474-3545 | for every pair of contexts whether a setting is accepted, passed over or refused |
| `ConfigSteps.Parameter.SetElement` | src/config/pool_config_variables.c:3474-3816 | one element's value, source, context and reset value after an assignment, and whether it is accepted |
| `ConfigSteps.Parameter.SetArrayDefault` | src/config/pool_config_variables.c:3438-3472 | the loop hands a value to exactly the elements without one of their own |
| `ConfigSteps.Parameter.SetIndexFree` | src/config/pool_config_variables.c:3387-3436 | an index-free assignment and what it hands on |
| `ConfigSteps.Parameter.Reset` | src/config/pool_config_variables.c:5996-6060 | RESET ALL on one parameter |
| `ConfigSteps.SortByLength` | src/config/pool_config_variables.c:2809-2834 | the in-place sort orders by falling name length and permutes |
| `ConfigSteps.FindOption` | src/config/pool_config_variables.c:3305-3334 | the first entry that matches |
| `ConfigSteps.FoundIsLongest` | src/config/pool_config_variables.c:2809-2834 | in a sorted table of distinct names the first match is exactly the longest match |
| `Units.ConvertFromBaseUnit` | src/config/pool_config_variables.c:5654-5688 | the scan stops at the greatest unit that divides the value, and the number shown times that unit is the value |
| `Units.GreatestUnique` | src/config/pool_config_variables.c:5654-5688 | that unit is unique |
| `Units.UnitTable` | src/config/pool_config_variables.c:337-386 | the units of each table in order, and each as a multiple of the next: 1024 for memory; 24, 60, 60, 1000 and 1000 for time |
| `Units.ConvertToBaseUnit` | src/config/pool_config_variables.c:5595-5644 | the loops over the unit name and the table are the conversion on values, garbage and unknown units refused |
| `Units.SnapNearest` | src/config/pool_config_variables.c:5625-5637 | a fractional value goes to a multiple of the next smaller unit at most half of it away |
| `Units.SignedRead` | src/config/pool_config_variables.c:5525-5532 | a printed number is read back whole and the reading stops at the unit |
| `Units.ShowThenParse` | src/config/pool_config_variables.c:5502-5582 | every setting in range, in every base unit or none, is read back as it was shown |
| `Md5.CreatePaddedCopy` | src/auth/md5.c:98-151 | the buffer is the message, 0x80, the fewest zeros, and the 64-bit little-endian bit count |
| `Md5.LoadBlock` | src/auth/md5.c:273-285 | the backward byte index assembles the sixteen little-endian words of a block |
| `Md5.Round1` | src/auth/md5.c:166-182 | the unrolled round is sixteen table-driven steps |
| `Md5.Round2` | src/auth/md5.c:184-199 | the same for the second round |
| `Md5.Round3` | src/auth/md5.c:201-216 | the same for the third |
| `Md5.Round4` | src/auth/md5.c:218-233 | the same for the fourth |
| `Md5.DoTheRounds` | src/auth/md5.c:153-239 | all four rounds added into the state are the block function of RFC 1321, whose operations `Md5Vectors` lists and whose words `Md5Bits` describes bit by bit |
| `Md5.CalculateDigest` | src/auth/md5.c:241-304 | the digest is that of RFC 1321, whose digests in appendix A.5 the rows below reproduce, for every message whose 32-bit index does not wrap |
| `Md5Vectors.EmptyDigest` | src/auth/md5.c:241-304 | the digest of the empty message is d41d8cd98f00b204e9800998ecf8427e, as appendix A.5 of RFC 1321 has it |
| `Md5Vectors.LetterADigest` | src/auth/md5.c:241-304 | the digest of "a" is 0cc175b9c0f1b6a831c399e269772661 |
| `Md5Vectors.Operations1` | src/auth/md5.c:166-182 | word, shift and constant of the operations of the first round |
| `Md5Vectors.Operations2` | src/auth/md5.c:184-199 | of the second |
| `Md5Vectors.Operations3` | src/auth/md5.c:201-216 | of the third |
| `Md5Vectors.Operations4` | src/auth/md5.c:218-233 | of the fourth |
| `Md5Vectors.BlocksInOrder` | src/auth/md5.c:270-290 | the blocks are taken in order, each into the registers the ones before it left |
| `Md5Bits.RotateMeans` | src/auth/md5.c:47-47 | for every word and every number of places, rotation moves every bit so many places up, going round at the top |
| `Md5Bits.AuxF` | src/auth/md5.c:42-42 | the first function, bit by bit: y or z by x |
| `Md5Bits.AuxG` | src/auth/md5.c:43-43 | the second: x or y by z |
| `Md5Bits.AuxH` | src/auth/md5.c:44-44 | the third: the parity |
| `Md5Bits.AuxI` | src/auth/md5.c:45-45 | the fourth: y turned where x is set or z is not |
| `HbaTokens.QuotedRead` | src/auth/pool_hba.c:2152-2240 | a string in double quotes with inner quotes doubled, before an end, a blank or a comma, is read back exactly with its flags and the cursor right behind it if and only if it has at most 254 characters; else the token is refused |
| `HbaTokens.PlainRead` | src/auth/pool_hba.c:2152-2240 | after spaces, tabs, carriage returns and commas a token without quotes runs to the next of these, a comment or the end, and is read whole if and only if it has at most 254 characters, or 255 and no comma after it; a comment ends the line |
| `HbaTokens.LineRead` | src/auth/pool_hba.c:1998-2080 | a whole line of fields of such strings is read back field by field, string by string |
| `HbaTokens.FieldRead` | src/auth/pool_hba.c:2097-2122 | a comma list is one field, in order |
| `HbaTokens.Progress` | src/auth/pool_hba.c:2152-2240 | on every line a call that finds a token moves the cursor and one that finds none leaves it at the end |
| `HbaTokens.NextField` | src/auth/pool_hba.c:2097-2122 | a field is read in finitely many tokens and moves the cursor unless the line has ended |
| `HbaSteps.TokenBuffer.Add` | src/auth/pool_hba.c:2210-2228 | one character into the buffer or one quote noted, inside the buffer |
| `HbaSteps.LineReader.NextTokenInto` | src/auth/pool_hba.c:2152-2240 | the loops over the terminated line and the 256-byte buffer read the token on values; no read is past the terminator |
| `HbaSteps.LineReader.NextFieldExpand` | src/auth/pool_hba.c:2097-2122 | the do-while loop reads the field on values |
| `HbaSteps.LineReader.ParseFields` | src/auth/pool_hba.c:2048-2059 | the loop over a line ends and reads its fields on values |
| `AiSteps.BestIndex` | src/ai/pool_ai_load_balancer.c:168-180 | the first of the greatest scores |
| `AiSteps.WeightedIndex` | src/ai/pool_ai_load_balancer.c:573-599 | the pick is where the draw falls among the weights laid end to end; with positive weights neither the zero-total branch nor the fallback is taken |
| `AiSteps.Balancer.Select` | src/ai/pool_ai_load_balancer.c:126-190 | decays and scores the available nodes in order, counts the decision, and picks a greatest score or the place the draw falls; with none available it returns the first slot and changes nothing |
| `AiSteps.Balancer.UpdateMetrics` | src/ai/pool_ai_load_balancer.c:240-294 | counters, averages and health of one node after a report; other nodes and bad ids change nothing |
| `AiSteps.Balancer.LearnFromFeedback` | src/ai/pool_ai_load_balancer.c:347-376 | the update, then the learning rate by the error of the prediction made before it |
| `AiSteps.Balancer.ResetModel` | src/ai/pool_ai_load_balancer.c:428-452 | every node as new and the counts zero, the learning rate kept |
| `AiRuns.Run` | src/ai/pool_ai_load_balancer.c:46-452 | over every run with response times from 0 to any bound: health in [0.2, 1], load in [0, 0.7], average in [0, bound], queries = successes + failures, learning rate in [0.05, 0.2], global successes = sum over the nodes |
| `AiRuns.CountersAreReports` | src/ai/pool_ai_load_balancer.c:240-294 | each node's counters are the reports about it since the last reset |
| `AiRuns.ScoreInRange` | src/ai/pool_ai_load_balancer.c:195-235 | every score of such metrics is above 0 and at most 1, for every query pattern |
| `AiRuns.ScoresAfterRun` | src/ai/pool_ai_load_balancer.c:126-190 | so are all scores after every run |
| `AiScores.ScorePrefers` | src/ai/pool_ai_load_balancer.c:195-235 | of two measured nodes the one no less healthy, no more loaded and no slower never scores less, in every mode and for every pattern |
| `AiScores.ScoreWeights` | src/ai/pool_ai_load_balancer.c:195-235 | how far health, load, speed and prediction move the score |
| `AiScores.HealthValues` | src/ai/pool_ai_load_balancer.c:240-294 | health at full success for each step of the average time, and what each failure takes off |
| `AiScores.TwoReports` | src/ai/pool_ai_load_balancer.c:240-294 | a new node after a success and a failure, with the averages worked out |
| `AiScores.PredictedValues` | src/ai/pool_ai_load_balancer.c:311-342 | a node never measured counts as one of 50 ms |
| `AiScores.ComplexityValues` | src/ai/pool_ai_load_balancer.c:329-340 | the factor at and beyond its row limits |
| `AiScores.RateValues` | src/ai/pool_ai_load_balancer.c:368-373 | the learning rate after a poor, a good and a fair prediction, and at its bounds |
| `AiScores.StaleValues` | src/ai/pool_ai_load_balancer.c:549-569 | what a minute without reports does |

## Left out

- `pg_terminate_backend` and the saving and restoring of maps around forced nodes (`where_to_send_save`): the virtual-main theorem is for queries without them.
- The extended-query send and wait function, whose skip test differs from its send loop.
- What the parse-tree walkers, `is_select_query`, `select_load_balancing_node`, replication delay and regular-expression lists answer: each answer is an input of the routing model, so the theorems hold for all of them. The walk over function calls is modelled where it changes the write list; the functions it meets in a statement are an input.
- Failover: backend status and the primary stay fixed during a run.
- `check_temp_table` is never zero in this program, so the temporary-table answer is always consulted.
- The bodies of SHA-256 and HMAC are abstract functions, so every SCRAM theorem is for all of them; string preparation of passwords is left to the callers, as in the program.
- Socket input and output, memory contexts, logging.
- Text before the index in a parameter name, assign and show hooks, string and enum types: a parameter's `eval` stands for parsing and range check together.
- `strtod` and double rounding: `strtod` is a parameter of `Units.ParseInt`, and arithmetic is exact.
- `@file` includes are reported as items and not expanded; `parse_hba_line` and everything after the tokens.
- Draws of `rand()` and the clock are parameters.
- The REST, MQTT and command-line parts, health checks, watchdog and process management: plumbing, or single-branch facts.
- RoutingSteps.Balance: the delay test is one input for the first pick and, where a lower delay is preferred, the replacement is another; how delays are compared is not modelled.
- SessionTheorems.NothingDangles: ends a run where the program gives up, Bind's failed insert lock among these, since that leaves a freed context listed; leaves out the saved copy of the last answered message (`previous_message`), from which the context in hand is taken while rows arrive.
- ReadYourWrites.ReadYourOwnWrites: the window also closes at ROLLBACK TO, as in the code; a Parse message that names its statement is sent to the other nodes as well.
- SessionSteps.Session.Teardown: asks that the list holds no freed context, which Bind's failed insert lock breaks.
- Copies of a context made to repeat a Parse or PREPARE on the primary (`parse_before_bind`, `send_prepare`), the dummy context of a Describe of an unknown portal, and COPY data messages inside the extended protocol.
- ConfigVars.SetThenResetAll: for parameters open to sessions that hand nothing on, have no empty slot and are not exempt from RESET ALL, which covers the program's tables.
- ConfigSteps.Parameter.SetElement: asks for an index below the size, where the code's test lets the size itself through.
- Md5.CalculateDigest: for messages of at most 2^32 - 137 octets, beyond which the 32-bit block index would wrap.
- ScramReaders.ReadServerFirstMessage: a salt that does not decode is an error here; the program uses the failed length.
- ScramServer.Exchange.Call: a missing input gets an empty reply in every phase; the assertion that limits it to the first phase is compiled out.
