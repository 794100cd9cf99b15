# OwnPG, verified

OwnPG puts one PostgreSQL database behind an MCP server. This project models the logic that is OwnPG's own, proves what
it promises, and where the code falls short of a promise says exactly when. Each model stands beside a small reference
semantics of its own, independent of the code that is compared with it: a PostgreSQL backend, JSON trees, SQL's
three-valued logic, the calendar, PostgreSQL's lexer, printers for every format that is read.

`dafny verify dfyconfig.toml` checks everything.

| Component | Files |
|---|---|
| A backend as one client sees it: blocks, savepoints, portals, a connection that may drop at any statement | `Backend`, `Guard` |
| Transaction handles over a pool, as steps of many calls that interleave at the locks | `Handles`, `Pooled` (the steps and what they keep), `PooledSteps`, `PooledRuns`, `PooledOutcomes`, `PooledCap` |
| One connection: lanes with cursors, savepoints, commits, and the engine over both lanes | `Lanes`, `Savepoints`, `Commit`, `SingleStatements`, `Engine` |
| Pages of a cursor under row, byte and cell caps | `Paging` |
| The hash-chained log: verifier, writer, and the loss counters as interleaving threads | `AuditLog`, `AuditWriter`, `Pruning`, `LossAccounting` |
| The classifier of parse trees and the read-only gate; clauses that match every row | `ParseTree`, `Classifier`, `Authorization`, `DottedNames`, `StatementLists`, `ReadOnlyGate`, `EveryRow` |
| The scanner that decides whether a JSON cell may be passed on as JSON | `JsonFidelity` |
| Days and dates | `Calendar` |
| Connection strings, connection URIs, password files | `KeyValues`, `ConnUri`, `PasswordFile` |
| Quoted names and literals, table cells | `Printers` |
| Failure values and facts about text | `Basics` |

What the source updates in place is a class whose methods say what the new state is; what it computes with loops is a
method proved against a specification function; code made of expressions is functions and lemmas. The pooled handles
and the loss counters, whose point is the interleaving, are state machines over runs of steps.

## Where the code and its promises part

Each line names the members that show it and say exactly when.

- The handle cap is tested before a begin waits for its connection, and not again at the insert. Two begins at once
  exceed it (`PooledCap.CapCanBeExceeded`); an insert keeps it exactly when its principal has a handle or there is room
  (`PooledCap.InsertKeepsCapExactlyWhen`), and w begins at once exceed it by less than w (`PooledCap.OpenWithinCap`).
- A commit or rollback of a pooled handle that returns early, because its call was cancelled, leaves a handle that is
  neither open nor closed. That is the only way to lose one (`PooledRuns.NotedUnlessCancelled`).
- If the reply to a COMMIT is lost and nobody can tell the outcome, the state that is noted depends on whether the client
  is already seen to be closed. If it is not, the handle is noted as rolled back, though its work may have been committed
  (`PooledOutcomes.CommitCanBeNotedAsRollback`); in every other case what is noted is true
  (`PooledOutcomes.NotedStateIsTrueExactlyWhen`), and what the caller is told is true always
  (`PooledOutcomes.AnswersAreTrue`, `Commit.FinishBlock`).
- If the server refuses the settings after a BEGIN, or the check before the COMMIT of a single statement, nobody rolls
  back: the block is left, aborted, exactly then (`Lanes.Lane.BeginRead`, `SingleStatements.Autocommit`). The engine takes
  the connection for free, and nothing runs on it any more: it stays as it was left until it is lost or replaced
  (`Engine.Run`, `Backend.StuckStays`). A refused CLOSE aborts the read transaction the same way, and keeps a portal that
  the lane has forgotten (`Lanes.Lane.SendClose`).
- A read whose error has the code 25P02, which a function can raise and an aborted read transaction does, makes the lane
  roll everything back: other cursors on it are lost then and only then (`Lanes.Lane.ReadOnLane`).
- The chain does not show that a log was cut back, if it was to whole lines
  (`AuditLog.CutBackFileIsAcceptedExactlyWhen`); a last line that does not fit the 65,536-byte window breaks the chain at
  the next start (`AuditWriter.OpenedVerifiesExactlyWhen`), a torn one does unless only its newline is missing
  (`AuditWriter.CrashedWriteVerifiesExactlyWhen`), and so would a failed write that is not cut back
  (`AuditWriter.PartialLineBreaksTheChain`).
- The degraded flag is right in every run in which no failure is noted while a gap is being closed, sequential ones above
  all (`LossAccounting.DegradedUnlessOverlapped`). Otherwise it can end up clear with a loss unreported, or set with none
  (`LossAccounting.FlagCanBeLost`, `LossAccounting.FlagCanBeSetForNothing`); exactly when, in terms of the turns of the
  run, is `LossAccounting.DegradedExactlyWhenUnreported`. Losses that are unreported at a restart are forgotten
  (`AuditWriter.RunWithHistory`).
- A function's schema is found by joining name parts with dots and splitting again, which gives the schema back exactly
  when no part that matters holds a dot (`DottedNames.SplitQualifiedExactlyWhen`, `DottedNames.DottedNameHidesSchema`).
- A comparison of a column with itself by an operator named `"=".<>` counts as matching every row, and can be
  false on all of them (`EveryRow.QualifiedOperatorCanBeFalse`); exactly the operators with a single name do match
  (`EveryRow.FlaggedOperatorIsTrueExactlyWhen`).
- A percent escape is documented as two hex digits, but a plus sign and one digit is read too
  (`ConnUri.PlusEscapeIsAccepted`; exactly what is accepted: `ConnUri.DecodedExactlyWhen`).
- An escaped star that is alone in a field of a password file still matches everything (`PasswordFile.EntryAnswers`).
- A printed literal is read back exactly unless the statement goes on with a quote that reopens the constant
  (`Printers.LexUndoesQuoteLiteral`), and a row of no columns reads back as a row of one (`Printers.ReadRowUndoesRowLine`).

## Model

| member | source | states |
|---|---|---|
| `PooledRuns.EveryRunIsValid` | crates/ownpg-core/src/engine.rs:1719-2022 | Every interleaving of the pooled steps keeps the owners of connections, the tables of handles, the numbers given out and the blocks on handles' connections consistent |
| `PooledRuns.NoStatementAfterTheEnd` | crates/ownpg-core/src/engine.rs:1811-2022 | In every interleaving a user's statement of a handle's call goes only into that handle's own block, and never after it was committed, rolled back, expired or lost |
| `PooledRuns.LateCallDoesNothing` | crates/ownpg-core/src/engine.rs:2345-2367 | A call that looked its handle up before the end and gets the cell's lock after it sends no user's statement and leaves the connection as it is, whatever it wanted to do |
| `PooledRuns.OneHandleEach` | crates/ownpg-core/src/engine.rs:1740-1790 | In every interleaving a principal has at most one open handle, different open handles have different connections, and no open handle is in the table of closed ones |
| `PooledRuns.OpenWithinPool` | crates/ownpg-core/src/engine.rs:1748-1790 | In every interleaving at most as many handles are open as the pool has connections |
| `PooledRuns.OneTerminalState` | crates/ownpg-core/src/engine.rs:648-664 | A terminal state, once noted, is never changed by any later step |
| `PooledRuns.TerminalIsClosed` | crates/ownpg-core/src/engine.rs:648-664 | A handle with a terminal state is not open, and the table of closed handles agrees with that state as long as it remembers the handle |
| `PooledOutcomes.NotedStateIsTrueExactlyWhen` | crates/ownpg-core/src/engine.rs:1841-1904 | In every interleaving, however a handle ended, its terminal state is true if and only if it is not a rollback noted after a COMMIT of some work that the server carried out, whose reply was lost, whose outcome nobody told, and whose client was not yet seen to be closed |
| `PooledOutcomes.CommitCanBeNotedAsRollback` | crates/ownpg-core/src/engine.rs:1883-1902 | A run that ends with a handle noted as rolled back although its work has been committed |
| `PooledOutcomes.AnswersAreTrue` | crates/ownpg-core/src/engine.rs:1883-1903 | In every interleaving what the caller is told is true of the connection before and after: a success means that it was done, a failure that nothing was committed, and only a COMMIT can be left unknown |
| `PooledOutcomes.EveryRecordIsKept` | crates/ownpg-core/src/engine.rs:1719-1904 | In every interleaving the terminal states follow from how the blocks ended, for commits, rollbacks, sweeps, the shutdown and lost handles, and a block without a transaction id has done nothing |
| `PooledRuns.NotedUnlessCancelled` | crates/ownpg-core/src/engine.rs:1863-1880 | A handle that was open is still open, or being ended, or has a terminal state, if and only if no commit or rollback of it returned early |
| `PooledRuns.GoneIfCancelled` | crates/ownpg-core/src/engine.rs:1863-1880 | After such an early return the handle is in no table and never comes back |
| `PooledSteps.StepKeeps` | crates/ownpg-core/src/engine.rs:1719-2022 | Every step keeps the whole invariant |
| `PooledSteps.EndingKeeps` | crates/ownpg-core/src/engine.rs:1867-1885 | Ending a handle's block leaves no block that a later call could use |
| `PooledCap.OpenWithinCap` | crates/ownpg-core/src/engine.rs:1748-1790 | If never more than w begins are under way at once, the handle cap is exceeded by less than w |
| `PooledCap.SingleBeginsKeepCap` | crates/ownpg-core/src/engine.rs:1755-1766 | Begins that do not overlap keep the handle cap |
| `PooledCap.InsertKeepsCapExactlyWhen` | crates/ownpg-core/src/engine.rs:1777-1788 | The last part of a begin keeps the cap exactly when its principal has a handle already or there is still room |
| `PooledCap.CapCanBeExceeded` | crates/ownpg-core/src/engine.rs:1755-1788 | A run in which two begins at once open two handles where the cap is one |
| `Guard.GuardedStatement` | crates/ownpg-core/src/engine.rs:2345-2367 | A statement under a savepoint: outside a block and in an aborted one it does not run, a success adds exactly its effects, and a failure restores the block and its savepoints; nothing is committed |
| `Guard.RollbackRestores` | crates/ownpg-core/src/engine.rs:2740-2749 | Whatever was done since the savepoint, rolling back to it and releasing it restores the block it was set in, but for portals closed since |
| `Guard.RollbackSavepoint` | crates/ownpg-core/src/engine.rs:2740-2749 | Sends the two statements, and leaves on a live connection what they make of the state |
| `Backend.SendingKeepsNumbered` | crates/ownpg-core/src/engine.rs:2132-2145 | A block without a transaction id has done nothing, nor had it at any savepoint: the fact behind taking such a lost commit for a success |
| `Savepoints.WriteHandle.MakeSavepoint` | crates/ownpg-core/src/engine.rs:1310-1342 | The engine's list stays the server's stack; a failure changes neither |
| `Savepoints.WriteHandle.RollBackTo` | crates/ownpg-core/src/engine.rs:1344-1377 | A rollback is sent only for a name the engine knows, and then the server knows it too: it restores what there was at the newest savepoint of the name and cuts both lists there |
| `Savepoints.WriteHandle.Run` | crates/ownpg-core/src/engine.rs:1452-1476 | A statement in a handle: a success adds its effects, a failure leaves the block and its savepoints |
| `Savepoints.SameFind` | crates/ownpg-core/src/engine.rs:2268-2282 | The engine's search by name and the server's find the same savepoint, shadowed names included |
| `Savepoints.FindName` | crates/ownpg-core/src/engine.rs:2268-2282 | The position of the newest savepoint of a name, or none if there is none |
| `Savepoints.Use` | crates/ownpg-core/src/engine.rs:1310-1377 | Over every sequence of savepoints, rollbacks and statements the engine's list is the server's stack |
| `Commit.AskStatus` | crates/ownpg-core/src/engine.rs:2179-2186 | The server's word about a transaction that has ended is true |
| `Commit.LostCommitOutcome` | crates/ownpg-core/src/engine.rs:2163-2201 | At most ten questions; a named outcome is the right one |
| `Commit.CommitChecked` | crates/ownpg-core/src/engine.rs:2132-2161 | Wherever the connection drops: committed, never sent and rolled back are true when said, an aborted block is never called committed, and the block takes effect as a whole or not at all; on a live connection a block stays, aborted, exactly if it was aborted before or the check is refused |
| `Commit.FinishBlock` | crates/ownpg-core/src/engine.rs:2203-2240 | What the caller is told of a commit or rollback is true; every answer but success and unknown means that nothing was committed; no block stays open on a live connection, where a COMMIT succeeds exactly if the block was not aborted and neither check nor COMMIT fails |
| `Commit.RollBackQuietly` | crates/ownpg-core/src/engine.rs:2242-2249 | Nothing is committed, and no block stays open on a live connection |
| `Commit.SettleTransaction` | crates/ownpg-core/src/engine.rs:2397-2422 | The same for the block around a single statement, which commits only if the statement succeeded; nobody rolls back after a refused check: a live block stays, aborted, exactly if it was aborted before or the check is refused |
| `Backend.StuckStays` | crates/ownpg-core/src/engine.rs:2397-2412 | In a block that was left aborted no statement of the engine does anything, and BEGIN does not help |
| `SingleStatements.BeginBlock` | crates/ownpg-core/src/engine.rs:2047-2052 | Opens a block for writing exactly if none was left aborted and the settings are accepted; refused settings leave an aborted block |
| `SingleStatements.Autocommit` | crates/ownpg-core/src/engine.rs:2369-2395 | A statement takes effect as a whole or not at all, and a success means that it has; on a live connection it succeeds exactly if the statement, the settings, the check and the COMMIT do, and leaves an aborted block exactly if one was there, or the settings or the check are refused |
| `SingleStatements.RunThenRollback` | crates/ownpg-core/src/engine.rs:3032-3050 | A statement that is run for its plan commits nothing, and leaves an aborted block exactly if one was there or the settings are refused |
| `Lanes.Lane.BeginRead` | crates/ownpg-core/src/engine.rs:2721-2738 | The lane has a read transaction afterwards exactly if it had one, or no block was left aborted and the settings are accepted; refused settings leave an aborted block that the lane takes for absent |
| `Lanes.Lane.RollbackAll` | crates/ownpg-core/src/engine.rs:2751-2762 | Ends the read transaction and forgets every cursor |
| `Lanes.Lane.FinishIfIdle` | crates/ownpg-core/src/engine.rs:2764-2769 | Ends the read transaction exactly when no cursor needs it |
| `Lanes.Lane.CloseCursorNow` | crates/ownpg-core/src/engine.rs:2771-2783 | Closes one cursor and no other; a refused CLOSE aborts the read transaction and keeps the portal |
| `Lanes.Lane.SweepExpired` | crates/ownpg-core/src/engine.rs:2809-2822 | Closes the expired cursors and no others |
| `Lanes.Lane.Enter` | crates/ownpg-core/src/engine.rs:2642-2645 | The call's savepoint is set exactly if the read transaction is not aborted |
| `Lanes.Lane.SettleLane` | crates/ownpg-core/src/engine.rs:2325-2343 | After a call the read transaction is open exactly while cursors need it; they are all given up exactly if the call's error says the block is aborted |
| `Lanes.Lane.OpenPortal` | crates/ownpg-core/src/engine.rs:2662-2692 | Opens a portal and takes its first page; a failure leaves the other portals open |
| `Lanes.Lane.ReadThroughCursor` | crates/ownpg-core/src/engine.rs:2634-2715 | Keeps a cursor if rows are left, under its id and owner; otherwise the table is as before |
| `Lanes.Lane.ReadOnLane` | crates/ownpg-core/src/engine.rs:2551-2580 | The cursor table stays the server's open portals and within eight, unless the server has refused a statement of the engine's own; a read loses no other cursor, whether it succeeds or fails, unless its error is the one that says the block is aborted: then all are lost; without refusals it succeeds exactly if the statement does |
| `Lanes.Lane.FetchOnLane` | crates/ownpg-core/src/engine.rs:2582-2632 | A fetch never loses another cursor; its own is closed at its end and by an error, and kept otherwise |
| `Lanes.Lane.FetchGuarded` | crates/ownpg-core/src/engine.rs:2597-2610 | A fetch beside other cursors runs under a savepoint, and its failure leaves every portal open |
| `Lanes.Lane.CatalogOnLane` | crates/ownpg-core/src/engine.rs:2298-2319 | A catalog query keeps the cursors that have not expired, with the same exception |
| `Lanes.Lane.CopyOutOnLane` | crates/ownpg-core/src/engine.rs:2475-2515 | A COPY to the client keeps the cursors that have not expired, with the same exception |
| `Lanes.RemovePortal` | crates/ownpg-core/src/engine.rs:2771-2783 | Removing a cursor removes exactly its portal |
| `Lanes.AddPortal` | crates/ownpg-core/src/engine.rs:2662-2706 | Adding a cursor adds exactly its portal |
| `Engine.SingleEngine.ExpireWriteHandle` | crates/ownpg-core/src/engine.rs:1085-1110 | A handle that is due is rolled back and noted as expired, before anything else happens |
| `Engine.SingleEngine.EnsureAlive` | crates/ownpg-core/src/engine.rs:1066-1083 | A lost connection is replaced, and its handle noted as lost; a live one stays as it is |
| `Engine.SingleEngine.ReadHold` | crates/ownpg-core/src/engine.rs:958-975 | A read never gets the lane that holds a handle |
| `Engine.SingleEngine.RunRead` | crates/ownpg-core/src/engine.rs:985-1010 | Reads commit nothing, and no cursor is lost on either lane but the expired ones, unless the read's own error says the block is aborted |
| `Engine.SingleEngine.Fetch` | crates/ownpg-core/src/engine.rs:1012-1049 | Only the owner of a cursor fetches from it, on whichever lane it is, and no other cursor is lost but the expired ones |
| `Engine.SingleEngine.FetchIfThere` | crates/ownpg-core/src/engine.rs:1014-1031 | A lane is swept, then the cursor fetched from if it is there: no other cursor is lost |
| `Engine.SingleEngine.ReadOn` | crates/ownpg-core/src/engine.rs:985-993 | A read on a lane loses no cursor but the expired ones, unless its own error says the block is aborted |
| `Engine.SingleEngine.FindHandle` | crates/ownpg-core/src/engine.rs:1112-1135 | A call on a handle goes on exactly when the handle is open, the caller's and not due |
| `Engine.SingleEngine.BeginTransaction` | crates/ownpg-core/src/engine.rs:1151-1189 | A handle is opened, on a connection that stays and without another handle, exactly when no cursor is left on it; its block is new, empty and its own |
| `Engine.SingleEngine.FinishTransaction` | crates/ownpg-core/src/engine.rs:1253-1308 | A success means that all of the handle's work is committed, or for a rollback none; every other answer but unknown means that nothing is; the caller's handle is gone in every case, and on a connection that stays it succeeds unless the block is aborted or the COMMIT fails |
| `Engine.SingleEngine.EndHandle` | crates/ownpg-core/src/engine.rs:1264-1303 | What is noted of an ended handle is true, but for a rollback noted while the outcome is unknown and the client not yet seen to be closed |
| `Engine.SingleEngine.TransactionStatus` | crates/ownpg-core/src/engine.rs:1206-1234 | A handle is told to be open only to its owner; a handle that is due is rolled back first and one whose connection is seen closed is lost; otherwise the state that was noted is told |
| `Engine.SingleEngine.MakeSavepoint` | crates/ownpg-core/src/engine.rs:1310-1342 | In the open handle of the caller only, and there exactly when its block is not aborted |
| `Engine.SingleEngine.RollBackTo` | crates/ownpg-core/src/engine.rs:1344-1377 | In the open handle of the caller only, and there exactly for a savepoint the engine knows |
| `Engine.SingleEngine.RunInHandle` | crates/ownpg-core/src/engine.rs:1422-1477 | A write in a handle commits nothing; it succeeds exactly if the statement does and the caller's handle is not in an aborted block, takes effect in the handle's own block, and leaves the block as it was if it fails |
| `Engine.SingleEngine.RunWrite` | crates/ownpg-core/src/engine.rs:1493-1545 | A write without a handle never runs while a handle is open, and loses no cursor but the expired ones; a success means it is committed, and with settings to send any answer but unknown that it is not |
| `Engine.SingleEngine.FreeWriteHold` | crates/ownpg-core/src/engine.rs:1493-1532 | It gets a lane without cursors or a read transaction: the first unless one is open there |
| `Engine.SingleEngine.RunAndRollback` | crates/ownpg-core/src/engine.rs:1610-1655 | An EXPLAIN ANALYZE never runs while a handle is open, and commits nothing |
| `Engine.SingleEngine.CopyIn` | crates/ownpg-core/src/engine.rs:1547-1599 | A COPY from the client runs in the caller's own handle, or without one while none is open |
| `Engine.SingleEngine.Sweep` | crates/ownpg-core/src/engine.rs:802-841 | The sweep ends what is due and keeps the invariant |
| `Engine.SingleEngine.ReleaseEverything` | crates/ownpg-core/src/engine.rs:1657-1695 | Shutdown leaves no handle and no cursor, and no block but one that was left aborted |
| `Engine.Perform` | crates/ownpg-core/src/engine.rs:985-1717 | Each call keeps the invariant that ties handle, lanes, cursors, savepoints and the server's state together, whatever the server refuses and wherever connections drop |
| `Engine.Run` | crates/ownpg-core/src/engine.rs:917-1655 | Over every run of calls, on every connection there ever was, a handle's statements go only into its own writable block and every other statement outside it; while a handle is open its lane has no cursor and no read transaction; without one the lane's table is the server's open portals and its record of the read transaction is right, except in an aborted block, which there is only after a refusal; and a block that was left aborted stays exactly as it was left while its connection lives |
| `Paging.CutCell` | crates/ownpg-core/src/shape.rs:482-495 | The cleaned text of a cell, and whether it had to be cut |
| `Paging.CleanCells` | crates/ownpg-core/src/shape.rs:352-389 | The cells of a row cleaned one by one, with the number cut |
| `Paging.Collector.Offer` | crates/ownpg-core/src/shape.rs:356-389 | A row is taken whole or given back untouched with the cap that refused it; the first row is always taken |
| `Paging.PageIsLongest` | crates/ownpg-core/src/shape.rs:356-389 | A page fits its caps and no longer page does; it makes progress exactly when a row is allowed at all |
| `Paging.PageFromIsLongest` | crates/ownpg-core/src/shape.rs:356-389 | Growing a page row by row finds a page at least as long as any that fits |
| `Paging.FillPending` | crates/ownpg-core/src/engine.rs:3059-3078 | The look-ahead buffer gets a row more than the page may take, or all that are left |
| `Paging.TakeRows` | crates/ownpg-core/src/engine.rs:3079-3088 | The buffered rows are offered in order; every row that is not taken stays, in order |
| `Paging.PageFromCursor` | crates/ownpg-core/src/engine.rs:3052-3091 | A page is the longest its caps allow, and says "more" exactly when a row is left in the buffer or at the server |
| `Paging.PagingLosesNothing` | crates/ownpg-core/src/engine.rs:2582-2632 | For every sequence of caps of at least one row: the pages are the cleaned pieces of one prefix of the result, none empty, "more" is true exactly when rows are left, and enough calls deliver all |
| `Paging.ReadPages` | crates/ownpg-core/src/engine.rs:3052-3091 | Calling for pages with a sequence of caps, through the cursor and the look-ahead buffer, returns exactly the pages of the query, or the first of them if the connection fails |
| `Paging.ChunksMakeOnePrefix` | crates/ownpg-core/src/engine.rs:3052-3091 | The pieces of the pages are one prefix of the result, in order |
| `Paging.EnoughCallsDeliverAll` | crates/ownpg-core/src/engine.rs:3052-3091 | As many calls as rows deliver every row |
| `Paging.NoProgressWithoutARow` | crates/ownpg-core/src/engine.rs:3052-3091 | With a row cap of zero a call delivers nothing and still says "more" |
| `AuditLog.FileIsItsLines` | crates/ownpg-core/src/audit.rs:870-883 | A file is its lines, each with its newline, and what is torn |
| `AuditLog.ReadLine` | crates/ownpg-core/src/audit.rs:871-883 | Reads up to and including the next newline, and says whether there was one |
| `AuditLog.VerifyChain` | crates/ownpg-core/src/audit.rs:863-934 | The verifier's loop answers what the fold over the lines answers, for every file, torn ones too |
| `AuditLog.FirstFaultStays` | crates/ownpg-core/src/audit.rs:863-934 | The first fault is the answer, whatever follows it |
| `AuditLog.LastLineDeterminesFile` | crates/ownpg-core/src/audit.rs:863-934 | Under a collision-free hash two accepted files with the same last line are equal byte for byte |
| `AuditLog.SameEnd` | crates/ownpg-core/src/audit.rs:863-934 | Two chains that end in the same line are the same chain |
| `AuditLog.TamperingIsRejected` | crates/ownpg-core/src/audit.rs:863-934 | Any other file that keeps the last line of an accepted one is rejected |
| `AuditLog.CutBackFileIsAcceptedExactlyWhen` | crates/ownpg-core/src/audit.rs:863-934 | What the chain does not show: an accepted file that is cut back is accepted if and only if it ends with a whole line |
| `AuditLog.VerifyCountsEntries` | crates/ownpg-core/src/audit.rs:863-934 | The verifier's count is the number of lines that are no markers |
| `AuditLog.AppendedLine` | crates/ownpg-core/src/audit.rs:815-831 | A verified file with one more line verifies exactly when the line links to the one before it |
| `AuditLog.RecoveryFindsLastLine` | crates/ownpg-core/src/audit.rs:789-813 | Recovery finds the last line of an untorn file if and only if the line and its newline fit the 65,536-byte window |
| `AuditLog.RecoveryFindsTornLine` | crates/ownpg-core/src/audit.rs:789-813 | It finds a torn line if and only if that fits the window |
| `AuditWriter.LinkedLine` | crates/ownpg-core/src/audit.rs:815-831 | A line that links to the last one keeps the chain, and counts exactly if it is an entry |
| `AuditWriter.OpenedVerifies` | crates/ownpg-core/src/audit.rs:729-787 | A file opened over an empty or verified one verifies, with the same entries |
| `AuditWriter.OpenedVerifiesExactlyWhen` | crates/ownpg-core/src/audit.rs:789-813 | Over a verified file that is not empty the chain goes on if and only if the last line fits the window |
| `AuditWriter.CrashedWriteVerifiesExactlyWhen` | crates/ownpg-core/src/audit.rs:789-831 | After a crash within the writing of a line the recovered file verifies if and only if the whole line had been written and only its newline had not |
| `AuditWriter.TornFileVerifiesExactlyWhen` | crates/ownpg-core/src/audit.rs:789-813 | Whatever was torn: the recovered file verifies if and only if the verifier takes it for the next line |
| `AuditWriter.PartialLineBreaksTheChain` | crates/ownpg-core/src/audit.rs:815-831 | If part of a failed line were not cut back, the next line would be refused |
| `AuditWriter.OpenLog.WriteLine` | crates/ownpg-core/src/audit.rs:815-831 | A line is appended whole and the link moved on, or the file is as before |
| `AuditWriter.RecoverTail` | crates/ownpg-core/src/audit.rs:789-813 | Ends a torn line, and gives the length and the hash of the last line |
| `AuditWriter.OpenFile` | crates/ownpg-core/src/audit.rs:729-787 | Opens or creates the file, mends it and writes the chain-start marker; a failure adds no marker |
| `AuditWriter.ChainAppends` | crates/ownpg-core/src/audit.rs:815-831 | The law the sink relies on for appending a line |
| `AuditWriter.ChainStarts` | crates/ownpg-core/src/audit.rs:729-787 | The law for a start over an empty or verified file |
| `AuditWriter.ChainReopens` | crates/ownpg-core/src/audit.rs:532-568 | The law for going over to another file, new or found, and for a failed try |
| `AuditWriter.FreeName` | crates/ownpg-core/src/audit.rs:833-850 | The name a rotated file gets is that of no other file |
| `AuditWriter.Sink.WriteMarker` | crates/ownpg-core/src/audit.rs:815-831 | A marker links to the last line and adds no entry |
| `AuditWriter.Sink.WriteEntry` | crates/ownpg-core/src/audit.rs:497-512 | An entry is recorded once, or not at all |
| `AuditWriter.Sink.CloseGap` | crates/ownpg-core/src/audit.rs:514-530 | A gap marker reports exactly the losses that were unreported |
| `AuditWriter.Sink.Rotate` | crates/ownpg-core/src/audit.rs:833-861 | The full file is moved aside unchanged |
| `AuditWriter.Sink.Prune` | crates/ownpg-core/src/audit.rs:570-650 | Exactly the closed files that are too old or too many are removed, but for those that cannot be; the file in use and all others stay |
| `Pruning.RemoveDue` | crates/ownpg-core/src/audit.rs:611-632 | The loop tries exactly the files that are due |
| `Pruning.WhatStaysIsWithinLimits` | crates/ownpg-core/src/audit.rs:597-617 | No more files stay than the limit allows, and none that is too old |
| `Pruning.NewestStay` | crates/ownpg-core/src/audit.rs:592-617 | With a file all newer ones stay |
| `AuditWriter.Sink.Reopen` | crates/ownpg-core/src/audit.rs:532-568 | The new file's first line links to the last line of the file before it |
| `AuditWriter.Sink.FollowPath` | crates/ownpg-core/src/audit.rs:532-552 | A moved or removed file is replaced |
| `AuditWriter.Sink.KeepCurrent` | crates/ownpg-core/src/audit.rs:532-568 | Afterwards the file in use is the one at the path, unless a rotation could not be completed |
| `AuditWriter.Sink.Record` | crates/ownpg-core/src/audit.rs:408-411 | A success adds exactly this entry to the current file and leaves no loss unreported; a failure is counted, and no file gains or loses an entry |
| `AuditWriter.Sink.Admit` | crates/ownpg-core/src/audit.rs:413-432 | A call that the policy may refuse is admitted only once every loss is in a gap marker, and refused only while one is not |
| `AuditWriter.StartSink` | crates/ownpg-core/src/audit.rs:324-350 | A start over an empty or verified file keeps the sink's invariant |
| `AuditWriter.Run` | crates/ownpg-core/src/audit.rs:485-568 | Over every run of records, questions, failed writes, rotations, files moved, replaced and put back, and restarts: the current file verifies, its count is the number of entries recorded in it, every new file links to the one before, and every loss is reported or waiting to be |
| `AuditWriter.RunWithHistory` | crates/ownpg-core/src/audit.rs:485-568 | Across restarts too every new file links to the one before, and every loss of an ended sink is in a gap marker or was forgotten in a restart |
| `LossAccounting.LossesAreAccounted` | crates/ownpg-core/src/audit.rs:408-530 | In every interleaving failed records are those in gap markers and those unreported, less what is just between marker and subtraction; the subtraction never wraps |
| `LossAccounting.QuietLosses` | crates/ownpg-core/src/audit.rs:514-530 | With no thread in between, failed records equal reported and unreported ones |
| `LossAccounting.EveryRunGoesBack` | crates/ownpg-core/src/audit.rs:471-530 | Which turns of a run the count and the flag go back to |
| `LossAccounting.DegradedUnlessOverlapped` | crates/ownpg-core/src/audit.rs:471-530 | Degraded holds exactly while losses are unreported, in every run in which no failure is noted across the closing of a gap, sequential ones above all |
| `LossAccounting.DegradedExactlyWhenUnreported` | crates/ownpg-core/src/audit.rs:471-530 | In every interleaving it does if and only if these agree: a loss was counted since the last closed gap had read the count, and the flag was set since it was last cleared |
| `LossAccounting.FlagCanBeLost` | crates/ownpg-core/src/audit.rs:514-530 | A run of two threads that ends with an unreported loss and the flag clear |
| `LossAccounting.FlagCanBeSetForNothing` | crates/ownpg-core/src/audit.rs:471-476 | A run that ends with the flag set and nothing unreported |
| `Classifier.Walk` | crates/ownpg-core/src/classify.rs:818-1010 | The walk adds exactly what the definition by cases finds, in its order |
| `Classifier.PlaceIsFound` | crates/ownpg-core/src/classify.rs:818-1010 | What is at a place the walk comes to, at any depth, is found |
| `Classifier.FoundHasPlace` | crates/ownpg-core/src/classify.rs:818-1010 | And whatever is found is at such a place |
| `Authorization.Classify` | crates/ownpg-core/src/classify.rs:239-384 | The classification computed step by step is the one by definition |
| `Authorization.JudgeFunctions` | crates/ownpg-core/src/classify.rs:324-343 | The strongest class and the refusals that the called functions give |
| `Authorization.AuthorizedExactlyWhenFound` | crates/ownpg-core/src/classify.rs:386-445 | A statement that is run passes read-only mode if and only if all that the walk finds is allowed, it takes no row locks, its cascade is checked and what an EXPLAIN ANALYZE runs is a read |
| `Authorization.AuthorizedExactlyWhen` | crates/ownpg-core/src/classify.rs:386-445 | The same if and only if, over every place of the parse tree outside SET and RESET clauses |
| `Authorization.CleanExactlyWhen` | crates/ownpg-core/src/classify.rs:239-384 | Nothing is refused and the class is a read exactly when every kind is a read, every function harmless and every COPY goes to the client |
| `ReadOnlyGate.AuthorizedOnlyReads` | crates/ownpg-core/src/classify.rs:664-776 | Such a statement holds no statement but reads, no SELECT INTO, no COPY from or to a file or program, and no call of a listed function, at any depth |
| `ReadOnlyGate.AuthorizedStaysInScope` | crates/ownpg-core/src/classify.rs:821-828 | Every range variable's schema is empty, the served one or a catalog |
| `ReadOnlyGate.AuthorizedTakesNoRowLocks` | crates/ownpg-core/src/classify.rs:630-638 | No locking clause anywhere in it |
| `ReadOnlyGate.CallIsAllowed` | crates/ownpg-core/src/classify.rs:1027-1050 | A call of a harmless function by a name without dots is in the served schema or a catalog |
| `StatementLists.CodeListsFit` | crates/ownpg-core/src/classify.rs:90-151 | The lists of the code have what the gate needs: no function name with a dot, and CREATE TABLE AS no read |
| `DottedNames.SplitQualifiedExactlyWhen` | crates/ownpg-core/src/classify.rs:1018-1050 | Joining name parts and splitting again gives back schema and name if and only if neither holds a dot |
| `DottedNames.DottedNameHidesSchema` | crates/ownpg-core/src/classify.rs:1045-1050 | A dot in a function's own name hides its schema from the scope test |
| `DottedNames.LastOfJoined` | crates/ownpg-core/src/classify.rs:1018-1025 | The last piece of joined parts is the last one of the last part, dots or not |
| `EveryRow.ConstantOnAllRows` | crates/ownpg-core/src/classify.rs:1121-1140 | Under three-valued semantics a constant expression is worth the same on all rows |
| `EveryRow.FlaggedClauseIsTrue` | crates/ownpg-core/src/classify.rs:1071-1101 | A clause flagged as matching every row is true on every row on which its constant parts are true and its self-compared columns are not null |
| `EveryRow.FlaggedStatementKeepsRow` | crates/ownpg-core/src/classify.rs:1052-1057 | A statement flagged for its WHERE clause keeps every such row |
| `EveryRow.FlaggedOperatorIsTrueExactlyWhen` | crates/ownpg-core/src/classify.rs:1071-1101 | A flagged comparison of a column with itself is true in every standard semantics, wherever the column is not null, if and only if its operator's name has a single part |
| `EveryRow.QualifiedOperatorIsFlagged` | crates/ownpg-core/src/classify.rs:1071-1101 | Only the first part of an operator's name is looked at: a clause with the operator "=".<> is flagged, and is worth what that operator makes of the column |
| `EveryRow.QualifiedOperatorCanBeFalse` | crates/ownpg-core/src/classify.rs:1071-1101 | A standard semantics in which that clause is false on every row |
| `JsonFidelity.FaithfulJson` | crates/ownpg-core/src/shape.rs:88-169 | The index and two stacks, updated in place, answer what the scan by definition answers |
| `JsonFidelity.SkipString` | crates/ownpg-core/src/shape.rs:128-137 | Stops after the quote that closes the string |
| `JsonFidelity.ScannerMatchesTree` | crates/ownpg-core/src/shape.rs:88-169 | For every valid JSON text, any white space and nesting, the scanner says yes if and only if in its tree every object's keys are decodable and pairwise distinct and every number survives |
| `JsonFidelity.WholeNumberSurvives` | crates/ownpg-core/src/shape.rs:79-86 | A whole number survives if and only if it fits a signed or an unsigned 64-bit integer |
| `JsonFidelity.StringOver` | crates/ownpg-core/src/shape.rs:127-153 | Every printed string is read to its own closing quote |
| `Calendar.ClosedFormIsRight` | crates/ownpg/build.rs:113-129 | For every integer day the closed form gives a valid proleptic Gregorian date whose day number is that day |
| `Calendar.EveryDateIsReached` | crates/ownpg/build.rs:113-129 | It is also the inverse the other way round, so a bijection between days and valid dates |
| `Calendar.DaysFollowTheCalendar` | crates/ownpg/build.rs:113-129 | Day n+1 is the calendar's successor of day n, and day 0 is 1970-01-01 |
| `Calendar.SumIsStrictlyIncreasing` | crates/ownpg/build.rs:113-129 | The usual sum of days orders the dates |
| `Calendar.YearOfEraIsRight` | crates/ownpg/build.rs:113-129 | The closed form picks the March-based year that contains the day |
| `KeyValues.ParseKeyValues` | crates/ownpg-core/src/config/libpq.rs:364-431 | The reader's loops over the text, quotes and backslashes answer what the definition answers, faults included |
| `KeyValues.ParseUndoesPrint` | crates/ownpg-core/src/config/libpq.rs:364-431 | Reading printed pairs returns the pairs, the last one winning, whatever white space surrounds them and however each value is quoted |
| `KeyValues.ReadQuoted` | crates/ownpg-core/src/config/libpq.rs:395-407 | A quoted value, or the fault of a quote that is not closed |
| `KeyValues.ValueAtOver` | crates/ownpg-core/src/config/libpq.rs:391-424 | A printed value is read whole, and reading stops right after it |
| `ConnUri.PercentDecode` | crates/ownpg-core/src/config/libpq.rs:433-457 | The decoder's loop answers what the definition answers |
| `ConnUri.DecodeUndoesEncode` | crates/ownpg-core/src/config/libpq.rs:433-457 | Decoding undoes percent encoding, whichever bytes are escaped and whichever case the digits have |
| `ConnUri.DecodedExactlyWhen` | crates/ownpg-core/src/config/libpq.rs:433-457 | A text is decoded if and only if every escape is two hex digits, or a plus sign and one, and the bytes it stands for are well-formed UTF-8; then it is decoded to these |
| `ConnUri.AcceptedEscapes` | crates/ownpg-core/src/config/libpq.rs:437-446 | Texts of two-digit escapes are all unescaped, and of the texts that are unescaped those without a plus escape are of this kind |
| `ConnUri.PlusEscapeIsAccepted` | crates/ownpg-core/src/config/libpq.rs:440-446 | "%+5" is read as the byte 5 |
| `ConnUri.ParseUri` | crates/ownpg-core/src/config/libpq.rs:298-362 | The parser's steps answer what the definition answers, faults included |
| `ConnUri.ParseUndoesPrintUri` | crates/ownpg-core/src/config/libpq.rs:298-362 | Reading a printed URI returns its user, password, host, port, database name and parameters |
| `PasswordFile.SplitPasswordLine` | crates/ownpg-core/src/config/libpq.rs:588-607 | The splitting loop answers what the definition answers |
| `PasswordFile.SplitUndoesEntryText` | crates/ownpg-core/src/config/libpq.rs:588-607 | Splitting a printed line returns its four fields and the password, even where the password's colons are bare |
| `PasswordFile.PasswordFromLines` | crates/ownpg-core/src/config/libpq.rs:535-586 | The first line that answers wins, and none is passed over |
| `PasswordFile.EntryAnswers` | crates/ownpg-core/src/config/libpq.rs:535-586 | A printed entry answers exactly the questions its fields match, with its password; an escaped star matches everything too |
| `Printers.SplitQualified` | crates/ownpg-core/src/render.rs:346-356 | The parts before and after the first dot outside quotes |
| `Printers.SplitName` | crates/ownpg-core/src/render.rs:327-344 | Schema and name, the scoped schema where none is given |
| `Printers.SplitNameUndoesSql` | crates/ownpg-core/src/render.rs:67-70 | A printed qualified name splits back into its schema and name, for all strings |
| `Printers.SplitNameUndoesQuoteIdent` | crates/ownpg-core/src/render.rs:31-34 | A single quoted identifier is read as a bare name |
| `Printers.LexUndoesQuoteLiteral` | crates/ownpg-core/src/render.rs:36-43 | PostgreSQL's lexer reads a printed literal back as exactly its text and stops there, if and only if the statement does not go on with a quote that reopens the constant, over white space and comments with a line break |
| `Printers.CommentContinues` | crates/ownpg-core/src/render.rs:36-43 | A comment, a line break and a quote reopen a constant; a comment alone does not |
| `Printers.EscapeCell` | crates/ownpg-core/src/shape.rs:437-449 | The escaping loop answers what the definition answers |
| `Printers.RenderRows` | crates/ownpg-core/src/shape.rs:266-277 | The loop over the rows prints each row on its line |
| `Printers.ReadRowUndoesRowLine` | crates/ownpg-core/src/shape.rs:266-277 | A row reads back as itself if and only if it has a column |
| `Printers.ReadLinesUndoRowLines` | crates/ownpg-core/src/shape.rs:266-277 | Rendered rows parse back to the same cells: no cell can forge a null, a cell or a row |

## Left out

- Guard.GuardedStatement: BEGIN, SAVEPOINT, RELEASE, ROLLBACK and ROLLBACK TO a savepoint that exists are taken never to
  be refused outside an aborted block: they are carried out, or the connection is lost. A request to cancel that hits one
  of these is not modelled. The statements that may be refused are the users' own, DECLARE, FETCH, CLOSE, the settings
  after a BEGIN, the check before a COMMIT, and COMMIT.
- Commit.AskStatus: that the server's word about a transaction that has ended is true is taken from PostgreSQL.
- ConnUri.ParseUri: ends with the table of names and values; turning it into settings (`LibpqLayer::from_pairs`) is field
  picking. `KeyValues.ParseKeyValues` ends there too.
- AuditWriter.OpenFile: the file's permissions and the directory's, and the times and process numbers in its lines; the
  lock is a choice, but fails on the file this process holds.
- AuditWriter.Sink.Prune: the listing is given, sorted by time, with names of the same log; reading the directory and
  telling the files of other logs by their names are left out.
- AuditWriter.Run: the files found at the path are empty or verified with a last line inside the window;
  OpenedVerifiesExactlyWhen and TornFileVerifiesExactlyWhen say what happens otherwise. A failed write is cut back.
- EveryRow.FlaggedClauseIsTrue: says when a whole clause is true, not when it is not; the exact condition is given for a
  comparison of a column with itself.
- ReadOnlyGate.AuthorizedOnlyReads: says nothing of a plain EXPLAIN, which does not run its statement.
- EveryRow.FlaggedStatementKeepsRow: MERGE, whose join condition is judged by the same two functions, has no lemma of its own.
- Authorization.Classify: leaves out the reason a statement counts as destructive, RETURNING, whether it runs outside a
  transaction, the names of cascade targets, and the fingerprint, hash and normalized text of the statement.
- Printers.RenderRows: the header and footer of the rendered table.
- Calls interrupted between two awaits, the async runtime and wall clocks: a step is atomic between locks, and what is
  due or expired is chosen freely, as are lost connections and failures of the file system.
- Statement timeouts and the backend process number, sent around a call's statement, and its cancellation.
- In pooled mode, the savepoint lists, which are those of one connection, and reads with their pinned lanes.
  In single-connection mode, the lane for progress rows.
- The parser, JSON reader and printer, hash, float reader, grapheme segmentation and tables of invisible characters are
  parameters with only the facts used: the hash has no collisions and is never empty, a printed line holds no newline,
  reads back, and has no proper beginning that is JSON text; cutting keeps whole graphemes.
- A disabled audit sink, poisoned locks, and the warning text of a failing log.
- The generated SQL of tools, the TLS, SSH and HTTP layers, layered settings, and everything else that mostly picks
  fields.
