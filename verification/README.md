# The sync protocol of nefix, and four smaller algorithms, in Dafny

nefix keeps notes on several devices of one user and on one server. Every row
(class, notebook, note, deadline) lives in a table of each device and in a table
of the server; devices push what the user changed and pull what others pushed.
This project models that protocol and proves what it promises over whole runs.
Beside it stand the formula scanner of the editor, the id minter, the login rate
limiter and the page order of collegebooks.

`dafny verify dfyconfig.toml` checks everything.

## How the project is laid out

| file | what it holds |
|---|---|
| `Common.dfy`, `Rows.dfy` | shared helpers; tables, keys, rows, fields |
| `Server.dfy` | an upsert and a whole push as functions on the database, and what they keep |
| `Paging.dfy` | the page of a pull: specification on whole tables, the handler's merge of four truncated reads, torn reads |
| `Validation.dfy` | what the server asks of a row before it writes anything; which ids and which forks pass |
| `Store.dfy` | class `Store`: counter, upserts, push and pull handlers that change the tables in place |
| `Device.dfy` | what a result and a page do to a device's tables, as functions |
| `Pushing.dfy` | batches, requests, what becomes of each pushed row, what the counts say |
| `Pulling.dfy` | what a pull makes of the rows ahead, and which of them the device takes |
| `Interleaved.dfy` | a pull with pushes landing between its pages: what it cannot miss, and what it comes to while the user's rows stand still |
| `Cycles.dfy` | what a cycle of push and pull leaves, and when its counts and its tables disagree |
| `Replica.dfy` | class `Replica`: local edits, `PushDirtyRows`, `PullRemoteChanges`, `Sync` |
| `Protocol.dfy` | the transition system: one user, any number of devices, other users, a network that loses and delays |
| `Invariant.dfy` | what holds in every reachable state |
| `Runs.dfy` | each piece of a push and a pull as a sequence of the device's own steps, and what follows of a whole cycle |
| `Safety.dfy` | cursor soundness, no blind overwrite, note text conserved, and why the hypotheses are needed |
| `Delivery.dfy` | what pages deliver over a run |
| `Convergence.dfy` | two pushes settle a device, pulls catch up, replicas agree |
| `FindMath.dfy` | the formula scanner against a unique tiling of the text |
| `Uuid.dfy` | ids in the layout of section 5.7 of RFC 9562, with the counter of section 6.2, method 1 |
| `RateLimit.dfy` | the token bucket and its sweeper |
| `PageOrder.dfy` | midpoint insertion of pages |

The functions of `Server.dfy`, `Paging.dfy` and `Device.dfy` serve twice: the
methods of `Store` and `Replica` are proved to compute them, and the steps of
the transition system are made of them. Beyond that the contracts of
`PushDirtyRows`, `PullRemoteChanges` and `Sync` say (`Simulates`) that, with no
push of another device in between, whatever they do, on success and on every kind
of failure, is a stretch of a run of the transition system whose steps are the
device's own: nobody types in it and no other device moves.
`Runs.SimulatedIsSound` joins it to any run before it, so that the theorems about
runs speak of it, and draws two conclusions.

A step of the transition system is a local edit, the reading of dirty rows into a
push, the server handling one pushed row, the device applying one result, a push
given up (its unanswered rows stay in the network and may be handled later, any
number of times), a page read on the server, a page applied, a page lost, or any
push of another account. Steps of different devices interleave freely.

## Hypotheses

The code does not establish these; each is stated where it is used.

- **An edit has a fresh stamp.** While a copy of a row is under way, an edit of
  the row carries another `updatedAt` than the copy (`FreshStamp`). The guard in
  `web/src/sync/push.ts:209` compares stamps, and two writes of one millisecond
  have the same one. `Safety.EditInFlight` proves that the row stays dirty
  exactly when the stamps differ.
- **One cycle at a time on a device.** A page is asked for only while no push of
  that device is under way; the guards are variables of one tab.
  `Safety.OverlapGoesBackwards` shows a row taken back to an older version
  without it.
- **The four reads of a pull see one state.** They are four statements outside
  any transaction (`server/internal/http/sync.go:754-773`).
  `Paging.TornPullIsPage` and `Paging.TornPullComplete` prove what a torn pull
  answers and exactly when that is complete, and `Store.TornPullSkipsRow` gives
  two pushes between the reads for which every answer passes a row.
- **A new id is new.** The id of a created row and of a fork differs from all ids
  the user's devices have made; for convergence, the id of a fork also differs
  from those other accounts have on the server. The code has random bits for
  this and no check.
- **A local write names its kind.** Every row this client creates or edits has a
  kind where its table has one, so the server stores its fields as they came.
- **For convergence only:** nobody edits on the device meanwhile, none of its
  requests is lost or refused, and no other account takes an id of the user's
  during the run. Other devices of the user may push during the two pushes.
  While the pages are pulled the user's rows stand still on the server
  (`Convergence.Converges`, `ConvergesInPulls`), other accounts' may change; or
  they do not, and `Convergence.ConvergesDespitePushes` says how many pages more
  the rows pushed meanwhile take, the last of them after the last push. That no
  row of the device bears an id another account already holds is no hypothesis:
  the device converges exactly when it is so. That no request is refused is one
  the code does not establish, because a fork's title may exceed what the server
  takes (`Validation.ForksFit`), and one such row stops every push
  (`Pushing.InvalidRowBlocks`) and with it every pull. Batches are cut by count,
  never by bytes, which is outside the model.
- **A push request names the server's clock once.** All rows of one request get
  the same `updated_at`; stamps are compared for equality only.
- **The clock of the limiter never runs back**, and `idle * rate >= burst`, which
  holds of the login limiter (`RateLimit.LoginIsSane`).

## Where the code and its comments differ

The model follows the code.

- `web/src/sync/index.ts:26-30` says that pulling first would lose unpushed edits.
  The page skips dirty rows (`web/src/sync/pull.ts:66`), and conservation of note
  text is proved here for any order of pushes and pulls.
- `web/src/sync/pull.ts:63-65` says that a row still dirty at a pull was edited
  during the run. It may also be a fork of this very cycle or a row the server
  refuses: `Cycles.CycleEnds` proves that it can be nothing else when no edit
  came in between.
- `web/src/sync/state.ts:33-36` calls `changed` whether anything moved, and
  `web/src/App.tsx:395` refreshes on it. When a response of the pull is lost after
  the first, the pages before it stay applied but the counts of the pull stay
  zero (`web/src/sync/index.ts:38-53`), so `changed` can be false over changed
  tables. It can also be true over unchanged ones: the pull counts every row that
  is not dirty on the device (`web/src/sync/pull.ts:52-53`), one the device holds
  already included, such as the server's copy that a conflict put there before
  the cursor passed it. `Cycles.CycleShows` says exactly when either happens, from
  what the cycle starts with, for a cycle during which nothing is typed and no
  other device of the user pushes; `Cycles.LostResponseHidesAPage` and
  `Cycles.ConflictIsCountedAgain` give such starts.
- `web/src/sync/push.ts:222` appends a marker to a title of any length, while
  `docs/API.md:406-407` takes a refusal for a bug of the client that splitting the
  batch will not mend; nothing in the client mends it.
- `web/src/features/notes/math.ts:52-53` reads as if no inline formula crossed a
  line. A backslash before the line end takes the line end with it:
  `FindMath.EscapedLineEndIsCrossed`, with the exact shape in
  `FindMath.InlineContent`.
- `docs/API.md:61-62` limits the login to ten requests a minute. A window of one
  minute admits twenty: `RateLimit.LoginAdmitsTwentyInAMinute`, which
  `RateLimit.WindowBound` proves to be the most.
- A conflict does not mean that another device wrote the row: a lost answer makes
  the retry conflict with the device's own write
  (`Safety.RetryConflictsWithItself`).
- `web/src/db/notes.ts:144-146` speaks of a pull by `updatedAt`; the pull goes by
  the server's seq.

## Model

| member | source | states |
|---|---|---|
| `Server.UpsertKeepsFields` | server/internal/store/notebooks.go:80-142 | What one upsert decides and writes: another account's row is forbidden, another version a conflict with the row as it is, and either changes nothing; anything else is written with every field as it came, but for a kind that a notebook or deadline lacks, under the next version, the next seq and the time of the push |
| `Server.UpsertKeepsSeqs` | server/internal/store/notes.go:111-188 | One upsert keeps a user's seqs distinct, within 1..last_seq and the counter at the top one; no row vanishes or changes hands, and a changed row has a higher version and a seq not used before |
| `Server.PushKeepsSeqs` | server/internal/store/classes.go:94-150 | The same for a push of any rows to the four tables that share the counter, and so over every sequence of pushes |
| `Server.PushKeepsKinds` | server/internal/store/notebooks.go:104-111 | Whatever clients send, no notebook or deadline is ever stored without a kind |
| `Server.RepliesInSeqOrder` | server/internal/http/sync.go:631-706 | Replies come in the order of the rows, and accepted ones carry consecutive seqs in that order: nothing else takes a seq in between |
| `Server.AcceptedInDependencyOrder` | server/internal/http/sync.go:623-706 | Accepted rows of one request have seqs in the order class, notebook, note, deadline |
| `Server.IdsDoNotMeet` | server/internal/http/sync.go:620-706 | In any request, one that names an id twice included, the rows that name an id are answered, and leave it, as if the request had held nothing else; only seqs tell the difference |
| `Server.OtherPush` | server/internal/store/notes.go:137-147 | No push of one account, whatever it holds, touches a row of another account |
| `Store.Store.NextSeq` | server/internal/store/notes.go:111-124 | The new seq is one above the user's last and becomes the last; no other counter moves |
| `Store.Store.Upsert` | server/internal/store/notes.go:130-188 | Branch by branch in place, it leaves exactly the database and gives the outcome of the upsert that the lemmas above speak of; an accepted note has the title, text, deletion mark and other fields that were sent, a lost or conflicting one changes nothing; the other three tables follow the same code |
| `Store.Store.UpsertArray` | server/internal/http/sync.go:634-706 | One array's rows one by one after those before it; a database error at a row keeps the rows before it written |
| `Store.Store.ValidateArray` | server/internal/http/sync.go:583-618 | The loop over one array passes exactly when every row of it does |
| `Store.Store.Push` | server/internal/http/sync.go:553-709 | The request passes if and only if no array is over 100 rows and every row has an id of 36 characters with dashes and hexadecimal digits in their places, a title of at most 200, a kind its table knows or none, and other fields that pass; one that does not is refused whole and changes nothing; one that does is written row by row in dependency order; a database error leaves exactly the rows before it written and answers with none |
| `Store.Store.Since` | server/internal/store/notes.go:192-214 | A table's query gives its lowest rows above the position, in seq order, as many as the limit allows, and every row left out lies above the last one given |
| `Store.Store.Pull` | server/internal/http/sync.go:728-776 | With any pushes landing between its four statements: each array in its own table's seq order, no row twice, the page of the tables as each was read, complete if and only if every row written behind the read of its table has a whole page of read rows before it, or all of them; when none lands, the page of the whole untruncated tables; the limit is the one asked for, 100 if none is and 500 at most |
| `Paging.MergePage` | server/internal/http/sync.go:791-856 | The handler's loops compute the merge: all seqs sorted, cut at the limit, each table's rows up to the cursor |
| `Paging.TakeShare` | server/internal/http/sync.go:830-853 | The loop that stops at the first row above the cursor takes exactly the rows up to it |
| `Paging.ShareMeans` | server/internal/http/sync.go:830-853 | The share is the front of the list up to the first row above the cursor |
| `Paging.MergeIsPage` | server/internal/http/sync.go:752-856 | Four reads cut at one row past the limit, merged and cut again, are the page of the whole tables: exactly the `limit` lowest seqs of the stream, has_more exact, the cursor the last seq kept or the one that was sent |
| `Paging.MergeIsArranged` | server/internal/http/sync.go:828-853 | Every array of the answer holds rows of its own table in seq order |
| `Paging.PageUnique` | server/internal/http/sync.go:783-790 | The specification of a page leaves nothing open: there is only one |
| `Paging.PageExists` | server/internal/http/sync.go:783-790 | and there always is one |
| `Paging.PageShrinksRest` | server/internal/http/sync.go:783-826 | A page takes its rows off the front of the stream and leaves the rest; without has_more nothing is left; the cursor never falls and rises on a page that holds anything |
| `Paging.TornPullIsPage` | server/internal/http/sync.go:752-856 | When the four reads see four successive states, the answer is exactly the page of the database put together from the tables as each was read |
| `Paging.CursorStopsBefore` | server/internal/http/sync.go:783-826 | The cursor of a page stays below a seq if and only if as many rows as the limit lie before that seq, or all rows do |
| `Paging.TornPullComplete` | server/internal/http/sync.go:752-773 | Such an answer is complete up to its cursor if and only if every row written after its own table had been read took a seq with a whole page of read rows before it, or with no read row behind it |
| `Store.TornPullSkipsRow` | server/internal/http/sync.go:754-773 | A class pushed after the first read and a note after the second: every answer the handler can give passes the class without holding it |
| `Validation.MintedIdIsValid` | server/internal/http/sync.go:299-318 | Every id that the client's minter makes passes the server's test of ids |
| `Validation.PassesWhole` | server/internal/http/sync.go:580-618 | The size test and the four validation loops pass exactly the requests whose rows all pass, field by field |
| `Validation.ForksFit` | web/src/sync/push.ts:222 | A push of a note that passes, after n conflicts in a row and under any minted id, passes if and only if its title and n markers with their spaces fit in 200 characters; otherwise the whole request is refused |
| `Protocol.LostRowsArrive` | web/src/sync/api.ts:235-242 | A pushed row whose answer nobody waits for can be handled at any later time, and again |
| `Protocol.OthersMayPush` | server/internal/http/sync.go:553-709 | Any other account may push any row between any two steps |
| `Protocol.AnyStart` | web/src/sync/index.ts:18-45 | Any server without a row of the user, and any number of new devices, is where a run may start |
| `Invariant.StepKeepsInv` | web/src/sync/push.ts:196-330 | Every step of the protocol keeps the invariant: server rows, devices' rows, copies under way, answers not yet applied, pages not yet applied, late requests |
| `Invariant.RunKeepsInv` | web/src/sync/pull.ts:29-84 | The invariant holds in every state of every run |
| `Safety.CursorSound` | web/src/sync/pull.ts:31-37 | In every reachable state each of the user's rows at or below a device's cursor is on the device, dirty or with the server's current version and fields |
| `Safety.CleanRowsAreTheServers` | web/src/sync/push.ts:123-144 | A clean row shows, fields and all, a version the server has had; no row claims a version the server has not reached; at the server's version a clean row is the server's row |
| `Safety.NeverBackwards` | web/src/sync/pull.ts:86-113 | Over any stretch of a run a device's cursor and its version of each row only grow, and it forgets no row |
| `Safety.RunLater` | server/internal/store/notes.go:126-188 | Over any stretch of a run the server forgets no row and no version of one, and rows and versions only move forward |
| `Safety.SeenWasLearned` | web/src/sync/push.ts:200-210 | What a device knows of a version it was given by some earlier step: an answer, a conflict or a page |
| `Safety.CarriesAll` | web/src/sync/push.ts:214-235 | What it is for a note to carry a text: body, kind, deletion mark and other fields unchanged, and the title with at most something behind it |
| `Safety.NoBlindOverwrite` | server/internal/store/notes.go:137-172 | Whenever the server replaces version v of a row, the device whose write replaced it had been given exactly version v, fields and all, at an earlier step |
| `Safety.NoteTextMoves` | web/src/sync/push.ts:196-235 | One step and one dirty note: it stays dirty word for word, or the user edited it, or the server holds its text verbatim, or it moved whole into a fresh dirty fork |
| `Safety.StepKeepsText` | web/src/sync/pull.ts:61-73 | One step takes the text of a note from the note or fork that holds it to the fork it moves to, to the version in which the server takes it, or nowhere, unless the user types over that very note |
| `Safety.NoteTextConserved` | web/src/sync/push.ts:214-235 | Over any run, through conflicts, lost answers, late and repeated requests and edits in flight, the text of a dirty note can be followed: it is in that note or the last of its forks, still dirty, or in the version in which the server took it, until the user types over the note that holds it |
| `Safety.EditInFlight` | web/src/sync/push.ts:200-210 | An edit made while a copy is on its way keeps its text, takes the server's version, and stays dirty if and only if its stamp differs from the copy's |
| `Safety.RetryConflictsWithItself` | web/src/sync/api.ts:235-242 | A row accepted by the server whose answer was lost conflicts, when sent again, with exactly what the device itself had sent |
| `Safety.OverlapGoesBackwards` | web/src/sync/index.ts:6-10 | Without the cycle guard a page asked for during a push takes an accepted row back to an older version |
| `Delivery.PageWasAsked` | web/src/sync/pull.ts:94-96 | A page on its way was read at an earlier step from the cursor the device still has |
| `Delivery.DeliveryMovesCursor` | web/src/sync/pull.ts:80-108 | Applying a page moves the cursor to its end, strictly forward when it holds anything, and its rows lie strictly between |
| `Delivery.DeliveredOnce` | server/internal/store/notes.go:106-124 | No version of a row is delivered twice to a device, whatever is pushed between the pages |
| `Delivery.LastPageLeavesNothing` | web/src/sync/pull.ts:94-110 | Once a page without has_more is applied, every row the user had when it was read is on the device, dirty or as the server has it, unless it has changed since |
| `Convergence.FirstPushLeavesForks` | web/src/sync/push.ts:390-446 | After one push that gets through, a row of the user's own id is dirty only if it is a fork the server has never been sent |
| `Convergence.SecondPushLeavesNothing` | web/src/sync/push.ts:214-235 | A push of unsent rows, and of rows that are refused, leaves only the refused ones dirty |
| `Convergence.TwoPushesSettle` | web/src/sync/push.ts:390-446 | The rows dirty after two pushes are exactly those whose id another account held when the first began, whatever conflicts were met and whatever other devices do meanwhile |
| `Convergence.PushComesToAnEnd` | web/src/sync/push.ts:429-446 | The measure: a push of n rows is over after exactly 2n steps of its own, other devices' steps not counted |
| `Convergence.WorkIsEnabled` | web/src/sync/push.ts:443-445 | Until then some step of the push can be taken |
| `Convergence.PullIsEnabled` | web/src/sync/pull.ts:94-96 | In every reachable state an idle device can ask for a page and be answered, and a page on its way can be applied |
| `Convergence.ForeignRun` | web/src/sync/push.ts:343-349 | Over any run a row whose id another account holds stays such a row, and dirty |
| `Convergence.PullsCatchUp` | web/src/sync/pull.ts:94-110 | While the user's rows stand still on the server, whatever other accounts push, each page takes exactly its limit off the rows ahead, until there are none |
| `Convergence.PullRunShrinks` | web/src/sync/pull.ts:19-22 | A pull that gets through leaves nothing ahead or two thousand rows less |
| `Convergence.CleanAndCaughtUpAgrees` | web/src/sync/pull.ts:66-72 | A device with nothing dirty and nothing ahead of its cursor holds exactly the server's rows |
| `Convergence.Converges` | web/src/sync/pull.ts:86-113 | Two pushes, then as many pages as the rows ahead need while the user's rows stand still on the server: the device holds exactly the server's rows if and only if no row of its bore an id of another account |
| `Convergence.ConvergesInPulls` | web/src/sync/pull.ts:86-113 | The same counted in pulls: with k rows ahead, k/2000 rounded up |
| `Convergence.RemainingBound` | web/src/sync/pull.ts:94-110 | However pages and the pushes of other devices interleave, after p rows pushed and m pages read the rows left are at most p, or what was ahead and p less m pages |
| `Convergence.ConvergesDespitePushes` | web/src/sync/pull.ts:86-113 | If the user's other devices push p rows while k rows are pulled, pages for k + p rows suffice, of which pages for p rows after the last push: the device then agrees with the server under the same condition |
| `Convergence.ReplicasAgree` | web/src/sync/index.ts:18-45 | Two devices of the user that each pushed twice and caught up, in any interleaving, hold the same rows, versions and fields, unless one bore an id of another account |
| `Pushing.JoinedIsFront` | web/src/sync/push.ts:429-436 | The first n batches put together are the front of the array |
| `Pushing.BatchesCover` | web/src/sync/push.ts:425-436 | The batches of each array put together are the array, none is over a hundred rows, and the number of requests is the longest array's length over a hundred, rounded up |
| `Pushing.RequestWrites` | web/src/sync/push.ts:437-442 | A request carries each row of the batch once, with its fields and version, and is never over the server's row limit |
| `Pushing.ResultSettles` | web/src/sync/push.ts:332-350 | A result settles its row: accepted, it is clean under the server's new version; conflicted, it is the server's copy and a note has a fork; refused, nothing changed |
| `Pushing.BrokenOff` | web/src/sync/push.ts:443-461 | Results applied before a failure stay settled, the rows after them stay as they were read |
| `Pushing.LostBatch` | web/src/sync/push.ts:437-442 | A request that failed on the way changed, at the server, only rows of that request |
| `Pushing.ResultCounts` | web/src/sync/push.ts:361-388 | One result more keeps the counts exact: pushed is the number of rows that turned clean because the server accepts them, conflicted the number that turned clean because it does not |
| `Pushing.CountsMean` | web/src/sync/push.ts:361-388 | At any point of a run, broken off or not, the tables differ from those it began with if and only if something was accepted or conflicted, and then a row not another account's has turned clean |
| `Pushing.RefusedCounted` | web/src/sync/push.ts:384-386 | After a run that got through, forbidden is the number of dirty rows whose id another account holds |
| `Cycles.NoneMoved` | web/src/sync/push.ts:243-350 | After a push that got through, nothing was accepted or conflicted if and only if every dirty row was another account's |
| `Pushing.InvalidRowBlocks` | server/internal/http/sync.go:580-618 | A dirty row the server finds invalid stops every push of the device, whatever the network does |
| `Pulling.TakenExactly` | web/src/sync/pull.ts:29-84 | The count of a page is the number of its rows that are not dirty on the device, and the rest of the page are those that are |
| `Pulling.PagesMove` | web/src/sync/pull.ts:49-79 | Pages that take n rows off the front move the tables if and only if one of the first n rows is not dirty and differs from what the device holds |
| `Pulling.PagesTake` | web/src/sync/pull.ts:49-79 | Pages that take n rows off the front count a row if and only if one of the first n rows is not dirty on the device |
| `Interleaved.PullMissesNothing` | web/src/sync/pull.ts:86-113 | Whatever pushes land between the pages of a pull, other devices' of the same user included: if no row up to the cursor was missed before, none up to the new cursor is |
| `Interleaved.LaidOver` | web/src/sync/pull.ts:61-73 | Nor does any sequence of pages touch a dirty row, lose a row or leave one dirty that was not |
| `Interleaved.StillPull` | web/src/sync/pull.ts:86-113 | While nothing but other accounts' pushes lands, a pull is all rows between the two cursors laid over the tables; it gets through exactly when the pages that the rows ahead need arrive, and its counts are exact |
| `Cycles.CycleEnds` | web/src/sync/index.ts:25-45 | However a cycle ends a row that was dirty is still there, as it was if it is still dirty; after a push that got through a dirty row is one the server refuses or a fork of this cycle |
| `Cycles.CycleShows` | web/src/sync/index.ts:46-63 | In a cycle during which nothing is typed and no other device of the user pushes: the counts hide a change if and only if, when it starts, every dirty row is another account's, the push gets through, at least one response of the pull arrives but not the last one needed, and one of the rows in those that arrive is new; they show one where there is none if and only if every dirty row is another account's, push and pull get through, and the pull takes rows but none that is new |
| `Cycles.LostResponseHidesAPage` | web/src/sync/index.ts:38-63 | A new device with more than a page to pull of which only the first arrives is such a start |
| `Cycles.HeldRowsAreCounted` | web/src/sync/pull.ts:49-79 | So is every device with nothing dirty that holds each row ahead as the server does |
| `Cycles.ConflictIsCountedAgain` | web/src/sync/push.ts:214-235 | A dirty class that meets a newer version of itself is such a start for the next cycle: the conflict has put there the row that the pull counts |
| `Runs.RequestSimulates` | web/src/sync/push.ts:437-445 | A request of which the server handles the first m rows and the device applies the first j results, whether or not that is all, is a sequence of the device's own push steps |
| `Runs.PageSimulates` | web/src/sync/pull.ts:94-96 | A page asked for and applied is a sequence of the device's own pull steps |
| `Runs.CreateIsStep` | web/src/db/notes.ts:10-41 | A row created is one step of the transition system, and the new row is all that changes |
| `Runs.EditIsStep` | web/src/db/notes.ts:118-158 | So is a row edited, deleted or restored |
| `Runs.SyncKeepsText` | web/src/sync/push.ts:214-235 | Nothing a push or a pull does on its device types text over: through any stretch of such steps the text of a dirty note can be followed to the note, its fork or the version the server took |
| `Runs.SimulatedIsSound` | web/src/sync/index.ts:18-65 | A stretch of such steps, a whole cycle included, continues any run that has come to where it begins; where it ends, no row at or below the cursor is missed, every clean row shows a version the server has had, fields and all, and none is ahead of the server; the text of each note that was dirty when it began can be followed to its end |
| `Replica.Replica.CreateNote` | web/src/db/notes.ts:10-41 | A new note is dirty, at version 0, and no other row changes |
| `Replica.Replica.UpdateNote` | web/src/db/notes.ts:118-142 | An error exactly for a missing or deleted note, with nothing changed; else the named fields change, the version stays, the row is dirty under the new stamp |
| `Replica.Replica.SetDeleted` | web/src/db/notes.ts:147-158 | Delete and restore set one field and the stamp, keep the version, and do nothing to a missing note |
| `Replica.Replica.ApplyList` | web/src/sync/pull.ts:49-79 | The loop over one array of a page puts every row, fields, version and stamp as the server has them and clean, over the local one but for dirty ones, touches no other, and counts what it took |
| `Replica.Replica.ApplyPage` | web/src/sync/pull.ts:29-84 | A page goes over the tables as a whole, dirty rows excepted, and the cursor becomes the page's |
| `Replica.Replica.PullOnePage` | web/src/sync/pull.ts:95-108 | One page, read after any push has landed, asked for, applied and counted: exactly the rows not dirty are taken, the others counted as skipped |
| `Replica.Replica.PullRemoteChanges` | web/src/sync/pull.ts:86-113 | With any push landing before each page, and however it ends: at most twenty pages, each of a hundred rows but for the last, are laid over the tables, dirty rows excepted, the counts are exact, and no row up to the new cursor is missed; while the user's rows stand still the pages are all rows between the cursors, and a pull that gets through leaves the rows ahead less two thousand; when nothing lands it is a stretch of a run |
| `Replica.Replica.ApplyAccepted` | web/src/sync/push.ts:196-212 | The row takes the server's version, keeps fields and stamp, and its flag survives if and only if its stamp has changed; a missing row stays missing |
| `Replica.Replica.ApplyConflict` | web/src/sync/push.ts:214-235 | A note is forked whole, stamp included, under a new id at version 0 with the marker behind its title, before the server's copy, stamp included, replaces it; rows of the other tables are replaced |
| `Replica.Replica.ApplyResult` | web/src/sync/push.ts:361-388 | One result by its status, and exactly one count for it |
| `Replica.Replica.ApplyResults` | web/src/sync/push.ts:443-445 | The loop over the results, to the end or to a failure of the device's tables: each applied row settled, no other changed, each counted once |
| `Replica.Replica.SendBatch` | web/src/sync/push.ts:437-445 | One request that is answered or refused: it gets through exactly when its rows are valid and all results are applied; the rows applied are settled, no other row changes; it is a stretch of a run |
| `Replica.Replica.LoseBatch` | web/src/sync/push.ts:437-442 | One request whose answer never comes, of which the server took any number of rows: nothing changes on the device, and at the server only rows of that request; it is a stretch of a run |
| `Replica.Replica.SendAll` | web/src/sync/push.ts:425-446 | The requests in order until one does not get through: all of them do exactly when each is answered, valid and applied |
| `Replica.Replica.PushDirtyRows` | web/src/sync/push.ts:390-468 | pushed + conflicted + forbidden + failed is the number of queued rows, on success and on failure at any row of any request; every queued row is settled or untouched, all settled after success; pushed and conflicted are exactly the rows that turned clean, by what the server made of them, so the tables moved if and only if a row was accepted or conflicted; clean rows are untouched and new rows are forks; a second run does nothing; it is a stretch of a run |
| `Replica.Replica.Sync` | web/src/sync/index.ts:18-65 | Push, then pull only after a push that got through, which is exactly when every request did; what may still be dirty; whatever lands during the pull, it misses nothing up to its cursor; while nobody else pushes the user's rows, what pull and cursor are when a response is lost, and `changed` tells whether the tables moved, except exactly in the two cases of `CycleShows`; a second cycle does nothing; when nothing lands it is a stretch of a run |
| `FindMath.FormulaUnique` | web/src/features/notes/math.ts:33-37 | At most one formula opens at a position |
| `FindMath.FormulaAt` | web/src/features/notes/math.ts:38-59 | Finds the formula that opens at a dollar, and nothing exactly when none does |
| `FindMath.InlineMeans` | web/src/features/notes/math.ts:38-59 | An inline formula, unit by unit: from a dollar that neither a dollar nor a blank follows to the first unescaped dollar that no blank precedes, with no unescaped line end before it |
| `FindMath.DisplayMeans` | web/src/features/notes/math.ts:38-52 | A display formula: from two dollars to the first two whose first is not escaped, over any lines |
| `FindMath.SpacesAre` | web/src/features/notes/math.ts:12-13 | The units that count as blank |
| `FindMath.CountRun` | web/src/features/notes/math.ts:15-19 | The length of the run of backticks |
| `FindMath.AfterCodeSpan` | web/src/features/notes/math.ts:23-31 | The end of the first whole run of the same length, or none if there is none |
| `FindMath.RunMeans` | web/src/features/notes/math.ts:15-31 | A code span may end at a run of exactly as many backticks, no part of a longer one |
| `FindMath.MarkerMeans` | web/src/features/notes/math.ts:10 | A line is a fence with n units u if and only if it begins with at most three spaces and then exactly n >= 3 backticks or tildes |
| `FindMath.FenceLineMeans` | web/src/features/notes/math.ts:66-72 | A fence line reaches to the end of its line and no further |
| `FindMath.FenceChanges` | web/src/features/notes/math.ts:67-87 | Over a tiling, a tile is a fence line if and only if it begins a line and a fence is open or opens there; an open fence is closed by, and only by, a line with as many or more of the same unit |
| `FindMath.TileUnique` | web/src/features/notes/math.ts:66-111 | At a position, with a given open fence, at most one tile can stand |
| `FindMath.TileMeans` | web/src/features/notes/math.ts:89-110 | The first unit decides the tile, and an escape takes the next unit unless that ends the line |
| `FindMath.TilingUnique` | web/src/features/notes/math.ts:61-114 | A text splits into fence lines, escapes, code spans, loose backticks, formulas and single units in one way only |
| `FindMath.ScanTile` | web/src/features/notes/math.ts:89-110 | Outside fence lines the scan lays the tile that stands at its position |
| `FindMath.FindMath` | web/src/features/notes/math.ts:61-114 | The ranges are exactly the formula tiles of the tiling of the text, in order; the scan ends |
| `FindMath.FormulaTilesAnswered` | web/src/features/notes/math.ts:101-108 | A formula is answered if and only if it is a tile |
| `FindMath.RangesInOrder` | web/src/features/notes/math.ts:102-108 | Ranges are formulas, in bounds, and each ends before the next begins |
| `FindMath.NoneInsideFence` | web/src/features/notes/math.ts:67-87 | No formula opens while a fence is open |
| `FindMath.InlineContent` | web/src/features/notes/math.ts:41-56 | Inline content is not empty, begins and ends with a non-blank, and a line end in it directly follows a backslash |
| `FindMath.EscapedLineEndIsCrossed` | web/src/features/notes/math.ts:44-47 | An inline formula that spans two lines |
| `FindMath.CutIsFormula` | web/src/features/notes/math.ts:38-59 | A formula cut out of its text is a formula of the cut |
| `FindMath.FoundAgain` | web/src/features/notes/math.ts:61-114 | Scanned on its own, the cut gives one range that covers it whole |
| `Uuid.TickGrows` | web/src/db/uuid.ts:28-44 | Timestamp and counter read as one number grow with every mint, by exactly one on a stale clock |
| `Uuid.HexLess` | web/src/db/uuid.ts:59 | Digits of fixed width sort as the numbers do |
| `Uuid.IdLess` | web/src/db/uuid.ts:8-10 | A greater timestamp and counter give a greater string, whatever the random bits |
| `Uuid.NextSortsAfter` | web/src/db/uuid.ts:24-61 | The next id sorts after the last one if and only if the counter does not run out of the last millisecond of forty-eight bits |
| `Uuid.IdsInMintOrder` | web/src/db/uuid.ts:24-61 | Over any clock readings, repeated and backward ones included, every id is greater as a string than every earlier one, as long as the latest reading and the number of mints leave the timestamp in forty-eight bits |
| `Uuid.IdDecodes` | web/src/db/uuid.ts:46-60 | Dashes, version digit 7 and variant bits are in place, and timestamp, counter and sixty-two random bits can be read back |
| `Uuid.StaleAddsOne` | web/src/db/uuid.ts:33-43 | k mints on a stale clock add exactly k |
| `Uuid.DriftBound` | web/src/db/uuid.ts:28-44 | After k mints on a stale clock the timestamp is ahead of the last advancing reading by at most (k + 2047) / 4096 milliseconds |
| `Uuid.LayoutOf` | web/src/db/uuid.ts:46-60 | The sixteen bytes as they are written, spelt and cut, are the id made from timestamp, counter and random tail |
| `Uuid.Minter.Mint` | web/src/db/uuid.ts:24-61 | One mint in place: the state ticks and the id is the layout of the new state |
| `RateLimit.Limiter.Allow` | server/internal/http/ratelimit.go:55-79 | The buckets and the answer are those of the limiter on values: a first request leaves a burst less one; any other finds its bucket filled by the rate up to the burst, spends a whole token or is told the seconds missing, rounded up; no other bucket changes |
| `RateLimit.Limiter.Sweep` | server/internal/http/ratelimit.go:81-90 | A bucket stays if and only if it was seen less than the idle time ago, and those that stay are unchanged |
| `RateLimit.AllowByLeft` | server/internal/http/ratelimit.go:59-78 | A request is answered by what its key has left, spends one token or none, and touches no other key; tokens stay within 0 and the burst |
| `RateLimit.SweepIsSilent` | server/internal/http/ratelimit.go:81-90 | A swept bucket had refilled, so no key has more or less left |
| `RateLimit.SweepsUnobservable` | server/internal/http/ratelimit.go:81-90 | However requests and sweeps interleave, every answer is that of a limiter never swept |
| `RateLimit.RefusalsAreFree` | server/internal/http/ratelimit.go:66-75 | A refused request changes no later answer |
| `RateLimit.RefusedDropOut` | server/internal/http/ratelimit.go:66-75 | A run without its refused requests admits the same ones and refuses none |
| `RateLimit.WindowBound` | server/internal/http/ratelimit.go:59-78 | After any run, T seconds admit at most burst + rate * T requests of one key, and tokens lie within 0 and the burst |
| `RateLimit.WindowBoundIsAttained` | server/internal/http/ratelimit.go:59-78 | For a whole burst and any number of further tokens that many requests are admitted: the bound is exact |
| `RateLimit.LoginAdmitsTwentyInAMinute` | server/internal/http/ratelimit.go:14-23 | Twenty requests of one client can be admitted in one minute |
| `RateLimit.RetryAfterIsExact` | server/internal/http/ratelimit.go:69-75 | After a refusal with wait w the key is admitted from w seconds on and refused up to w - 1, whatever other keys and the sweeper do; 1 <= w <= 1/rate rounded up |
| `PageOrder.Library.ListPages` | web/src/db/notes.ts:68-75 | Exactly the notes of this book that have an order and are not deleted, once each, by their order |
| `PageOrder.Library.CreatePage` | web/src/db/notes.ts:80-96 | The new page goes one above the highest live page, or to 1; no other note changes |
| `PageOrder.Library.InsertPageAfter` | web/src/db/notes.ts:102-116 | An error exactly when the anchor is no page; else halfway to the nearest live page above it, or one above it; no other note changes |
| `PageOrder.Library.DeleteNote` | web/src/db/notes.ts:147-150 | The note is marked and keeps its order |
| `PageOrder.RunKeepsDistinct` | web/src/db/notes.ts:68-116 | Over any run of the three, live pages of a book keep distinct orders and no page's order changes |
| `PageOrder.ReadingUnique` | web/src/db/notes.ts:74 | Distinct orders leave one way to read a book |
| `PageOrder.InsertedPageReadNext` | web/src/db/notes.ts:98-116 | However the book is read afterwards, the new page stands straight after its anchor and every other page where it stood |
| `PageOrder.OtherBooksReadAlike` | web/src/db/notes.ts:68-116 | A page added to one book leaves every reading of another book as it was |
| `PageOrder.RestoreKeepsDistinct` | web/src/db/notes.ts:152-158 | Restoring a page keeps the orders distinct if and only if no live page has taken its order |
| `PageOrder.RestoreCanCollide` | web/src/db/notes.ts:152-158 | Delete, create and restore can leave two live pages at one order |

## Left out

- HTTP, sessions, cookies, CSRF, JSON, SQL and the browser's database: tables are maps, a transaction is one step, a query or a sort is a loop or a function with its result specified.
- The 1 MiB limit of a request, the rules for the fields kept as one opaque string (a parameter of the model), and the unknown-row answers a conforming server never gives.
- Parsing and printing of deadline topics, search text, `syncedAt` and `createdAt`: the protocol reads none of them, and every field it does not read is one opaque string.
- Truncation of timestamps to whole seconds; `deletedAt` is kept as a flag, `archivedAt` and `doneAt` among the opaque fields.
- A failure of the device's own tables before the first request of a push; failures while results are applied are modelled.
- Conservation of the text of classes, notebooks and deadlines: a conflict discards the local edit by design.
- Local edits of classes, notebooks and deadlines as methods; the transition system edits rows of every table.
- Statuses, debug records, triggers and timers of sync, a second tab, and signing out.
- Rounding of floating-point numbers in the limiter and in page orders; both are exact numbers here.
- Orders that a fork copies: a forked page has the order of its original, as a restored one can.
- CommonMark conformance of the formula scanner.
- The editor, outline, settings, internationalisation, migrations and password hashing.
- Replica.Replica.PushDirtyRows: local edits that land between its requests are not part of the method; the transition system has them between any two steps.
- Replica.Replica.Sync: nothing lands on the server between the requests of its push and nothing is typed while it runs; in the transition system both happen between any two steps.
