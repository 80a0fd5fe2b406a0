# sg-proto, verified

A Dafny model of the stateful core of the sg-proto server, and proofs about it. Five parts:

* **Hangups.** Every live connection registers a responder under its user. To hang up, a surveyor
  broadcasts `HUP` up to three times over a channel that may lose, reorder, delay or repeat
  messages, and tallies the replies. A responder closes its connection's signal before it replies,
  so that "the survey succeeded" implies "the connection is dead", and a profile is deleted only
  after everything of its user is down (`Wire`, `Survey`, `SurveyTape`, `Hangup`, `HangupRuns`,
  `Responder`, `Deletion`, `DeletionRun`, `ReadSend`).
* **The task ledger.** `PUT /tasks/:id` moves int64 coin between the owner of a task and its
  completer and guards several fields (`Coin`, `Ledger`, `Escrow`, `EscrowHistory`).
* **The message log.** A scribe buffers messages and flushes them into a bucket keyed by RFC 3339
  timestamps; a cursor walk answers range queries (`Bolt`, `MessageRange`, `Scribe`, `Rfc3339`,
  `History`).
* **Rivers.** Each new bus of a stream dials every bus registered before it; addresses are strings
  joined with slashes (`Address`, `Mesh`).
* **Notes and sessions.** Notes of a task are stored by content hash; logins, sessions and their
  contexts live in parallel buckets (`Notes`, `Sessions`,
  `Interleaving`).

`dafny verify dfyconfig.toml` checks the whole project.

## How it is modelled

A loop, or an object that is updated in place, is a method or a class here, and its `ensures` ties
it to a function of the old state. The run-level theorems are about those functions. Concurrent
parts are state machines over their atomic steps, and every statement about them is for all
interleavings. Registrations and buses are told apart by their count, and carry it modulo 2^64, as
the bucket sequence does; nothing is assumed about how many there are. A `db.Update` is one atomic
step that changes nothing when one of its operations fails. Sockets, the clock and scheduling are inputs: what `Recv` returns is an arbitrary tape, and a
timeout is an event that may happen at any time.

A function that follows the code is not left to speak for itself. Beside it stands what it must come
to, said another way: of the tape (`SurveyTape`), of what was done in a run and not undone since
(`Steps`, `HangupRuns`, `EscrowHistory`, and the `...Iff` lemmas), or of the request and the database
it meets (`Ledger.AcceptedIff`, `Sessions.LogInServesIff`).

## Where the code differs from its comments

The model does what the code does.

* The id of an `IDK` reply is read at the offset of `OK`, one byte early
  (`stream/river/surveyor.go:80`). `Wire.IdkEntry` and `Wire.IdkCollision` say what is read instead,
  and when two replies then share an entry.
* `NewSurvey` drops the error of its row loop (`stream/river/surveyor.go:178-198`).
  `Responder.ReadRows` keeps that; `Responder.ExpectIsRegistered` shows that no key `NewResponder`
  writes ends the loop early.
* A writer who is not the completer can un-complete a task, and no coin moves
  (`rest/task.go:458-461`). An owner may hand a completed task to someone else, and `POST` accepts a
  task that is completed already. `Escrow.StepExact` shows that these are exactly the requests that
  break the escrow invariant, and `Escrow.LeakHappens` gives a run.
* The comment of `uncompleteAsOwner` says that the completion data is unset
  (`rest/task.go:427-428`); the sent completion data is stored as it came. `Ledger.OwnerUnsetsIff`
  says when that comes to the same, and `Ledger.OwnerLeavesSet` gives an input where it does not.
* `old.Resources` and `tsk.Resources` are read before the task is loaded (`task/task.go:103`,
  `task/task.go:160`), so no text of a note is ever deleted.
* A refresh token refreshes any expired session, not only its own (`auth/session.go:83-125`).
  `Sessions.RefreshServesIff` is the exact condition, `Sessions.ForeignRefreshServes` a run of two
  users. `Sessions.DisableIsPermanent` holds all the same.
* A login is checked in one transaction and gets its session in another (`rest/token.go:41-63`). A
  disabled login stays disabled, but a session can still appear for one that was in between;
  `Interleaving.DisableHoldsIff` says exactly when, and `Interleaving.OvertakenHappens` gives a run.
* `AuthUser` logs a valid session without a context as unexpected (`rest/middleware/auth.go:97-100`).
  One handler at a time that cannot happen; `Interleaving.NoContextIff` says exactly when it does
  between transactions, and `Interleaving.LostHappens` and `Interleaving.OrphanHappens` give runs.
* A PUT acts on the task its view has loaded, which may have changed by the time of its Update
  (`rest/task.go:372-412`, `476-481`). `Escrow.StaleExact` and `Ledger.StaleFreezes` say exactly what
  is then kept, and `Escrow.StaleCommitHappens` gives a run of two writers.
* `ReadSend` sees a hangup when its reader returns (`rest/ws/chans.go:70-72`), unless it waits for a
  slot of the error channel. `ReadSend.HangupIsSeenIff` says exactly when that is for good, and
  `ReadSend.StuckHappens` gives a run.
* Log keys keep the offset their timestamps came with (`convo/scribe.go:178`).
  `Rfc3339.MixedOffsets` says exactly when two offsets in one log still sort by time, also where
  the local clocks read the same.
* Dialers stand and dial again. So 2^64 buses later an old dialer can lead to a new bus, and two
  buses are linked twice: `Mesh.FullMesh` has the exact condition, `Mesh.LinkedTwice` a run.

## Model

| member | source | states |
|---|---|---|
| `Wire.UintPutUint` | stream/river/responder.go:41-42 | n little-endian bytes of any number denote it modulo 256^n |
| `Wire.PutUintUint` | stream/river/surveyor.go:69 | writing the number that bytes denote gives back those bytes |
| `Wire.Uint64RoundTrip` | stream/river/responder.go:41-43 | PutUint64 and Uint64 are mutual inverses on every uint64 and every eight bytes |
| `Wire.OkCreditsSender` | stream/river/surveyor.go:67-69 | every OK reply reads as an OK, never as an IDK, and credits exactly its sender |
| `Wire.IdkEntry` | stream/river/surveyor.go:77-81 | every IDK reply reads as an IDK; its entry is the letter K and the low seven bytes of the id |
| `Wire.IdkCollision` | stream/river/surveyor.go:77-81 | two IDK replies share an entry if and only if their ids agree modulo 2^56 |
| `Wire.ParseFormat` | stream/river/surveyor.go:179-184 | parsing a formatted id gives the id, for every uint64 |
| `Wire.FormatCanonical` | stream/river/responder.go:90 | registry keys have no redundant leading zero |
| `Wire.DecimalRoundTrip` | stream/river/surveyor.go:178-184 | a key is some id's key if and only if it is canonical and parses, and then formatting the parsed id gives the key |
| `Wire.FormatInjective` | stream/river/responder.go:90-100 | distinct ids have distinct keys |
| `Wire.SequenceReuse` | stream/river/bus.go:77-82 | a bucket gives a number twice if and only if a positive multiple of 2^64 allocations lies between |
| `Survey.Query` | stream/river/surveyor.go:55-90 | a round consumes at most as many receives as replies are owed, and stops a survey only with an error; `SurveyTape.SurveyIff` says the rest |
| `Survey.Receive` | stream/river/surveyor.go:55-90 | the inner loop, on every tape of receives, is that round |
| `Survey.Round` | stream/river/surveyor.go:46-110 | one turn of the outer loop ends the survey with its report, or goes on as the recursive survey does |
| `Survey.MakeSurvey` | stream/river/surveyor.go:32-121 | the nested loops, on every tape and with any send failing, give the report that `SurveyTape.SurveyIff` characterises |
| `Survey.Unseen` | stream/river/surveyor.go:113-118 | the last loop yields exactly expected minus seen |
| `Survey.CreditedMember` | stream/river/surveyor.go:67-76 | an id counts as seen if and only if some consumed reply carries it after the expected response |
| `Survey.ReceiveTally` | stream/river/surveyor.go:56-90 | each receive keeps the tally equal to what the replies say and within the expected ids |
| `Survey.QueryTally` | stream/river/surveyor.go:55-90 | so does a whole round, which never overdraws the tally |
| `Survey.RoundOutcome` | stream/river/surveyor.go:92-110 | counting suffices: when the sizes agree seen is the expected set; otherwise what is missing is not empty |
| `Survey.RoundsUsed` | stream/river/surveyor.go:45-90 | from any round on: the sends and receives left |
| `Survey.RoundsOutcome` | stream/river/surveyor.go:45-120 | from any round on: the outcome says the truth about the replies consumed |
| `Survey.SurveyAccounting` | stream/river/surveyor.go:45-120 | on every tape: at most 3 sends and 3*num receives; nil only if the credited ids are the expected set; Missing comes after 3 sends, is not empty and is expected minus credited; an errors result names the refusals and everyone replied |
| `Survey.OwedNeverNegative` | stream/river/surveyor.go:45-46 | in every round toRecv >= 0, seen is within the expected ids, and the tally is what the replies say |
| `Survey.AllAnswer` | stream/river/surveyor.go:55-76 | distinct expected answers, in any order, complete a round |
| `Survey.AllAnswerSucceeds` | stream/river/surveyor.go:92-95 | the converse: if every expected id answers once, the first round returns nil |
| `SurveyTape.ReadsReplies` | stream/river/surveyor.go:66-81 | an OK reads as a credit of its sender; an IDK as a refusal filed under K and the low seven bytes of its id, with its eight bytes |
| `SurveyTape.ReadsOthers` | stream/river/surveyor.go:66-89 | unreadable exactly without either prefix; too short exactly without eight bytes after the expected response |
| `SurveyTape.OneCause` | stream/river/surveyor.go:58-89 | an entry that causes an error causes no other, and is neither useful nor silence |
| `SurveyTape.SurveyIff` | stream/river/surveyor.go:45-120 | a report is the survey's if and only if the tape can be cut into rounds that make it: each takes useful replies up to what is owed, a silence, a cause or the end of the tape; all but the last decide nothing; and the last gives the outcome by its own condition |
| `SurveyTape.ErrorsHaveCauses` | stream/river/surveyor.go:57-89 | an error other than a failed send names the last entry consumed as its cause; otherwise no entry consumed is one; a send error comes if and only if the last send is the failing one |
| `SurveyTape.SilenceEndsRounds` | stream/river/surveyor.go:59-62 | at most one timeout is consumed for each send: it ends a round, and not the survey |
| `SurveyTape.MissingIsUnheard` | stream/river/surveyor.go:92-120 | after a Missing somebody has neither answered nor refused |
| `SurveyTape.LateAnswersSucceed` | stream/river/surveyor.go:45-95 | if a timeout splits the answers of all expected ids, the second send returns nil |
| `Responder.Signal.Close` | rest/ws/hangup.go:38-41 | a signal is closed while open, never twice |
| `Responder.HangupSender.constructor` | rest/ws/hangup.go:24-33 | starts with its own open signal and no effect |
| `Responder.HangupSender.Send` | rest/ws/hangup.go:38-41 | the signal closes before the reply leaves, also when the reply fails |
| `Responder.HangupSender.Wait` | stream/river/responder.go:19-36 | which reply leaves, and when the result is nil |
| `Responder.HangupSender.AwaitHangup` | stream/river/responder.go:40-44 | at most one close and one reply, none before the close; OK leaves if and only if HUP came and the send worked |
| `Responder.ReadRows` | stream/river/surveyor.go:176-198 | expected ids and dialed addresses are those of the rows before the first key that is no number |
| `Responder.ExpectIsRegistered` | stream/river/surveyor.go:176-198 | on a bucket of ids the loop never stops early, and Expect() is exactly the registered set |
| `Responder.CheckMissing` | stream/river/missing.go:59-73 | nil exactly on an empty bucket; otherwise all remaining ids in order, or an error exactly if a key is no number |
| `Hangup.StepGrows` | stream/river/responder.go:19-44 | no step reopens a signal, revives a handler, forgets a connection or brings a row back |
| `Hangup.StepConns` | stream/river/responder.go:19-44 | every step keeps: a responder about to reply has its signal closed, one still listening has it open |
| `Hangup.StepRows` | stream/river/responder.go:67-134 | every step keeps: a row has a connection, a connection without row has ended and left AwaitHangup |
| `Hangup.StepSucceeded` | stream/river/responder.go:83-112 | every step keeps: a number is taken again only when its former holder's row is gone |
| `Hangup.RepliesInTime` | stream/river/surveyor.go:170-196 | whoever is about to reply to a survey is no predecessor of the registration surveyed |
| `Hangup.StepMessages` | stream/river/responder.go:40-44 | every step keeps: each reply in flight names a closed connection of the surveyed bucket that the survey can have meant |
| `Hangup.StepLogs` | stream/river/surveyor.go:56-65 | every step keeps the same of each reply received |
| `Hangup.StepKeepsInv` | stream/river/responder.go:19-134 | all of it is inductive over all thirteen kinds of step, for any number of registrations |
| `Hangup.RunKeepsInv` | stream/river/responder.go:19-134 | and holds in every state of every run |
| `Hangup.ClosesOnce` | rest/ws/hangup.go:35-41 | in every run the signal is open when it is closed, and in no later state can it be closed again |
| `Hangup.NumbersAreFresh` | stream/river/responder.go:83-112 | whoever had a new responder's number before has ended, its row is gone, and it registered 2^64 times earlier or more |
| `Hangup.CreditIsClosed` | stream/river/surveyor.go:67-76 | the reply that credits id was sent by a connection with that number, after its close |
| `Hangup.OkMeansClosed` | rest/ws/hangup.go:136-139 | in every run, an OK(id) in flight or received means that a connection with that number, not older than the surveyed one, has its signal closed already |
| `Hangup.RunGrows` | stream/river/responder.go:19-44 | closed, ended and row-gone are for good, over every run |
| `Hangup.AnsweredMeansClosed` | stream/river/surveyor.go:92-95 | an answered survey has a closed connection behind each number it expected |
| `Hangup.NilMeansHungUp` | stream/river/surveyor.go:32-121 | when MakeSurvey(HUP, OK) returns nil, every connection it was after is dead, then and ever after: its signal is closed, unless 2^64 registrations later another took its number, and then it has ended and its row is gone |
| `Hangup.GoneMeansEnded` | rest/notif.go:85-107 | a row that has gone belongs to a connection whose handler has ended |
| `HangupRuns.TraceHasSteps` | stream/river/responder.go:19-134 | every trace is made by steps, so what follows holds of every trace |
| `HangupRuns.Progress` | stream/river/responder.go:19-44 | no connection, surveyor or handler that has ended is ever stuck: its next step is enabled |
| `HangupRuns.RegisterIsFree` | stream/river/responder.go:83-112 | the first 2^64 - 2 registrations of a bucket are never refused |
| `HangupRuns.TraitIff` | stream/river/responder.go:19-44 | known, closed, ended, left AwaitHangup: exactly if the step that makes it so was taken; waiting: exactly if registered and not woken since |
| `HangupRuns.RowIff` | stream/river/responder.go:100-134 | a row is there exactly if it was registered and not cleaned up since |
| `HangupRuns.LogIs` | stream/river/surveyor.go:57 | what a surveyor's Recv returns is what was delivered to it, in order, with its timeouts and failures |
| `HangupRuns.AskIff` | stream/river/surveyor.go:49 | a survey is on its way exactly if its surveyor sent it while the connection was there under an expected number |
| `HangupRuns.OkAnswersHup` | stream/river/responder.go:25-34 | in every run an OK answers a HUP of its surveyor to a connection with that number, and an IDK something else |
| `Deletion.UserPathsIff` | rest/profile.go:90-142 | the paths surveyed are those of the user's convos, streams and notifs |
| `Deletion.ConnectedMember` | rest/profile.go:90-156 | the surveyed buckets are exactly the user's buckets that exist |
| `Deletion.PrepareSurveys` | rest/profile.go:76-160 | the three collecting loops pair each existing bucket with all its ids, in order |
| `Deletion.AwaitAll` | rest/profile.go:182-221 | the counting loop ends well if and only if each arrival was nil, or Missing with its bucket there and empty by then; a timeout or any other error ends it |
| `Deletion.Pigeonhole` | rest/profile.go:170-183 | n distinct results out of n are all of them |
| `Deletion.AllConsumed` | rest/profile.go:170-221 | when the loop has ended well, every survey's result was consumed |
| `Deletion.EachWayOut` | rest/profile.go:182-221 | for each survey: answered, and its connections are signalled (up to a number taken again); or every row of its bucket was gone at the CheckMissing view, and their handlers had ended |
| `Deletion.DeletionWaitsForEveryone` | rest/profile.go:76-226 | when the final Update is reached, each connection registered for the user's convos, streams and notifs at the start is signalled, or has ended and its row is gone |
| `DeletionRun.DeletionHappens` | rest/profile.go:76-226 | a run of the protocol that reaches the final Update: one connection answers its survey, the other is missing and has cleaned up |
| `ReadSend.RunKeepsInv` | rest/ws/hangup.go:47-81 | after a late Send the loop can only be on its way out |
| `ReadSend.AtMostOneLateSend` | rest/ws/chans.go:73-102 | over every interleaving at most one Send starts after the signal closed |
| `ReadSend.SendsSplit` | rest/ws/chans.go:95-100 | once the signal is closed every Send is a late one |
| `ReadSend.OneMoreSend` | rest/ws/chans.go:73-102 | from any state with a closed signal the bus sees at most one more Send |
| `ReadSend.CountDown` | rest/ws/chans.go:76-102 | with the signal closed, a loop that is not blocked never will be, and each of its actions brings it nearer to its end |
| `ReadSend.StopsAfterHangup` | rest/ws/chans.go:73-102 | unless blocked on the error channel at that moment, at most four own actions after the close it has stopped, whatever socket, bus and error writer do |
| `ReadSend.StuckForGood` | rest/ws/chans.go:88-94 | blocked on a full error channel that WriteErrors has left, it stays there |
| `ReadSend.CanStop` | rest/ws/chans.go:35-51 | otherwise there is a schedule on which it ends |
| `ReadSend.HangupIsSeenIff` | rest/ws/chans.go:73-102 | in every reachable state with a closed signal: the loop can end if and only if it is not so stuck |
| `ReadSend.StuckHappens` | rest/ws/ws.go:80-98 | a run that gets stuck: eleven malformed messages after WriteErrors has stopped, then the hangup |
| `ReadSend.OneLateSendHappens` | rest/ws/hangup.go:71-79 | the bound is tight: a run with one late Send |
| `ReadSend.SendsCount` | rest/ws/chans.go:95-100 | in every run the bus gets exactly the good messages the loop comes to dispatch, and the late ones are those dispatched after the close |
| `ReadSend.ErrsCount` | rest/ws/chans.go:35-51 | and the error channel exactly the content errors that find a slot, less those taken |
| `ReadSend.ReadIsDispatched` | rest/ws/hangup.go:71-79 | what the socket gives is what the loop dispatches next, unless the signal has closed by the time it is returned |
| `ReadSend.StopsIff` | rest/ws/chans.go:76-100 | the loop stops exactly on a closed fail channel at the top, an EOF, a read error or a failed Send |
| `ReadSend.FlagsIff` | rest/ws/chans.go:56-68 | signal, fail and writer change exactly by the events that close or stop them |
| `Ledger.API.CheckExist` | users/users.go:45-58 | true if and only if every name exists |
| `Ledger.API.RunUpdate` | store/store.go:99-108 | all operations take effect, or the first failing one undoes them all |
| `Ledger.API.FillUsers` | rest/task.go:346-357 | the two range loops collect all members and make each writer a reader |
| `Ledger.API.PutTask` | rest/task.go:316-466 | the handler's effect, and that it answers well if and only if the request is acceptable, for every request and database |
| `Ledger.RunsIff` | store/store.go:99-108 | a transaction commits if and only if each of its operations finds the users it names |
| `Ledger.NormalizeIff` | rest/task.go:342-357 | the stored members are the sent ones, with the sender, and every writer a reader; nobody else, and with the sent marks |
| `Ledger.AcceptedIff` | rest/task.go:316-465 | a PUT is accepted if and only if: the sender is the sent owner or writer, both member maps are there, everyone named and the task exist, a completed request keeps completer and time, and then, of its owner, bounty and due stay while complete and both parties of an un-completion exist; of anyone else, a writer changes no bounty, due date or members, and the owner is there to settle |
| `Ledger.RunFails` | store/store.go:101-104 | an error anywhere fails the whole transaction |
| `Ledger.RunMovesCoin` | users/users.go:97-112 | a transaction moves the bank by the coin of its operations, modulo 2^64, and keeps the users |
| `Ledger.PlanBalances` | rest/task.go:385-462 | in every branch what is added is what is taken, also for MinInt64 and when owner is completer |
| `Ledger.PlanConserves` | rest/task.go:476-622 | a plan made against one database and committed to any other conserves coin |
| `Ledger.RacePlans` | rest/task.go:359-465 | every plan of a race was made from the users its request saw at one step and the tasks it saw at a later one |
| `Ledger.CoinConserved` | rest/task.go:316-683 | under every interleaving of the three transactions of each PUT (user check, load, update), stale ones included, total coin modulo 2^64 and the set of users never change |
| `Ledger.PutTasks` | rest/task.go:385-466 | a PUT leaves all as it was or replaces exactly its task |
| `Ledger.CommittedMembersExist` | rest/task.go:476-481 | whatever the views saw, a PUT commits only if everyone it names exists at that moment |
| `Ledger.PutTakesEffect` | rest/task.go:385-683 | only owner or writer get through; then name, notes, completion, bounty, due and members are the sent ones (`Ledger.NormalizeIff`), and exist; completion data is credited by a completion, kept while complete, unset by its completer's un-completion, and the sent one in every other case |
| `Ledger.FinishTasks` | rest/task.go:476-481 | whatever was seen when it was planned, a commit replaces exactly its task or changes nothing |
| `Ledger.StaleFreezes` | rest/task.go:372-425 | for a commit planned on an older task: completer, time, bounty and due stay if and only if the older task, or the new completion, had them right; owner, members, bounty and due stay if and only if the older task had them right or, for its owner, the request has |
| `Ledger.OwnerUnsetsIff` | rest/task.go:426-430 | an owner's un-completion leaves the completion data unset if and only if the request sends it unset |
| `Ledger.OwnerLeavesSet` | rest/task.go:468-481 | for every user, task id and time: an un-completed task that keeps a completer and a time |
| `Ledger.PutFreezes` | rest/task.go:385-462 | a completed task that stays so keeps completer, time, bounty and due; a non-owner keeps owner, members, bounty and due |
| `Ledger.FrozenWhileComplete` | rest/task.go:413-435 | the first over every run segment in which the task stays completed |
| `Ledger.OnlyOwnerReshapes` | rest/task.go:436-462 | the second over every run without a PUT by the owner |
| `Escrow.PlanPays` | rest/task.go:385-462 | for every user, the coin a plan moves is congruent to the change of the share of the task it has loaded, unless the request cheats; then it moves none |
| `Escrow.LandedBalance` | rest/task.go:476-481 | what a commit leaves on a balance, whatever was seen when it was planned |
| `Escrow.StaleExact` | rest/task.go:372-481 | a commit keeps escrow if and only if, for each existing user, the share of the task as it stands is congruent to the one the plan was made on |
| `Escrow.CheatChange` | rest/task.go:431-461 | whose shares a cheating request moves without paying, and by how much |
| `Escrow.PutKeepsEscrow` | rest/task.go:316-466 | a PUT that does not leak keeps every balance equal to its account |
| `Escrow.PutBreaksEscrow` | rest/task.go:458-461 | a PUT that leaks always breaks it |
| `Escrow.PutKeepsKnown` | rest/task.go:343-462 | a name that never had a login gets no share in a task |
| `Escrow.PostKeeps` | rest/task.go:150-222 | a POST keeps the invariant unless it claims a bounty is owed already |
| `Escrow.PostBreaks` | rest/task.go:150-222 | and breaks it if it does |
| `Escrow.DeleteKeeps` | rest/task.go:267-300 | deleting a task settles it |
| `Escrow.PatchKeeps` | rest/admin.go:165-206 | an admin grant is accounted for, also when it wraps |
| `Escrow.CreateKeeps` | incept/incept.go:90-142 | a new user starts with exactly what the account says |
| `Escrow.StepExact` | rest/task.go:316-466 | from escrow, a request of any kind keeps escrow if and only if it does not leak |
| `Escrow.EscrowHolds` | rest/task.go:385-462 | over every run without a leak each balance is grants plus settled tasks plus bounties earned minus bounties owed, modulo 2^64 |
| `Escrow.PoliteRunsHold` | rest/task.go:413-462 | in particular over every run in which tasks are POSTed open, PUTs keep the owner, and only owner or completer un-complete |
| `Escrow.LeakHappens` | rest/task.go:458-461 | a run of three users, in escrow up to its last request, an un-completion by a writer who is not the completer |
| `Escrow.StaleCommitHappens` | rest/task.go:359-465 | a run of two writers who both load the job open and both complete it: the owner pays twice, escrow breaks, and the completer of a completed task changes |
| `EscrowHistory.LoginsIff` | incept/incept.go:90-142 | a login is there exactly if some request was to create it |
| `EscrowHistory.UsersIff` | users/users.go:72-80 | a user is there exactly if it was created for the first time and not removed since |
| `EscrowHistory.PostAcceptedIff` | rest/task.go:150-209 | when a POST is accepted, by request and database; a completed task is |
| `EscrowHistory.PostStores` | rest/task.go:171-209 | it stores the task as sent, with its owner a reader and writer, and touches no other |
| `EscrowHistory.TasksIff` | rest/task.go:267-300 | a task stands exactly if it was posted and its owner has not deleted it since |
| `EscrowHistory.LedgersAre` | rest/admin.go:165-206 | what is granted and settled, read off the requests of the run |
| `EscrowHistory.BalanceIs` | rest/task.go:385-462 | over every run without a leak each balance is the coin the requests granted, plus the shares of tasks at their deletion, plus those of standing tasks, modulo 2^64 |
| `EscrowHistory.PostLeakHappens` | rest/task.go:150-209 | a run in which a POST of a completed task breaks escrow |
| `EscrowHistory.OwnerLeakHappens` | rest/task.go:431-435 | a run in which handing over a completed task breaks escrow |
| `Bolt.LessTrans` | convo/message.go:62-84 | byte order is transitive |
| `Bolt.LessTotal` | convo/message.go:62-84 | and a strict total order |
| `Bolt.LessPrefix` | convo/message.go:58-62 | prefixes of one length are compared first |
| `Bolt.InsertLists` | convo/scribe.go:196-201 | a Put keeps the bucket sorted and updates exactly one key |
| `Bolt.Cursor.Seek` | convo/message.go:60 | the first entry at or after a key |
| `Bolt.Cursor.Prev` | convo/message.go:64-90 | the entry before, none before the first |
| `MessageRange.SeekEnd` | convo/message.go:57-80 | all seek and step-back cases settle on the last entry not after to |
| `MessageRange.Walk` | convo/message.go:83-91 | what the backward walk has taken, and why it stopped |
| `MessageRange.Reverse` | convo/message.go:93-98 | the swaps reverse the array in place |
| `MessageRange.WalkDone` | convo/message.go:83-91 | whenever the walk may stop it has taken exactly the newest max entries of the window |
| `MessageRange.WalkFails` | convo/message.go:86-88 | an entry that does not decode is one of those entries |
| `MessageRange.GetMessageRange` | convo/message.go:40-101 | for every sorted bucket, from, to and max: exactly the last max entries with from <= key <= to, ascending; an error exactly if one of them does not decode |
| `MessageRange.FilterMember` | convo/message.go:84 | the filter keeps an entry if and only if it is in the window |
| `MessageRange.FilterSorted` | convo/message.go:93-100 | in ascending order |
| `Scribe.WriteLoop` | convo/scribe.go:150-209 | the nested loops, on every sequence of events, do the batches of the event machine and leave their bucket |
| `Scribe.WriteBatch` | convo/scribe.go:196-201 | a flush puts its entries in order |
| `Scribe.ScribeLog` | convo/scribe.go:153-209 | at every step flushed followed by buffered is what was received, in order; each flush has 1 to 128 messages, and at most 127 wait |
| `Scribe.LossOnClose` | convo/scribe.go:167-171 | on close at most the last 127 messages are not persisted, and what is persisted is a prefix |
| `Scribe.EndedIff` | convo/scribe.go:167-175 | the loop has ended exactly if the channel was closed or a message could not be read |
| `Scribe.TickDrains` | convo/scribe.go:162-166 | after a tick of a running scribe all that was received is flushed |
| `Scribe.FlushOnlyThen` | convo/scribe.go:159-203 | a flush comes only at a tick, with all that waited, or with the 128th message |
| `Scribe.BatchingIsInvisible` | convo/scribe.go:184-203 | any split into batches leaves the same bucket |
| `Scribe.LivesAreInvisible` | convo/scribe.go:150-209 | nor does it show how many scribes wrote one after another: the bucket is that of all they flushed |
| `Scribe.BucketExists` | convo/scribe.go:196-201 | every sequence of puts leaves a bucket with a sorted listing |
| `Scribe.LastWins` | convo/scribe.go:196-201 | the bucket holds, for each key flushed, its last message |
| `Rfc3339.DigitsOrder` | convo/scribe.go:178 | digits of one width sort as numbers, for every width |
| `Rfc3339.CivilOrder` | convo/scribe.go:178 | the field order of civil times is the order of their seconds, leap years included |
| `Rfc3339.TextOrder` | convo/message.go:58-62 | keys sort by local civil time, then by offset text |
| `Rfc3339.KeyOrder` | convo/scribe.go:177-180 | for one offset and four-digit years, byte order of keys is time order, and equal keys are equal seconds |
| `Rfc3339.ZoneOrder` | convo/scribe.go:178 | offset texts sort east before west before UTC, farther ones later, and tell the offset |
| `Rfc3339.MixedOffsets` | convo/scribe.go:177-180 | for any two offsets, the exact condition under which key order and time order agree, in seconds of local clocks and offsets; for equal clocks: not two different eastern offsets, nor UTC with a western one |
| `Rfc3339.MixedOffsetsDisagree` | convo/scribe.go:177-180 | two families of pairs for which they do not, one of them with equal local clocks |
| `History.EntryIsNewest` | convo/scribe.go:177-201 | each stored entry is the newest flushed message of its second |
| `History.NewestIsEntry` | convo/scribe.go:177-201 | and each of those is stored |
| `History.QueryIsNewestPerSecond` | convo/message.go:57-91 | an entry is in the window of a query if and only if it is the newest flushed message of a second in the interval |
| `History.QueryAscends` | convo/message.go:83-100 | such a query never fails to decode and ascends |
| `History.BucketIsThere` | convo/scribe.go:184-203 | after any number of scribe lives there is a bucket to query |
| `History.NothingNewerMissing` | convo/message.go:83-91 | a newest-of-its-second message left out is older than all that is returned, and max were returned |
| `History.QueryAnswers` | convo/message.go:40-101 | over the bucket of any flushed entries, a query answers with exactly the newest max messages that are last of their second in the interval, ascending |
| `History.QueryHistory` | convo/message.go:40-101 | end to end: the same after any number of scribe lives on one bucket, each any run of its events |
| `Address.ListenIsDial` | stream/river/bus.go:46-93 | the dial string the cursors build is the string listened on |
| `Address.JoinInjective` | stream/river/responder.go:92-98 | the path can be read off its joined form when only the last name may hold a slash |
| `Address.AddrSplits` | stream/river/surveyor.go:170-187 | two addresses are equal if and only if joined paths and numbers are |
| `Address.BusMeetsHangup` | stream/river/bus.go:88-93 | exactly when a bus and a responder would share an address |
| `Address.AddressesInjective` | stream/river/responder.go:83-104 | distinct buses and responders have distinct addresses, for any user names and slash-free ids |
| `Address.InStreamInjective` | stream/river/bus.go:46-93 | within one stream, whatever its id, an address tells user and number |
| `Address.SlashInIdCollides` | stream/river/responder.go:92-98 | slash-free ids are needed |
| `Mesh.StepNumbered` | stream/river/bus.go:77-97 | every step keeps: buses are counted once, a row or a dialer names a bus made before, no address is listened on twice |
| `Mesh.AddedDialers` | stream/river/bus.go:99-112 | a new bus dials only addresses of buses made before it |
| `Mesh.NewBusPair` | stream/river/bus.go:45-112 | a new bus keeps the mesh for each pair |
| `Mesh.StepMeshed` | stream/river/bus.go:35-137 | so does every step |
| `Mesh.RunMeshed` | stream/river/bus.go:35-137 | and all of it holds in every state reachable by NewBus, DeleteBus and Close, for any number of buses |
| `Mesh.NotDialed` | stream/river/bus.go:77-112 | among the first 2^64 buses of a bucket none finds its own address dialed before |
| `Mesh.FullMesh` | stream/river/bus.go:45-112 | of two registered open buses the later has dialed the earlier; they share exactly one link, and a Send reaches the other exactly once, if and only if the earlier has dialed no former bus of the later's address; never more, and no bus linked to itself, among the first 2^64 of a bucket |
| `Mesh.LinkedTwice` | stream/river/bus.go:77-112 | a run beyond that in which two buses are linked twice |
| `Mesh.IdsAreFresh` | stream/river/bus.go:77-97 | no bus is made twice, no two open ones share an address, and two that do are 2^64 apart, whatever is deleted in between |
| `Mesh.RegisteredIff` | stream/river/bus.go:83-135 | over every run a row is there exactly if a bus was made at that address and not deleted since |
| `Mesh.OpenIff` | stream/river/bus.go:88-97 | a bus listens exactly if it was made and not closed since |
| `Mesh.DialsIff` | stream/river/bus.go:45-112 | a bus dials an address exactly if a row was there when it was made |
| `Mesh.MadeIff` | stream/river/bus.go:35-115 | a bus is made exactly by a NewBus that finds its address free |
| `Mesh.CounterIs` | stream/river/bus.go:77-82 | a bucket's counter counts the buses made in it |
| `Mesh.Stream.Clients` | stream/river/bus.go:45-60 | the nested cursor loops list the address of each registered bus once |
| `Mesh.Stream.InUse` | stream/river/bus.go:88-97 | Listen fails if and only if an open bus of the stream has that address, for any stream id |
| `Mesh.Stream.DialAll` | stream/river/bus.go:99-112 | the dial loop leaves a dialer for each listed address |
| `Mesh.Stream.Create` | stream/river/bus.go:35-115 | NewBus as written takes the step of the state machine, for any stream id and user; where the address is in use it fails and changes nothing |
| `Notes.TaskBucket.StoreResources` | task/task.go:168-206 | splits the notes by known id; with none known it keeps all, in order |
| `Notes.TaskBucket.StoreAll` | store/loadstorer.go:46-66 | stores each text under its id, in order |
| `Notes.TaskBucket.DeleteAll` | store/loadstorer.go:91-99 | removes exactly the listed texts |
| `Notes.TaskBucket.StoreTask` | task/task.go:91-106 | stores the ids of all notes and all their texts, and deletes no text |
| `Notes.TaskBucket.LoadTask` | task/task.go:109-148 | the notes in order, or which part is missing |
| `Notes.TaskBucket.DeleteTask` | task/task.go:151-163 | removes the task and no text |
| `Notes.PutKeeps` | text/text.go:22-33 | storing notes never changes what another note's id leads to |
| `Notes.HoldsLoads` | task/task.go:121-146 | a task whose ids lead to its notes loads them |
| `Notes.RunHolds` | task/task.go:91-163 | in every run each live task's ids lead to the notes of its latest Store |
| `Notes.NotesSurvive` | task/task.go:91-148 | after any run of Store and Delete on any tasks, Load gives the notes of the latest Store, in order, duplicates included |
| `Notes.CollisionLoses` | task/task.go:186-190 | any collision of two texts gives a run that loses a note |
| `Notes.NotesSurviveIff` | task/task.go:91-206 | notes survive all runs if and only if the hash keeps texts apart |
| `Sessions.AuthStore.Find` | auth/auth.go:92-109 | collects exactly the user's tokens and refresh tokens |
| `Sessions.AuthStore.DisableUser` | auth/auth.go:144-170 | disables the login and removes what was found from all three buckets |
| `Sessions.AuthStore.Authorize` | rest/middleware/auth.go:73-241 | the three transactions of AuthUser, refresh included |
| `Sessions.StepAgrees` | auth/session.go:83-216 | login, refresh, logout, removal and restart keep a context for each session |
| `Sessions.RunAgrees` | auth/session.go:83-216 | and so does every run |
| `Sessions.SessionHasContext` | rest/middleware/auth.go:92-118 | the "valid session with no context" branches are unreachable |
| `Sessions.ServedIff` | rest/middleware/auth.go:73-241 | a request is served as its bearer's user if and only if the session lasts, whatever its refresh header holds, or is renewed in time; otherwise denied; and only a renewal changes anything, and only that session |
| `Sessions.LogOutEnds` | rest/token.go:86-114 | a logout in time ends its session and no other; its bearer is then denied |
| `Sessions.RestartEnds` | rest/rest.go:57-77 | after a restart nobody is served before logging in |
| `Sessions.RefreshServesIff` | rest/middleware/auth.go:119-233 | with an expired session a request is served, as the session's user, if and only if it brings any refresh token on record and the second check comes in time |
| `Sessions.ForeignRefreshServes` | auth/session.go:83-125 | a run in which the refresh token of one user refreshes the session of another |
| `Sessions.RemovedGone` | auth/auth.go:144-170 | after disabling, the login is disabled and no context, session or refresh token of the user is left |
| `Sessions.RemovedExactly` | auth/auth.go:92-170 | a removal takes the user, its contexts, their sessions and refresh tokens, and disables its login; nobody else's change |
| `Sessions.StaysGone` | rest/token.go:41-63 | no step undoes that or serves the user |
| `Sessions.RunPaired` | incept/incept.go:90-142 | in every reachable state each user has a login, and a login without its user is gone for good |
| `Sessions.DisableIsPermanent` | auth/auth.go:49-67 | once an existing login is disabled, in every later state it is disabled and no request is served as its user |
| `Sessions.LoginsIff` | incept/incept.go:90-142 | a login is there exactly if it was made, with a free name and, for an inception, a good ticket |
| `Sessions.PasswordKept` | auth/auth.go:69-85 | it keeps the password it was made with |
| `Sessions.UsersIff` | users/users.go:72-80 | a user is there exactly if its login was made and it was not removed since |
| `Sessions.UsersEnabled` | auth/auth.go:155-170 | a user that is there has an enabled login |
| `Sessions.LogInServesIff` | rest/token.go:31-83 | in every reachable state, a login with a new token gets requests served as that user while the session lasts, if and only if the user is there and the password is the one the login was made with |
| `Sessions.TicketsIff` | incept/incept.go:83-113 | a ticket is good exactly if issued and not dropped or used since |
| `Interleaving.AloneIsAuthUser` | rest/middleware/auth.go:73-241 | a request's transactions, with nothing in between, do what AuthUser does as one handler |
| `Interleaving.HandlerIsTxs` | rest/token.go:31-114 | every handler is some transactions with nothing in between |
| `Interleaving.FlyIff` | rest/middleware/auth.go:73-241 | where each transaction of a request leads, by what the database holds at that moment |
| `Interleaving.WritesIff` | auth/session.go:83-125 | a request writes only when it renews its session with a token still on record |
| `Interleaving.DoAgreesIff` | auth/session.go:83-125 | one transaction at a time: sessions and contexts stay in agreement if and only if no request refreshes a session whose context has gone meanwhile |
| `Interleaving.LostIff` | auth/auth.go:132-142 | over every interleaving: a context is missing if and only if a removal of its user has taken it since, or it was never there |
| `Interleaving.NoContextIff` | rest/middleware/auth.go:87-105 | AuthUser meets a valid session without context if and only if the removal of its user came between its CheckToken and its GetContext, or the session had none before; the latter only out of agreement |
| `Interleaving.LostHappens` | rest/middleware/auth.go:87-105 | a run of the former, in agreement all the while |
| `Interleaving.OrphanHappens` | rest/middleware/auth.go:119-233 | a run that refreshes such a session and meets it without context |
| `Interleaving.StaysDisabled` | auth/auth.go:155-170 | under every interleaving of transactions a disabled login stays so |
| `Interleaving.StaysFinished` | rest/token.go:41-63 | and with no login of the user between check and session, no context of the user ever appears |
| `Interleaving.DisableHoldsIff` | auth/auth.go:144-170 | under every interleaving of transactions: after a Disable no request is ever made one of the user, if and only if no login of the user was between its check and its session |
| `Interleaving.OvertakenHappens` | rest/token.go:41-63 | a run in which a login passes its check, is disabled, and is then served |
| `Sessions.UnknownComesBack` | auth/auth.go:155-163 | about auth.Disable itself: for a name without login it is not permanent, in any reachable state; no handler gets there |

## Left out

- HTTP routing, JSON, response codes, notifications, logging and start-up code.
- mangos, BoltDB and websocket internals: sockets are tapes and message sets, buckets are maps and sorted sequences, and a cursor is a position.
- Failures of the machine below (a full disk, a socket that cannot be made): dialing never fails, it makes a dialer that leads to whoever listens on the address, and a survey sent to nobody is a lost message.
- Wall-clock timeouts are events that may happen at any time; their lengths are not modelled.
- UUIDs are numbers; a new task or session gets an unused one. Password digests are injective on what they are given; for the hash behind note ids the exact condition is proved.
- Location pointers of Go times: completion and due times are compared as values.
- Escrow.EscrowHolds: handlers run one at a time. Interleaved PUTs can break escrow; `Escrow.StaleExact` is the exact statement for them. Stale POST and DELETE are not modelled: a POST has no older task, and a DELETE checks an owner that a PUT may have changed since.
- Rfc3339.KeyOrder: years beyond 9999 are outside RFC 3339, and offsets are whole minutes, as in the stored JSON.
- Streams beside each other: `Mesh` is about one stream. `Address.AddressesInjective` keeps slash-free stream ids other than `hangups` apart, as UUIDs are, and `Address.BusMeetsHangup` says exactly what collides without that.
- Sessions.SessionHasContext: handlers run one at a time. `Interleaving.NoContextIff` is the exact statement for interleaved transactions; `Interleaving.DoAgreesIff` is the one for agreement.
- Ledger.FrozenWhileComplete: handlers run one at a time. `Ledger.StaleFreezes` is the exact statement for stale PUTs.
- Ledger.OnlyOwnerReshapes: the same.
- The goroutines around a connection are state machines (`Hangup`, `ReadSend`). The receiving half (`hangupRecver.Recv`, `RecvWrite`) is not modelled, and of `WriteErrors` only that it takes errors until it stops.
- `AuthUser` without a contexter, `AuthWSUser` and the parsing of token headers: the same transactions, fewer or other inputs.
- Scribe `Checkin` and `Checkout`: the sequence never advances (`convo/scribe.go:71`), so they do not count references.
- Convo PUT and DELETE and stream DELETE: their hangup loops `break` at the first user without a bucket.
- `ClearRivers`, groups, filters, topics, sorting, migrations and error types.
- Deletion of orphaned texts: the code never does it.
