# A verified model of the RBFT consensus core

This project models, in Dafny, the consensus core of a PBFT-family replica and proves properties of
the model: agreement between replicas over every run with faulty participants, survival of committed
requests across view changes, in-order execution, checkpoint agreement, the weighted election and its
bookkeeping, epoch catch-up, and the wire codec. Check it with `dafny verify dfyconfig.toml`.

## How it is built

The agreement protocol comes in three layers.

- `Quorum`, `NewView`: quorum arithmetic; the rule by which a new view gives every sequence number a
  request, stated declaratively, and the program's nested loops proved to compute it.
  `NewViewDecided` proves when the rule decides every number, `NewViewSenders` which lists of bases
  preserve commits.
- `Replica`: one replica's stores as a value, with each handler split into its atomic steps. `Protocol` puts the
  honest replicas together: a message is accepted only if its sender sent it, and faulty replicas may
  send anything at any time. Each replica's `History` records what it sent and accepted; together
  the histories are the growing set of messages. No step reads them to decide anything but whether a
  message was sent.
- `ReplicaInv` states what a replica keeps; `ReplicaKeeps` and `ReplicaViewKeeps` prove it step by
  step; `ProtocolKeeps` lifts it to the system and to every reachable state. `Agreement`, `Liveness`,
  `ViewChanges` and `CheckpointReports` hold the main results. `SmallViews`, `Scenes` and `Rounds` take
  steps one by one in a system of four replicas (`FourExists`); `NullRun`, `WindowRun`, `SendersRun` and
  `UncheckedRun` (with `TwoViews`), `StuckRun` and `DoubleRun` use them for the runs at which the results
  find their limits: each condition of a main result has a run that fails without it.
- `Handlers` and `NewViewHandlers` say what each handler does as a relation; `Stores` is the class that holds the stores
  and updates them in place, its map loops visiting keys in any order. `Progress` proves what the
  handlers get done (votes counted, prepares and commits sent, blocks executed, nothing left that could
  be), `Refinement` that whatever they do is a run of the protocol, so the results on runs hold of the class.

The other modules stand alone: `Checkpoints` (weak and stable checkpoint certificates), `Election`
and `ProposerRing` (weighted choice and the ring of recent proposers), `VotingPower` (punished and recovered powers),
`EpochSync` (paged epoch proofs), `Wire`, `WireUnknown` and `WireMethods` (the codec of two messages).

## What the results assume

- At most F of N >= 4 replicas are faulty; senders are authenticated; one epoch, starting at height 0
  with a genesis checkpoint; the primary of a view is a fixed validator (rotation is one such election).
- A vote is identified by its sender. `ckptAt` is the set of checkpoint heights: multiples of the period and the
  epoch's last block. Any local checkpoint may become stable at any time, which allows more than the
  program does. A replica that waits for a checkpoint block takes no other step, as events are then
  cached (rbft_impl.go:576-612).
- A new view that a replica processes passes the check (`CheckedSteps`); the results on agreement also
  ask that no few senders dominate its list (`GuardedSteps`). Where either fails is listed below.

Where the code falls short of the plain property, the failing case and the condition are proved:

- Senders of a new view. A backup recomputes a new view from the list of bases it received and counts
  entries; it never compares their senders (viewchange_mgr.go:752-860, 1026-1103). A faulty primary can
  repeat its own basis: `RepeatedSenderPasses` gives that list, which passes the check and assigns
  nothing. `SafeSendersIff` is the exact condition on the senders of a list, in both directions. The
  model's backups check what the program checks; agreement is stated for runs in which every new view
  entered meets the condition (`GuardedSteps`), and `SafeSendersAreNeeded` is a run in which one does not
  and two honest replicas hold committed certificates for different requests. One basis per sender
  meets it.
- Unchecked new views. A backup stores every new view it receives for its view (viewchange_mgr.go:741)
  and checks one of them; if it has to fetch batches first, what it processes when they arrive is
  whatever was stored last (viewchange_mgr.go:1042-1046, 1107-1109, 1315). `DoEnterLater` is that step,
  with any new view its primary sent; `CheckedSteps` says that what is processed passes the check, and
  `CheckIsNeeded` is a run in which it does not and agreement fails.
- Two announcements. The resend timer repeats a view change for the same view (exec.go:605-619), and
  that deletes the new view stored for it (viewchange_mgr.go:1386), which is what keeps a primary from
  announcing again (viewchange_mgr.go:633-639). So an honest primary can announce two new views for one
  view: `TwoArePrepared` is a run in which two honest replicas prepare different requests under one view
  and number, and `StuckAfterTwo` goes on to bases that decide nothing. Agreement does not depend on it.
  The other results ask, per view, that an honest primary announced once (`AnnouncedOnce`) or that
  prepare quorums share an honest backup without the primary (`BackupsOverlap`: 2Q > N+1+faulty), which
  `BackupsShareIff` proves exact. Without either, `UndisputedIffTop` and `AssignedWhateverIsAdded` say
  exactly which bases decide a number.
- Null requests. An executed null request is re-committed in later views without a new prepare
  (viewchange_mgr.go:1958-1989) and null requests at the top of a list are pruned
  (viewchange_mgr.go:1734-1741). For one new view the boundary is exact: `CommitPreserved` says when a
  committed null request stays, `NullCommitPruned` and `RepeatedCommitLost` give bases that lose a
  commit. For whole runs one half is proved: agreement holds for numbers at which no honest replica
  has executed a null request, and `DisagreementIsReachable` is a run in which one has and agreement
  fails; not every run that executes a null request breaks it. The code itself expects none
  (rbft_impl.go:1655-1656).
- Windows. Backups accept pre-prepares above the high watermark (rbft_impl.go:1121-1124), and a new
  view assigns h+1..h+L only. For one new view `CommitPreserved` proves that a committed number is
  assigned if and only if it is at most h+L. For whole runs one half is proved: agreement holds when
  honest commits for the number were sent inside the sender's own window, or when every new view
  entered covers it; `WindowIsNeeded` is a run in which neither holds and agreement fails.
- Stuck view changes. A primary broadcasts its new view before it has fetched missing batches
  (viewchange_mgr.go:710-723, 1012-1022), so it can leave a view without having processed its own new
  view, and then the bases of all honest replicas may yield none: `StuckIsReachable` is such a run.
  `NewViewDecidedIff` is the exact condition, which whoever collects the bases can check on them:
  F+1 of the Q sets back the P entry of the highest view, for every number. `NewViewNeverStuck` derives
  it when honest primaries processed each new view they announced.
- Views that go back. `BackwardView` says exactly when the voting powers stay well formed for a view
  below the current one, where punishing and recovering are both skipped.
- The ring of proposers. `RingSmallerIff` says exactly when the percentage leaves a candidate.
- Powers of zero. `ZeroPower` says for which residue a candidate without voting power is elected.
- Empty epoch proofs. `ProcessProof` crashes on one; no server sends one (`ReplyFollows`).

## Model

| member | source | states |
|---|---|---|
| Quorum.Ids | chain_config.go:313 | validators are numbered 1..N |
| Quorum.Rotation | chain_config.go:307-314 | rotation elects a validator for every view |
| Quorum.RotationTurns | chain_config.go:307-314 | view 0 belongs to the first validator, each next view to the next one, and the first again after the last |
| Quorum.FaultyIsLargest | chain_config.go:284 | F is the largest number of faulty validators with 3F + 1 <= N |
| Quorum.QuorumsOverlap | helper.go:100-105 | any two common-case quorums share at least F+1 replicas |
| Quorum.QuorumIsLeast | helper.go:100-105 | the common-case quorum is the least size at which any two sets of replicas share F+1 of them |
| Quorum.WeakHasHonest | helper.go:112-115 | F+1 replicas include an honest one |
| Quorum.WeakIsLeast | helper.go:112-115 | F+1 is the least size at which a set of replicas has an honest member, whoever the F faulty ones are |
| Quorum.QuorumsShareHonest | helper.go:100-105 | any two common-case quorums share an honest replica |
| Quorum.HonestQuorum | helper.go:100-115 | honest replicas alone can form a quorum, and every quorum holds F+1 of them |
| NewView.CheckCandidate | viewchange_mgr.go:1650-1695 | the two counting loops with their early exits decide exactly A1 and A2 for one P entry |
| NewView.CountNull | viewchange_mgr.go:1700-1722 | the count of bases that allow the null request |
| NewView.FindRequest | viewchange_mgr.go:1645-1698 | the scan finds the first entry that satisfies A1 and A2, or there is none |
| NewView.DecideSlot | viewchange_mgr.go:1645-1732 | one number gets a digest, the null request, or nothing |
| NewView.FillSlots | viewchange_mgr.go:1645-1732 | either every number of (h, h+L] is decided, or one can be given nothing |
| NewView.Prune | viewchange_mgr.go:1734-1741 | walking the map in any order deletes exactly the null requests from maxN on |
| NewView.RebuildList | viewchange_mgr.go:1743-1753 | the list is numbered h+1, h+2, ... as long as the map is large |
| NewView.KeptKeys | viewchange_mgr.go:1734-1753 | pruning leaves a gap-free range, so rebuilding by size loses nothing |
| NewView.AssignSequenceNumbers | viewchange_mgr.go:1640-1754 | the program refines the declarative rule: nil exactly when some number satisfies neither A nor null, else the gap-free list |
| NewView.FirstFromSome | viewchange_mgr.go:1645-1698 | what is chosen is the first P entry that satisfies A1 and A2 |
| NewView.FirstFromNone | viewchange_mgr.go:1645-1698 | when nothing is chosen no P entry of any basis satisfies A1 and A2 |
| NewView.SelectableIff | viewchange_mgr.go:1650-1695 | an entry satisfies A1 and A2 if and only if a quorum of bases that start below it hold no newer or equally new contradicting P entry and F+1 bases hold a Q entry for it that is at least as new |
| NewView.SlotIs | viewchange_mgr.go:1645-1732 | a number gets the first such entry; the null request exactly when there is none and a quorum of bases that start below it has no P entry for it |
| NewView.ListedIff | viewchange_mgr.go:1734-1753 | a number is listed if and only if it or a higher one is chosen for a real request or a higher one is chosen at all; it carries what was chosen, or the null request |
| NewView.SelectableIsCommitted | viewchange_mgr.go:1645-1698 | once a quorum committed d at n, only d can satisfy A1 and A2 there, in any list of bases that no few senders dominate |
| NewView.NullImpossible | viewchange_mgr.go:1700-1722 | once a quorum committed at n, the null request cannot win there in such a list |
| NewView.CommitPreserved | viewchange_mgr.go:1640-1754 | in such a list a committed number above the base is assigned exactly its digest; listed if and only if n <= h+L (a null request: if and only if a higher number is chosen) |
| NewView.NullCommitPruned | viewchange_mgr.go:1734-1741 | a concrete set of bases that all record a committed null request and yield the empty list |
| NewView.RepeatedCommitLost | viewchange_mgr.go:1958-1989 | bases of replicas that repeated a commit for another request after a null one: all back it in Q, and still nothing is assigned |
| NewView.OneIsSafe | components.go:332-335 | one basis per sender, as the primary's own store ensures, is such a list |
| NewViewSenders.SafeKeeps | viewchange_mgr.go:1026-1103 | a list that no few senders dominate keeps every commit it records |
| NewViewSenders.SafeSendersIff | viewchange_mgr.go:1026-1103 | a list of senders keeps every commit, for every faulty set and every content, if and only if no N-Q+F senders fill a quorum of it and no F senders fill F+1 entries |
| NewViewSenders.RepeatedSenderPasses | viewchange_mgr.go:752-860 | a list that repeats one sender's basis passes a backup's check, records any commit when that sender is faulty, and assigns nothing |
| NewView.CollectBasis | viewchange_mgr.go:1539-1558 | a checkpoint repeated inside one basis counts once |
| NewView.SelectInitialCheckpoint | viewchange_mgr.go:1530-1603 | whenever F+1 bases hold a checkpoint (a quorum if it changes the configuration) and a quorum of low watermarks is not above it, one at least as high is selected; what is selected is held so; signatures count as valid |
| NewView.QualifiesIff | viewchange_mgr.go:1566-1590 | such bases are what makes a checkpoint qualify, and nothing less does |
| NewView.InitialCheckpointUnique | viewchange_mgr.go:1566-1603 | with one weakly certified value per height the selection does not depend on map order |
| ReplicaKeeps.AcceptKeeps | rbft_impl.go:1084-1181 | accepting a pre-prepare keeps every fact a replica relies on about its stores and history |
| ReplicaKeeps.ProposeKeeps | batch_mgr.go:226-308 | so does proposing a batch |
| ReplicaKeeps.RecvPrepareKeeps | rbft_impl.go:1220-1271 | so does counting a prepare |
| ReplicaKeeps.SendPrepareKeeps | rbft_impl.go:1184-1217 | so does sending a prepare |
| ReplicaKeeps.SendCommitKeeps | rbft_impl.go:1309-1343 | so does sending a commit |
| ReplicaKeeps.RecvCommitKeeps | rbft_impl.go:1346-1422 | so does counting a commit |
| ReplicaKeeps.ExecuteKeeps | rbft_impl.go:1631-1697 | so does executing a block |
| ReplicaKeeps.ReportKeeps | rbft_impl.go:1824-1883 | so does the report of a checkpoint block |
| ReplicaViewKeeps.MoveWatermarksKeeps | rbft_impl.go:2288-2406 | so does moving the low watermark |
| ReplicaViewKeeps.StartViewChangeKeeps | viewchange_mgr.go:1361-1395 | so does starting a view change, or repeating it, which forgets the new view stored for it; P and Q lists still cover everything prepared and accepted above H |
| ReplicaViewKeeps.NewBasisInv | helper.go:510-583 | the basis gathered then accounts for all that was prepared and accepted in earlier views |
| ReplicaViewKeeps.AnnounceKeeps | viewchange_mgr.go:633-723 | announcing a new view keeps the facts, also when another one was announced for the view before |
| ReplicaViewKeeps.RaiseReachesBase | helper.go:626-672 | a replica that needs no state update has its low watermark at the base of the new view before it processes it |
| ReplicaViewKeeps.EnterKeeps | viewchange_mgr.go:1799-1957 | entering a new view keeps the facts |
| ReplicaKeeps.RecommitKeeps | viewchange_mgr.go:1958-1989 | so does repeating the commit for a number already executed |
| ProtocolKeeps.CertsBacked | helper.go:139-169 | prepared and committed certificates stand for quorums of prepares and commits that were really sent |
| ProtocolKeeps.BaseIsCheckpoint | viewchange_mgr.go:1530-1603 | the base of a new view whose list no few senders dominate is a checkpoint height some honest replica holds |
| ProtocolKeeps.StepKeeps | rbft_impl.go:615-700 | every step of every honest replica keeps the invariant of the whole system, when a new view that is processed passes the check |
| ProtocolKeeps.ReachableInv | rbft_impl.go:615-700 | the invariant holds after all such steps from the start of the epoch, whatever faulty replicas send and whatever lists of senders pass |
| ProtocolKeeps.RunKeeps | rbft_impl.go:615-645 | every such run keeps the system invariant |
| ProtocolKeeps.GuardedInv | viewchange_mgr.go:1026-1103 | after steps whose new views also have lists that no few senders dominate, what is accepted in a view lies above its base and the low watermark is not below it |
| Protocol.ReachesOn | rbft_impl.go:615-645 | what a run leads to from a reached state is reached |
| Agreement.FirstCommittersPrepared | viewchange_mgr.go:1958-1989 | in the lowest committing view every honest committer had prepared, when no null request was executed there: repeated commits need an earlier commit |
| Agreement.CommitInsideWindow | viewchange_mgr.go:1580-1590 | the quorum of low watermarks brings a number committed inside its window into the window of every later view |
| Agreement.AcceptedAfterCommit | viewchange_mgr.go:1799-1991 | after the lowest committing view honest replicas accept only the committed digest for the number (guarded new views, no null request executed there, the number inside the windows) |
| Agreement.CommitQuorumsAgree | helper.go:156-169 | two commit quorums for one number, in whatever views, carry the same digest (guarded new views, no null request executed there, the number inside the windows) |
| Agreement.CommittedCertificatesAgree | helper.go:104-169 | agreement over every guarded run: committed certificates of honest replicas for one number hold the same non-empty digest, when no honest replica executed a null request there and the number is inside the windows |
| NullRun.DisagreementIsReachable | viewchange_mgr.go:1958-1989 | a run after which two honest replicas hold committed certificates for different requests under one number inside the windows, because a null request was executed there |
| WindowRun.WindowIsNeeded | rbft_impl.go:1121-1124 | a run after which two honest replicas hold committed certificates for different requests under the number above the window, with nothing executed |
| SendersRun.SafeSendersAreNeeded | viewchange_mgr.go:752-860 | a run of checked new views after which two honest replicas hold committed certificates for different requests under one number inside the windows, because the faulty primary repeated its own basis |
| UncheckedRun.OnlyFirstPasses | viewchange_mgr.go:1026-1103 | of the two new views of the next row only the one sent first passes the check |
| UncheckedRun.CheckIsNeeded | viewchange_mgr.go:741-744 | a run with lists of one basis per sender after which two honest replicas hold such certificates, because both processed a new view that took the place of the one they had checked |
| Agreement.CommitSurvivesNewView | viewchange_mgr.go:1640-1754 | in every reachable state, any list assigned from collected bases gives a committed number its digest (guarded new views, no null request executed there, the number inside the windows) |
| Agreement.ExecutionsAgree | rbft_impl.go:1631-1697 | what two honest replicas execute under one number is the same (guarded new views, no null request executed there, the number inside the windows) |
| Liveness.BackupPreparesOnce | rbft_impl.go:1111-1119 | an honest backup prepares one digest per view and number |
| Liveness.StandsForOne | batch_mgr.go:226-310 | an honest primary that announced once for a view stands for one digest per number of it |
| Liveness.BackupsShareIff | helper.go:139-152 | two quorums of prepares for an honest primary always share an honest backup if and only if 2Q > N+1+faulty |
| Liveness.BackedDigestUnique | helper.go:139-152 | prepare quorums for one view and number carry one digest, if an honest primary of the view announced once or the quorums overlap without it |
| Liveness.PreparedCertificatesAgree | helper.go:104-152 | over every checked run no two honest replicas are prepared for different digests under one view and number, if an honest primary of the view announced once or the quorums overlap without it |
| DoubleRun.TwoArePrepared | viewchange_mgr.go:1386 | a run after which two honest replicas are prepared for different requests under one view and number, because the honest primary repeated its view change, forgot its new view and announced another one |
| DoubleRun.StuckAfterTwo | viewchange_mgr.go:633-639 | and on from there, the bases of all honest replicas for the next view assign nothing, although the primary processed its last announcement |
| Liveness.PreparedIsBacked | viewchange_mgr.go:1680-1692 | what an honest replica prepared is backed by the Q entries of F+1 honest bases, when honest primaries processed each new view they announced |
| NewViewDecided.SlotDecidedIff | viewchange_mgr.go:1645-1732 | a quorum of bases decides a number if and only if it has no P entry, or one that no P entry contradicts and F+1 Q sets back |
| NewViewDecided.AssignmentIff | viewchange_mgr.go:1640-1754 | a quorum of bases yields a new view if and only if that holds of every number of the window |
| NewViewDecided.MoreBasesDecide | viewchange_mgr.go:1645-1732 | further bases, whatever they say, leave a decided number decided |
| NewViewDecided.AssignedWhateverIsAdded | viewchange_mgr.go:1640-1754 | a quorum yields a new view whatever bases join it if and only if, for every number, its P entries of the highest view agree and F+1 of its Q sets back them |
| NewViewDecided.UndisputedIffTop | viewchange_mgr.go:1650-1695 | a number is undisputed if and only if its P entries of the highest view agree and F+1 Q sets back them |
| NewViewDecided.UndisputedIffTopBacked | viewchange_mgr.go:1650-1695 | where entries of one view agree, undisputed means that F+1 Q sets back the entry of the highest view |
| Liveness.HonestEntriesAgree | helper.go:482-506 | honest bases never report two digests for one view and number, if the earlier views are ones in which prepared digests are unique |
| Liveness.NewViewDecidedIff | viewchange_mgr.go:1640-1754 | in every state of a checked run with such earlier views a quorum of honest bases yields a new view, whatever bases join it, if and only if F+1 of its Q sets back the entry of the highest view for every number of the window |
| Liveness.NewViewNeverStuck | viewchange_mgr.go:1645-1732 | in every state of a checked run in which honest primaries processed each new view they announced, the bases of all honest replicas decide every number whatever the other bases say |
| StuckRun.LaggingSenders | viewchange_mgr.go:727-750 | the bases of the next rows come from all honest replicas, one each |
| StuckRun.LaggingBasesStuck | viewchange_mgr.go:1645-1732 | these bases assign nothing |
| StuckRun.StuckIsReachable | viewchange_mgr.go:710-723 | steps after which all honest replicas have sent these bases for one view, so that no list can be assigned from them (in the run a primary lacks the batch of the view it announced, and leaves it before processing it) |
| ViewChanges.CorrectViewChange | viewchange_mgr.go:1400-1418 | the check accepts exactly the bases whose P and Q views are below theirs, numbers above H and checkpoints at or above H |
| ViewChanges.HonestViewChangeAcceptable | helper.go:510-583 | every basis an honest replica sends passes that check, in every state of a checked run |
| ViewChanges.PSetUnique | helper.go:482-506 | calcPSet has one result per state, whatever the map order |
| ViewChanges.QSetUnique | helper.go:452-476 | calcQSet has one result per state, whatever the map order |
| ViewChanges.BasisHoldsMaximum | helper.go:482-506 | a P set covers everything its sender ever prepared above its low watermark, in every state of a checked run |
| ViewChanges.RunAdvances | helper.go:510-550 | over every run views and low watermarks never go back, executed blocks are only appended, and P and Q entries above H are never lost nor lowered |
| ViewChanges.CheckpointBarrier | rbft_impl.go:1724-1727 | between a checkpoint block and its report nothing changes, over any run |
| ViewChanges.StoresAboveWatermark | rbft_impl.go:2288-2406 | in every state of a checked run certificates, P and Q entries lie above H and local checkpoints at or above it |
| ViewChanges.ExecutionInOrder | rbft_impl.go:1724-1780 | in every state of a checked run blocks are executed as 1, 2, 3, ..., each committed by a quorum |
| Handlers.ReadyUnique | rbft_impl.go:1728-1768 | at most one pending certificate can be executed next |
| Handlers.SettlesUnique | rbft_impl.go:1631-1697 | what is executed does not depend on the order in which pending certificates are walked |
| Handlers.ExecutedAll | rbft_impl.go:1631-1697 | executing appends exactly the chosen blocks |
| Handlers.StopsAtCheckpoint | rbft_impl.go:1775-1795 | a checkpoint block is the last one executed before its report |
| Handlers.EvictedAll | rbft_impl.go:2296-2307 | the order in which certificates are removed does not matter |
| Progress.CommitIsCounted | rbft_impl.go:1373-1395 | a legal commit is counted |
| Progress.CommitExecutes | rbft_impl.go:1397-1406 | the commit that completes the quorum for the next block, whose batch is here, executes it |
| Progress.CommitLeavesNothing | rbft_impl.go:1631-1697 | after handling a commit nothing is left that could be executed |
| Progress.PreparedIsCommitted | rbft_impl.go:1274-1343 | a prepared certificate gets the replica's commit, sent and counted |
| Progress.PrepareGetsDone | rbft_impl.go:1220-1271 | a new legal prepare is counted, and one that completes the quorum is followed by the commit |
| Progress.PrepareLeavesNothing | rbft_impl.go:1220-1343 | nothing executable is left after handling a prepare |
| Progress.PrePrepareOutcome | rbft_impl.go:1091-1150 | when a pre-prepare is ignored, when the primary is suspected and when it is accepted, exactly |
| Progress.PrePrepareGetsDone | batch_mgr.go:345-393 | an accepted pre-prepare is kept, its batch taken from the pool, and with the batch here the prepare is sent and counted, and the commit if that completes the quorum |
| Progress.PrePrepareLeavesNothing | rbft_impl.go:1084-1181 | nothing executable is left after handling a pre-prepare |
| Progress.EnteringIs | viewchange_mgr.go:1799-1925 | what a new view assigns above the low watermark is pre-prepared, nothing else changes, and the next number follows the last listed or executed one |
| Progress.AllResentDone | viewchange_mgr.go:1927-1991 | after the second loop a backup has prepared everything listed above its low watermark, and what was executed of it is committed again |
| Handlers.PSetStep | helper.go:489-503 | visiting one more certificate keeps the P set maximal |
| Handlers.QSetStep | helper.go:459-473 | visiting one more certificate keeps the Q set maximal |
| Handlers.ProposalsConsecutive | batch_mgr.go:245-308 | proposals stay inside the window and the epoch and stop only at their ends, when the queue is empty or when another number of the view has the next batch |
| Handlers.ProposedArePrePrepared | batch_mgr.go:291-306 | each proposed batch is pre-prepared under its number |
| Handlers.ProposedOnce | batch_mgr.go:285-289 | a batch is proposed only if no other number of the view has it, and no two numbers get the same one |
| Handlers.LeftOverIs | batch_mgr.go:263-308 | what stays queued is everything not proposed, except a repeated batch for which there was room |
| Handlers.ProposedNumbers | batch_mgr.go:291-308 | queued batches get consecutive numbers in queue order |
| Handlers.RetainTarget | rbft_impl.go:2311-2330 | for every checkpoint period no batch among the last min(n, cache size) numbers is dropped |
| Handlers.RetainTargetIs | rbft_impl.go:2311-2330 | batches are kept from the start of the period before the current one, or from the cache size below n, whichever keeps more |
| Handlers.MoveClears | rbft_impl.go:2288-2406 | raising the low watermark clears exactly what is at or below it, and local checkpoints below it |
| Handlers.ViewChangeClears | viewchange_mgr.go:1386-1395 | a view change clears exactly the certificates of earlier views with their numbers and the new view stored for the view changed to |
| Stores.StoreManager.constructor | store_mgr.go:107-125 | empty stores are the initial state of the protocol |
| Stores.StoreManager.GetCertificate | store_mgr.go:151-167 | returns the certificate, creating an empty one when missing |
| Stores.StoreManager.FindNextCommitBatch | rbft_impl.go:1724-1772 | finds a certificate that can be executed next, in any order, or there is none |
| Stores.StoreManager.CommitPendingBlocks | rbft_impl.go:1631-1697 | executes until nothing is ready; terminates because the pending set shrinks |
| Stores.StoreManager.AfterCommitBlock | rbft_impl.go:1775-1795 | records the execution and starts waiting at a checkpoint height |
| Stores.StoreManager.HandleCommit | rbft_impl.go:1346-1422 | a legal commit is counted; one that completes the quorum for the next block executes it; nothing executable is left |
| Stores.StoreManager.MaybeSendCommit | rbft_impl.go:1274-1343 | a prepared certificate gets the replica's commit exactly once |
| Stores.StoreManager.HandlePrepare | rbft_impl.go:1220-1271 | a repeated prepare changes nothing, a new one is counted, and one that completes the quorum is followed by the commit; nothing executable is left |
| Stores.StoreManager.SendPrepare | rbft_impl.go:1184-1217 | the replica's own prepare is counted like any other |
| Stores.StoreManager.HandlePrePrepare | rbft_impl.go:1084-1181 | a pre-prepare is ignored exactly when it does not come in time, refused with suspicion of the primary when it contradicts, else accepted, and prepared when the batch is here or in the pool |
| Stores.StoreManager.FindNextPrepareBatch | batch_mgr.go:314-393 | prepares when the batch is stored or in the pool, else fetches or suspects |
| Stores.StoreManager.CalcPSet | helper.go:482-506 | per number an entry of the highest view among the old list and the prepared certificates |
| Stores.StoreManager.CalcQSet | helper.go:452-476 | per number and digest the highest view among the old list and the pre-prepared certificates |
| Stores.StoreManager.ClearCertificates | helper.go:535-546 | exactly the certificates of earlier views leave the store and seqMap, and the recent ones stay in the cache |
| Stores.StoreManager.CleanCommittedCertCache | store_mgr.go:127-137 | the cache keeps exactly the numbers within its size of the given height |
| Stores.StoreManager.GatherPQC | helper.go:553-583 | the basis holds exactly the P and Q entries at or above H and all local checkpoints |
| Stores.StoreManager.SendViewChange | viewchange_mgr.go:292-368 | is one view-change step of the protocol to the next view |
| Stores.StoreManager.ResendViewChange | exec.go:605-619 | is one view-change step to the same view, which forgets the new view stored for it |
| Stores.StoreManager.SendNewView | viewchange_mgr.go:631-723 | announces exactly what the collected bases assign, unless the store holds a new view, no checkpoint qualifies, a number can be given nothing or the base is out of reach; what it announces passes a backup's check |
| Stores.StoreManager.RecheckNewView | viewchange_mgr.go:1026-1083 | accepts exactly a list that equals the one computed again from the bases of the new view |
| NewViewHandlers.PassesCheckIff | viewchange_mgr.go:1026-1083 | a new view passes exactly when it starts from a highest checkpoint that qualifies among its bases and carries the list they assign, no longer and no shorter |
| Stores.StoreManager.HandleBlockExecuted | rbft_impl.go:1824-1883 | only the report of the block waited for ends the wait and leaves a local checkpoint with the reported digest |
| Stores.StoreManager.MoveCertificates | rbft_impl.go:2296-2308 | certificates up to n go to the cache, which keeps exactly the recent ones |
| Stores.StoreManager.MoveWatermarksTo | rbft_impl.go:2288-2406 | H moves to n and never back; of the received checkpoints exactly those above n stay, of the batches exactly those above the retention target; certificates and P/Q entries are above n, recent certificates are cached |
| Stores.StoreManager.CheckIfNeedStateUpdate | helper.go:626-672 | a state update is needed exactly when the local checkpoint at the base differs, or without one when the base is not executed yet; otherwise the low watermark moves to a base held locally |
| Stores.StoreManager.PrePrepareAll | viewchange_mgr.go:1799-1925 | the first loop pre-prepares exactly the listed numbers above H |
| Stores.StoreManager.ResendAll | viewchange_mgr.go:1927-1991 | the second loop sends the prepares of the list and repeats the commits of executed numbers, with all they trigger |
| Stores.StoreManager.EnterNewView | viewchange_mgr.go:1799-1991 | both loops run: every listed number above H is pre-prepared, prepared by a backup, and committed again as far as it was executed |
| NewViewHandlers.AcceptedAll | viewchange_mgr.go:1799-1925 | pre-preparing numbers one by one sets exactly their certificates |
| NewViewHandlers.NextNumber | viewchange_mgr.go:1910-1925 | the number the first loop ends with is the last one listed, or the last one executed if that is higher |
| NewViewHandlers.ResentStays | viewchange_mgr.go:1927-1991 | resending one number, with all it triggers, keeps the view, the low watermark and every pre-prepared certificate |
| Stores.StoreManager.FindExistedDigest | store_mgr.go:171-186 | finds whether another number already has the digest in this view |
| Stores.StoreManager.SendCached | batch_mgr.go:245-308 | proposes from the cache in order until the window is full, and keeps what is left |
| Stores.StoreManager.MaybeSendPrePrepare | batch_mgr.go:226-308 | a new batch goes first; outside the window it waits in the cache, at the end of the epoch it goes back to the pool |
| Refinement.GuardsMeet | store_mgr.go:191-286 | a step is enabled exactly when the replica's own check passes and the message was sent |
| Refinement.LocalIsRun | rbft_impl.go:615-645 | steps of one replica are a run of the system |
| Refinement.PrePrepareRefines | rbft_impl.go:1084-1181 | handling a pre-prepare with all it triggers is a run of the protocol |
| Refinement.PrepareRefines | rbft_impl.go:1220-1306 | so is handling a prepare |
| Refinement.CommitRefines | rbft_impl.go:1346-1422 | so is handling a commit |
| Refinement.ViewChangeRefines | exec.go:605-619 | so is sending a view change, for the next view or again for the same |
| Refinement.AnnounceRefines | viewchange_mgr.go:631-723 | so is announcing a new view |
| Refinement.NewViewRefines | viewchange_mgr.go:1799-1991 | so is entering a new view that passes the check, with both loops and whatever they trigger |
| Refinement.ProposalsRefine | batch_mgr.go:226-308 | so is proposing a queue of batches |
| Refinement.CommitOrderIrrelevant | rbft_impl.go:1631-1697 | handling a commit has one result whatever the map order |
| Checkpoints.WeakResultUnique | helper.go:274-330 | the result does not depend on the order in which messages are visited |
| Checkpoints.WeakResultIs | helper.go:274-330 | a certificate names exactly who sent its value, F+1 or more; where F+1 agree it is found unless the height is inconsistent; more than F+1 values are inconsistent |
| Checkpoints.InconsistentMeansDisagreement | helper.go:289-334 | an inconsistent height proves that two honest replicas sent different values |
| Checkpoints.CertifiedIsHonest | helper.go:316-340 | a value with F+1 authors was computed by an honest replica |
| Checkpoints.StableCheckpointsAgree | rbft_impl.go:2012-2025 | two honest replicas with quorum-sized sets at one height hold the same hash |
| Checkpoints.HonestAgreementKept | helper.go:289-334 | while honest replicas agree, faulty ones can never make a height inconsistent |
| Checkpoints.StableWhenAllReport | rbft_impl.go:2012-2025 | once all honest replicas reported there is a quorum for their value |
| CheckpointReports.BookRun | rbft_impl.go:1824-1883 | over every run each signed checkpoint is what the application computes from the requests its signer executed up to that height |
| CheckpointReports.SignedAgree | rbft_impl.go:1824-1883 | with a deterministic application honest replicas sign one digest per height, because their executions agree |
| CheckpointReports.CertifiedIsSigned | helper.go:238-359 | in every reachable state what a replica finds for a height is the digest the honest ones sign, or nothing yet, and never inconsistent |
| CheckpointReports.CertificatesAgree | helper.go:316-340 | over every run any two certificates of F+1 checkpoints for one height carry the same digest |
| Checkpoints.CountValues | helper.go:274-320 | the loop with its early exit counts values and signers exactly |
| Checkpoints.FindWeakSet | helper.go:268-359 | a non-empty set is returned only when exactly one hash has F+1 authors, and holds all its signers |
| Checkpoints.CheckpointStore.CompareCheckpointWithWeakSet | helper.go:238-359 | a message at or below H is ignored, any other replaces its author's earlier one and is judged with the rest; a differing local checkpoint is illegal |
| Checkpoints.ComparisonIs | helper.go:238-359 | the matching checkpoints are all those for one value that F+1 sent and the local one does not contradict; a local one that differs from such a value is illegal; before that the answer is legal with none |
| Checkpoints.QuorumConfirmsLocal | rbft_impl.go:2022-2040 | a quorum of matching checkpoints confirms the replica's own one |
| Election.CumulativeIncreases | chain_config.go:69-78 | running totals of positive powers increase strictly |
| Election.BinarySearch | chain_config.go:327-340 | returns the least index whose number is at least the target (some equal one among duplicates) |
| Election.ResidueOwned | chain_config.go:80-83 | every residue below the total chooses a node, also with powers of zero |
| Election.OwnedInterval | chain_config.go:69-83 | a node owns the residues from just above the previous total up to its own |
| Election.ShareIsExact | chain_config.go:69-83 | counting all residues a middle node owns exactly its power, the first one more, the last one fewer |
| Election.SortedUnique | chain_config.go:57-67 | the sorted list of candidates does not depend on map order |
| Election.Cumulate | chain_config.go:69-78 | the accumulated list holds the running totals and the total |
| Election.SelectNode | chain_config.go:49-84 | the chosen node owns the residue of the seed hash; with powers of zero it is one whose running total fits; a zero total fails |
| Election.ZeroPower | chain_config.go:69-83 | a candidate without power can be chosen for exactly one residue, its running total |
| Election.OneElected | chain_config.go:57-83 | all replicas elect the same candidate for a residue, however the candidates were collected |
| ProposerRing.WindowSlides | chain_config.go:185-204 | adding the next block to a window and dropping the oldest gives the next window |
| ProposerRing.WindowIs | chain_config.go:164-183 | the window holds exactly the blocks of the epoch that are not r or more behind the last one |
| ProposerRing.AddStep | chain_config.go:185-195 | overwriting one slot of the ring is one slide of the window |
| ProposerRing.HeldBlocks | chain_config.go:186-193 | the slots hold exactly the blocks of the window |
| ProposerRing.BlockProcessorTracker.AddBlock | chain_config.go:185-204 | the id set becomes the proposers of the last recentBlockNum blocks; start and end stay those of the window |
| ProposerRing.BlockProcessorTracker.ResetRecentBlockNum | chain_config.go:151-183 | the window becomes the last blocks of the epoch, whether taken from the old ring or the ledger |
| ProposerRing.TrackingIsRebuilding | chain_config.go:151-204 | tracking block by block equals a rebuild from the ledger |
| ProposerRing.RingSmallerIff | chain_config.go:357-366 | the ring is smaller than the validator set if and only if the percentage asks for at most as many blocks |
| ProposerRing.RecentNumIs | chain_config.go:357-366 | the ring size is the percentage of the validators rounded down, at least one, and one fewer than the validators where it would be all |
| ProposerRing.CandidateRemains | chain_config.go:290-304 | with percentage <= 100 and at least four validators the election keeps a candidate |
| VotingPower.PunishEntries | viewchange_mgr.go:136-164 | after punishing, an entry is what it was or inactive since a punished view |
| VotingPower.UnstableWellFormed | viewchange_mgr.go:136-202 | every view reached has exactly the validators, each at full power or inactive for less than the exclusion window |
| VotingPower.BackwardView | viewchange_mgr.go:136-182 | for a view below the current one that holds if and only if no reduction of the stable map has expired or lies ahead |
| VotingPower.FailedPrimaryInactive | viewchange_mgr.go:144-164 | the primary of every view from the last stable one up to the new one, in a recovery up to the one before it, is inactive inside the exclusion window |
| VotingPower.PunishedIff | viewchange_mgr.go:144-164 | punishing changes an entry if and only if its node was elected for a punished view |
| VotingPower.OthersKeepPower | viewchange_mgr.go:136-182 | a node elected for no failed view keeps its entry, or is back at full power when its exclusion has expired |
| VotingPower.ChainConfig.PunishAbnormalNodes | viewchange_mgr.go:136-164 | punishes the primaries of the views since the last stable one, in order |
| VotingPower.ChainConfig.RecoverAbnormalNodes | viewchange_mgr.go:167-181 | restores exactly the entries whose exclusion expired, in any order |
| VotingPower.ChainConfig.GetUnstable | viewchange_mgr.go:228-261 | the map of a view from a copy of the stable one |
| VotingPower.ChainConfig.SetView | viewchange_mgr.go:184-224 | the map is a function of the stable map and the view, for a view below the current one the stable map itself; it stays well formed for views not below the current one, and for others exactly when no reduction has expired or lies ahead |
| VotingPower.ChainConfig.PersistNewView | persist.go:462-487 | the new view and its map become the stable ones; everything is well formed if and only if that map is |
| VotingPower.PathIndependent | viewchange_mgr.go:184-202 | stepping through views or jumping to the last gives the same map |
| EpochSync.PageEnd | epoch_mgr.go:395-401 | a page ends at the target or is full |
| EpochSync.VerifyRequest | epoch_mgr.go:380-391 | a request is legal exactly when start < target <= own epoch |
| EpochSync.PagingGetProof | epoch_mgr.go:394-426 | the proof holds the consecutive epochs of the page, fails exactly when one is missing, and names the target when more remains |
| EpochSync.ProcessRequest | epoch_mgr.go:318-345 | a legal request whose epochs are there is answered with at most 100 consecutive ones, and the target when more remain; any other with nothing |
| EpochSync.VerifyProof | epoch_mgr.go:428-473 | accepts exactly when the first change that is not stale is for the current epoch, and cuts the stale prefix |
| EpochSync.ProcessProof | epoch_mgr.go:348-377 | ignores proofs that reach no later epoch or have another genesis block, and crashes on an empty one |
| EpochSync.ProcessedIs | epoch_mgr.go:348-377 | crashes exactly on an empty proof, ignores exactly one of another genesis block or one that leads no further, accepts exactly one whose first change that is not stale is for the current epoch, and cuts the rest |
| EpochSync.ForeignProof | epoch_mgr.go:357-361 | a proof of another genesis block never moves the replica |
| EpochSync.PageProcessed | epoch_mgr.go:348-473 | a reply to an older request is cut to start at the current epoch, a stale one ignored, one that starts later refused |
| EpochSync.ReplyFollows | epoch_mgr.go:348-473 | processing any server's reply, however old, keeps the replica on the ledger and never crashes it |
| EpochSync.NoGapNoRepeat | epoch_mgr.go:348-473 | whatever replies are processed in whatever order, the replica passes consecutive epochs with no gap and no repeat |
| EpochSync.CatchUp | epoch_mgr.go:318-473 | rounds of request, reply and processing reach the target exactly when there were at least ceil(distance / 100) of them, and bring every change on the way once and in order |
| EpochSync.RoundAdvances | epoch_mgr.go:318-473 | one round with a server that has the epochs brings exactly the next page |
| Wire.SovIsLength | common/consensus/fltTransaction_vtproto.pb.go:2112-2114 | sov gives the length of the varint |
| Wire.VarintRoundTrip | common/consensus/fltTransaction_vtproto.pb.go:2582-2597 | every 64-bit varint is read back |
| Wire.VarintFails | common/consensus/fltTransaction_vtproto.pb.go:2582-2597 | ten bytes that do not end are an overflow, fewer are cut off |
| Wire.TopBitsLost | common/consensus/fltTransaction_vtproto.pb.go:2582-2597 | bits beyond the 64th are lost |
| Wire.TagFails | common/consensus/fltTransaction_vtproto.pb.go:2595-2601 | a tag that ends a group or has no positive number is refused, any other is read |
| Wire.LengthFails | common/consensus/fltTransaction_vtproto.pb.go:2615-2641 | a length beyond the signed numbers is invalid, one beyond the data is cut off |
| Wire.FieldReads | common/consensus/fltTransaction_vtproto.pb.go:2611-2645 | a length-delimited field is read back with its tag |
| Wire.ParticipantRoundTrip | common/consensus/fltTransaction_vtproto.pb.go:2574-2692 | a Participant without unknown fields is read back from its encoding |
| Wire.NonHashRoundTrip | common/consensus/fltTransaction_vtproto.pb.go:3681-3850 | a NonHash without unknown fields is read back, for every 64-bit nonce |
| WireUnknown.NestedSkipped | common/consensus/fltTransaction_vtproto.pb.go:3852-3921 | skipping passes exactly one field, with all the groups in it |
| WireUnknown.ParticipantKeepsUnknown | common/consensus/fltTransaction_vtproto.pb.go:2574-2692 | a Participant is read back with whatever unknown fields it carries |
| WireUnknown.NonHashKeepsUnknown | common/consensus/fltTransaction_vtproto.pb.go:3681-3850 | so is a NonHash |
| WireMethods.EncodeVarint | common/consensus/fltTransaction_vtproto.pb.go:1237-1247 | writes the varint into the place that ends at the offset and nothing else |
| WireMethods.PutFields | common/consensus/fltTransaction_vtproto.pb.go:790-798 | a repeated field written from its last element back stands in order |
| WireMethods.SizeOfParticipant | common/consensus/fltTransaction_vtproto.pb.go:1912-1930 | the size is the length of the encoding |
| WireMethods.SizeOfNonHash | common/consensus/fltTransaction_vtproto.pb.go:2085-2110 | the size is the length of the encoding |
| WireMethods.MarshalParticipantTo | common/consensus/fltTransaction_vtproto.pb.go:779-808 | the encoding fills the end of the buffer and nothing else changes |
| WireMethods.MarshalNonHashTo | common/consensus/fltTransaction_vtproto.pb.go:1194-1235 | the encoding fills the end of the buffer and nothing else changes |
| WireMethods.MarshalParticipant | common/consensus/fltTransaction_vtproto.pb.go:761-772 | a buffer of exactly SizeVT bytes holds the encoding |
| WireMethods.MarshalNonHash | common/consensus/fltTransaction_vtproto.pb.go:1176-1187 | a buffer of exactly SizeVT bytes holds the encoding |
| WireMethods.ReadVarint | common/consensus/fltTransaction_vtproto.pb.go:2582-2597 | the varint loop, with truncation at 64 bits, overflow after ten bytes and end of input |
| WireMethods.ReadBytes | common/consensus/fltTransaction_vtproto.pb.go:2615-2641 | a length and its bytes, with the errors for negative lengths, overflow and end of input |
| WireMethods.Skip | common/consensus/fltTransaction_vtproto.pb.go:3852-3921 | passes one unknown field, counting nested groups |
| WireMethods.UnmarshalParticipant | common/consensus/fltTransaction_vtproto.pb.go:2574-2690 | the loop decodes as the function does, errors included |
| WireMethods.UnmarshalNonHash | common/consensus/fltTransaction_vtproto.pb.go:3681-3850 | the loop decodes as the function does, errors included |
| WireMethods.ParticipantThroughTheWire | common/consensus/fltTransaction_vtproto.pb.go:761-808 | marshalling and unmarshalling gives the message back, unknown fields included |
| WireMethods.NonHashThroughTheWire | common/consensus/fltTransaction_vtproto.pb.go:1176-1235 | marshalling and unmarshalling gives the message back, unknown fields included |

## Left out

- Stores.StoreManager.EnterNewView: the break at a config batch and skipped numbers without a batch are not modelled; the batches of the list are present, as the program fetches them first, and rebuilding a batch from the pool, whose failure starts another view change, succeeds.
- Replica.MoveWatermarks: the bookkeeping of outstanding and missing batches and the removal of batches from the request pool are not modelled.
- Agreement.CommittedCertificatesAgree: over whole runs the conditions (checked new views, their senders, null requests, windows) are sufficient, and each is shown needed by a run, but they are not the exact boundary, which would depend on the timing of later proposals; AcceptedAfterCommit, CommitQuorumsAgree, CommitSurvivesNewView and ExecutionsAgree share them.
- Protocol.PassesCheck: the comparison of the validators' dynamic info in a new view, and the signatures of its view changes, count as passed.
- Protocol.Apply: a new view is a map from numbers to digests, so a list processed unchecked cannot name a number twice; a backup that waits for batches may process what was stored last at any time.
- NewView.SelectInitialCheckpoint: signatures of the chosen checkpoint's signers count as valid, and the genesis digest comparison, which only logs, is absent.
- Checkpoints.CheckpointStore.CompareCheckpointWithWeakSet: the state transfer started by a differing local checkpoint and the stop on inconsistency are reported as an illegal result only; a checkpoint's hash and digest are one value.
- Stores.StoreManager.HandlePrePrepare: the view change that follows suspicion is a separate call; batch contents, the digest computation and the request pool's answer are parameters.
- Stores.StoreManager.HandleBlockExecuted: re-processing of cached events and the broadcast of the checkpoint are the caller's next steps.
- Election.SelectNode: starts from the candidates already sorted; the hash of the seed is a number, and powers are not negative.
- ProposerRing.BlockProcessorTracker.ResetRecentBlockNum: reading a block never fails.
- VotingPower.ChainConfig.SetView: asks that the stable map holds exactly the validators, for a primary missing from it the program reads a nil pointer.
- Stores.StoreManager.GatherPQC: marks every checkpoint as one that does not change the configuration, as inside one epoch none but the last block's does.
- EpochSync.ProcessProof: validator sets and signatures in the proof are not verified there by the program either; state transfer to the epoch that a proof reaches always succeeds.
- CheckpointReports.SignedAgree: the application is deterministic, a function of the requests executed so far.
- Wire.ParticipantRoundTrip: nil and empty byte strings are one value.
- Config batches, epoch change, state transfer, sync-state and single-node recovery: they reset counters or views from the application's ledger.
- Term rotation of the weighted election inside the protocol: only its arithmetic and bookkeeping are modelled, because there the primary also depends on the last checkpoint hash.
- Fetching of missing transactions and batches, de-duplication, the transaction pool, networking, storage, signatures, persistence and timers. A timeout is an always-enabled view change.
- Overflow of h+L and of sequence numbers in 64 bits; the codec models its 64-bit wrap-around explicitly.
- The test-only branches that report checkpoints recursively.
