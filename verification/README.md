# Hydrangea consensus: a verified model

This project models the Hydrangea consensus node, its certificates, its leader
schedules and its supporting queues in Dafny, and proves what they promise for
all inputs and all runs. `dafny verify dfyconfig.toml` checks everything.

The main results:

* **Agreement.** In every run of a network with at most f Byzantine nodes, any
  two blocks with Commit QCs lie on one chain (`Network.Agreement`), and of any
  two honest nodes on the slow path one has given its application a prefix of
  what the other has (`Replicas.OutputsAgree`). This holds if TCs have the
  view-change size and weak certificates are backed by votes for the block they
  name; the next two results settle what happens otherwise. In such runs, where
  parent rounds decrease, no assertion of the core fails either
  (`Replicas.AssertionsHold`).
* **When accepted TCs are safe.** A TC is assembled at the view-change threshold
  but accepted at the smaller ordinary quorum. Accepting the smaller size is
  safe if and only if k <= 1 or f = 0 (`Disagreement.AcceptedTcsSafe`). In all
  other cases, and for every leader schedule, `Disagreement.AcceptedTcsDisagree`
  builds a run in which a faulty leader sends such a TC and two conflicting
  blocks are committed.
* **When built weak certificates are safe.** `check_wqc` names a weak certificate
  after the first vote of its group but checks the signatures against the last, and it
  counts votes, not voters. A weak certificate is backed for the block it names if and
  only if its group passes a guard that the code lacks: the first and the last vote name
  one block, and there are f+p+1 distinct voters (`TimeoutCertificates.WeakCertificateSound`). As they are built, weak certificates
  keep all runs safe if and only if f = 0 (`Misnaming.BuiltWqcsSafe`): for every
  f >= 1 one faulty node's report makes the first TC that an honest maker assembles, from
  a view-change quorum of timeouts, lead to two conflicting commits
  (`Misnaming.BuiltWqcsDisagree`).
* **The node.** The imperative `Core`, with its mutually recursive handlers, terminates and
  gives every input the effect of its handler (`Core.Core.Run`). It is a refinement of the
  step model on which agreement is proved, never votes for two blocks in a round, never votes
  after a timeout, never asks for an uncertified block, enters a round only on a QC or TC of
  the round before, and outputs a parent-linked chain from genesis. Where parent rounds
  decrease and QCs name blocks of their own round, it panics only on a vote by a stranger
  or on a committing QC for a block that does not descend from its last commit, and
  genuine certificates of the slow path rule out the latter.
* **Certificates.** Everything a node knows was received or made by its own makers. If what
  it receives is genuine, so is what it makes (`Fleet.FleetGenuine`); where weak certificates
  must be exact this needs the guard on the groups that it builds them from. So a fleet
  of such nodes is a run of the network model (`Fleet.FleetIsNetwork`), every run of the
  network model is one of a fleet (`Fleet.NetworkIsFleet`), and the two are safe for the same
  configurations (`Fleet.SafeFleetIff`). The bitmap and the incremental sums
  of `QCMaker` refine a maker on values, everything it emits passes the receiver's check,
  and over any vote stream it emits each certificate once, on time and with the right signers.
* **Leader schedules.** For every n >= 2 the greedy walk is an Eulerian circuit of
  the complete digraph, and no leader waits longer than 3n - 3 rounds, the bound
  that the source's test leaves open.

## Files

| file | contents |
|---|---|
| `Divisibility.dfy`, `Schedule.dfy`, `Rotation.dfy` | the fair leader schedule: number theory, the walk, its properties |
| `FailureSchedules.dfy` | the three failure-simulation schedules |
| `Types.dfy`, `Thresholds.dfy` | blocks, votes, certificates; threshold arithmetic and quorum intersection |
| `Steps.dfy`, `Network.dfy` | one node as a step relation; networks with Byzantine nodes; agreement |
| `Playing.dfy`, `Disagreement.dfy`, `Misnaming.dfy` | building runs; the runs for short TCs and for misnamed weak certificates |
| `Makers.dfy`, `Emission.dfy`, `TimeoutCertificates.dfy` | certificate makers as values; vote and timeout streams |
| `Provenance.dfy`, `Fleet.dfy` | where a node's certificates come from; networks of nodes with their makers |
| `Chains.dfy`, `Handlers.dfy`, `Core.dfy`, `Replicas.dfy` | chain walks of a commit; what the handlers keep and do; the imperative node; agreement of outputs |
| `Bitmap.dfy`, `Groups.dfy`, `Aggregation.dfy`, `WeakCertificates.dfy` | signer bitmaps, key and signature sums, the imperative makers |
| `Proposing.dfy`, `BlockSync.dfy`, `ReliableSender.dfy` | the proposer, the synchronizer with the store, the retransmission queue |

## Modelling choices and assumptions

* Digests are injective: `Digest` is either the hash of a block or raw bytes, so
  ancestry is well founded. Signatures are ideal; in `Aggregation` keys and
  signatures are elements of arbitrary commutative groups, and the valid signature
  on a message is a homomorphic image of the key.
* n = 3f + 2c + k + 1 and every stake is 1. The source checks the first only in
  benchmark/benchmark/config.py:277 and sets the second in config.py:116. The `f64`
  computations of the thresholds are exact for these sizes.
* Members are named by the position of their key in the sorted key vector, so the
  binary search for a key is not modelled. Integers are unbounded. A u128 is a
  natural number with bit operations defined on its binary digits.
* The certificates that arrive at an honest node in a message are assumed to be genuine, that
  is, made of messages that were really sent (`Fleet.Trusted`). The code does not always
  check this itself: `handle_qc` does not re-verify (hydrangea/src/core.rs:663-668), the QC and
  WQC of a TC are used before the TC is checked, a TC for a round already passed is not
  checked (core.rs:731), `QC::is_well_formed` does not count signers, and WQCs are never
  verified by receivers. That a node's own QCs and TCs are genuine is then proved. So it is
  for the WQCs that it builds, in the sense of the next point; where they must be exact, the
  node is taken to build them only from groups that pass `TimeoutCertificates.Guard`, a check
  on the votes it has counted that `check_wqc` does not make (`Fleet.Guarded`).
* A TC below the view-change size counts in `Network` only if there is a faulty node to
  assemble it. A weak certificate counts if it is backed by votes for the block it names or,
  in a configuration without `exactWqc`, if the TC maker builds it. `Network.Agreement` needs
  exact ones as soon as there is a faulty node, which the code does not ensure: see `Misnaming`.
* The signature in a reported vote is represented by what it covers, if anything; the ideal
  batch check of a weak certificate compares that with the last vote. A signature that counts
  as valid was made by its author.
* A Timeout is assumed to arrive as its author made it. Its own signature covers only the
  round of its high QC and its round (`Timeout::digest`, messages.rs:572-580), so a relay could
  exchange the reported vote and the WQC in an honest node's Timeout without being noticed.
  `Network.RunTruthful` and `TimeoutCertificates.WeakCertificateSound` do not cover that.
* Which round `check_wqc` picks depends on the order of a hash map; `Core.CheckWqc` and
  `WeakCertificates.CheckWqc` leave it open.
* The fields of `Core` are kept in one record, `State`, that the methods reassign. Every
  step that matters for safety, every message counted and every certificate received is also
  recorded in a ghost chronicle.
  A message enters `sent` when it is created; the code broadcasts it after handling it
  locally. Handlers return an outcome: done, failed (an `Err`), or panicked.
* Parent rounds need not decrease: a Byzantine timeout may carry a QC from a later round
  than the TC's own, so a fallback block may have a parent of a higher round. What needs
  decreasing parent rounds says so (`Orderly`, `ParentLower`, `DescendsTo`).
* Parameters stand for what the node cannot decide: whether a signature is valid,
  whether a payload is available, when a send fails, what arrives and when.
* A block of round 0 in a proposal makes `block.round - 1` underflow in the source
  (messages.rs:131 and 184); here such a proposal is malformed.
* For n = 1 the fair schedule is empty, and looking up its leader divides by zero.

## Model

| member | source | states |
|---|---|---|
| Schedule.GenerateSchedule | hydrangea/src/leader.rs:73-126 | the greedy loop terminates, its assertion that first and last entry agree holds, and for n >= 2 its result is the closed-form walk `Fair(n)` of length n(n-1); for n < 2 it is empty |
| Schedule.FillQueues | hydrangea/src/leader.rs:86-98 | the queue of every leader lists its n - 1 successors in cyclic order |
| Rotation.EachPairExactlyOnce | hydrangea/src/leader.rs:55-58 | every ordered pair of distinct leaders is consecutive, cyclically, exactly once in the schedule |
| Rotation.NeverOwnSuccessor | hydrangea/src/leader.rs:99-118 | no leader succeeds itself, also across the end of the schedule |
| Rotation.LeadsEqually | hydrangea/src/leader.rs:257-260 | every leader has exactly n - 1 of the n(n-1) rounds |
| Rotation.WaitAtMost | hydrangea/src/leader.rs:262-276 | for every n >= 2 and every round, its leader leads again within 3n - 3 rounds |
| Rotation.PrimeClosedForm | hydrangea/src/leader.rs:86-126 | for prime n, entry q*n + j of the schedule is j(q+1) mod n |
| Rotation.PrimeWaitAtMost | hydrangea/src/leader.rs:262-276 | for prime n no leader waits longer than 2n - 2 rounds |
| FailureSchedules.BestSchedule | hydrangea/src/leader.rs:193-198 | the schedule is a rearrangement of the committee that starts with the honest members |
| FailureSchedules.MidSchedule | hydrangea/src/leader.rs:203-220 | fails exactly when there are not more honest than Byzantine members; otherwise a rearrangement in which every Byzantine member follows its honest counterpart |
| FailureSchedules.WorstSchedule | hydrangea/src/leader.rs:225-242 | fails exactly when the honest members are not more than twice the Byzantine; otherwise a rearrangement in which every Byzantine member follows two honest ones |
| FailureSchedules.EachLeadsOnce | hydrangea/src/leader.rs:244-247 | in any n consecutive rounds, starting anywhere, each member leads exactly once |
| Thresholds.QuorumArithmetic | config/src/lib.rs:235-240 | two quorums, and a slow-commit and a view-change quorum, overlap in more than f nodes; the ordinary quorum is the least with that property; when exactly it is below the fast one |
| Thresholds.AcceptedTcSuffices | hydrangea/src/messages.rs:623-626 | the accepted TC size meets every slow-commit quorum in more than f nodes iff k <= 1 |
| Thresholds.ShortTcMissesCommit | hydrangea/src/messages.rs:623-626 | for k >= 2, quorums of the accepted sizes whose common members are all faulty |
| Thresholds.FastPathCounting | config/src/lib.rs:235-240 | a fast and a view-change quorum share at least f+p+1 honest nodes, and at most f+p nodes are faulty or outside the fast quorum |
| Thresholds.FastVoteIsOnlyWeakCert | hydrangea/src/aggregator.rs:233 | if honest members of a fast quorum report their vote, that vote reaches the weak-certificate threshold and no other does |
| Steps.RunKeepsInv | hydrangea/src/core.rs:462-536 | over every run of a node: one block per round in its Normal votes, every vote precedes all Timeouts for that or later rounds, and Timeouts report at least the lock or vote |
| Steps.RunNoEarlier | hydrangea/src/core.rs:481-756 | round, lock, WQC, timeout and commit rounds never go back, and the block accepted for a round is never replaced |
| Network.RunInv | hydrangea/src/core.rs:663-693 | in every run, every honest Normal vote is for a block justified by earlier messages and every honest Commit vote for a block certified by earlier messages |
| Network.RunTruthful | hydrangea/src/core.rs:515-528 | in every run, the vote in an honest Timeout is its author's own, was sent before and is signed for what it says |
| Network.HonestGroupGenuine | hydrangea/src/aggregator.rs:247-279 | a weak certificate built from honest reports only is backed by votes for the block it names |
| Network.CertifiedUnique | hydrangea/src/aggregator.rs:139-142 | two certificates of one round, of ordinary quorums, are for one block |
| Network.TcReportsCommit | hydrangea/src/aggregator.rs:286-339 | a genuine TC for round r or later contains a lock of round r or later, once a block is slow-committed in r |
| Network.VotedExtendsCommitted | hydrangea/src/messages.rs:122-202 | by induction on time over normal, fallback and synced blocks: an honest Normal vote above r is for a descendant of the block slow-committed in r |
| Network.CommittedBlockIsFinal | hydrangea/src/core.rs:466-536 | in every run, after a slow commit of b in r, every later honest Normal vote and every certificate of round r or later is for b or a descendant |
| Network.Agreement | hydrangea/src/core.rs:695-706 | in every run any two blocks with genuine Commit QCs lie on one chain |
| Playing.Play | hydrangea/src/core.rs:466-536 | a network can play a phase node by node: each honest node takes its enabled steps and each faulty one says its word |
| Playing.NextPhase | hydrangea/src/core.rs:466-536 | a script whose acts are enabled and whose certificates are genuine can be played from one stage to the next |
| Disagreement.AcceptedTcsDisagree | hydrangea/src/messages.rs:606-637 | for every k >= 2, f >= 1 and leader schedule: a run with f faulty nodes, among them the leader of round 2, in which a TC of the accepted size leads to Commit QCs for two conflicting blocks, each by the leader of its round |
| Disagreement.AcceptedTcsSafe | hydrangea/src/messages.rs:606-637 | TCs of the accepted size keep all runs of all committees safe if and only if k <= 1 or f = 0 |
| Misnaming.BuiltWqcsDisagree | hydrangea/src/aggregator.rs:232-339 | for every f >= 1 and leader schedule: a run with one faulty node in which the first TC that a maker assembles, when a view-change quorum of timeouts has arrived, carries a weak certificate named after a vote that is not signed for its block, and two conflicting blocks get Commit QCs with exactly the signers that a maker needs |
| Misnaming.BuiltWqcsSafe | hydrangea/src/aggregator.rs:247-279 | weak certificates as they are built, with TCs of the view-change size, keep all runs of all committees safe if and only if f = 0 |
| Replicas.LastCommitsAgree | hydrangea/src/core.rs:425-433 | the last commits of any two honest nodes lie on one chain, on the slow path |
| Replicas.OutputsAgree | hydrangea/src/core.rs:401-423 | of two honest nodes that run the imperative core one has output a prefix of the other's output, on the slow path, in every run of the fleet: received certificates are genuine, signatures are not forged and, if a node is faulty, WQCs are built only from groups that pass the guard |
| Replicas.AssertionsHold | hydrangea/src/core.rs:202-399 | in every run of the fleet on the slow path where parent rounds decrease, no assertion of an honest core that knows no fast QC fails, over any stretch of its run from a state such as the initial one: its only panic is on a vote by a stranger |
| Replicas.NotForked | hydrangea/src/core.rs:242-281 | a genuine Commit QC above a node's last commit is for a block that descends from it through decreasing rounds |
| Replicas.EntersByCertificate | hydrangea/src/core.rs:481-494 | a round that an honest node enters is opened by a genuine QC or TC of the round before it |
| Chains.GatherAncestors | hydrangea/src/core.rs:371-399 | the loop of `commit` stops as its specification says, and when it completes its stack is the path from the last commit to the block, newest at the base |
| Chains.Emit | hydrangea/src/core.rs:401-423 | popping the stack appends the blocks oldest first |
| Chains.WalkAncestors | hydrangea/src/core.rs:242-281 | the loop of `have_all_ancestors` finds the chain complete, an ancestor missing, or the chain astray, as the search function says |
| Chains.MissingIsAncestor | hydrangea/src/core.rs:274-279 | a digest that is requested is that of an ancestor of the committable block |
| Chains.SearchEnds | hydrangea/src/core.rs:242-281 | the search walks through ancestors above the last commit and ends at the first other one: missing if that is nowhere, complete if it has the round of the last commit, astray if it is below |
| Chains.SearchFindsChain | hydrangea/src/core.rs:242-281 | for a descendant of the last commit through decreasing rounds the search never goes astray, and it completes iff every uncommitted ancestor is in memory |
| Chains.GatheredIsChain | hydrangea/src/core.rs:376-399 | only descendants of the last commit are gathered, and blocks of higher rounds stay in memory |
| Chains.HeldIsGathered | hydrangea/src/core.rs:376-399 | if every uncommitted ancestor is held, the commit gathers them all |
| Chains.GatheredLeft | hydrangea/src/core.rs:379-399 | a commit takes exactly the ancestors between the last commit and the block out of memory |
| Chains.GatherFails | hydrangea/src/core.rs:386-399 | if not all ancestors are gathered, one of them is not in memory, or one that is not above the last commit is, and the two panics tell these apart |
| Chains.PathIsLinked | hydrangea/src/core.rs:362-437 | a path is linked by parents from its start to its end, with increasing rounds if parent rounds decrease |
| Chains.CommitKeepsTidy | hydrangea/src/core.rs:425-433 | after the clean-up of a commit every pending digest is still in memory with its round, and so is every stored block above the commit |
| Provenance.HistoryIsRun | hydrangea/src/core.rs:466-756 | the steps among a node's acts are a legal run of the step model with the same state and messages |
| Provenance.FromKeeps | hydrangea/src/core.rs:481-756 | when a node's history goes on, no round goes back, no accepted block is replaced and no message is unsent |
| Fleet.CertifiedGenuine | hydrangea/src/aggregator.rs:139-204 | a QC that a maker certifies has as many signers as its kind needs, each with a vote in the network's log |
| Fleet.BuiltAllowed | hydrangea/src/aggregator.rs:232-282 | a WQC that check_wqc builds from counted timeouts is a built weak certificate of the network model and, if its group passes the guard, one that is backed by votes for the block it names |
| Fleet.ActKeepsGenuine | hydrangea/src/aggregator.rs:34-77 | every act of a node keeps all its makers and all the certificates it knows genuine; exact WQCs are built from groups that pass the guard |
| Fleet.FleetGenuine | hydrangea/src/aggregator.rs:34-343 | in every run, all certificates that honest nodes know are genuine if the received ones are, also those they made themselves; where WQCs must be exact, for nodes that build them only from groups that pass the guard |
| Fleet.FleetIsNetwork | hydrangea/src/core.rs:922-960 | the steps of a network of nodes with their makers are a run of the network model that reaches the same states and sends the same messages, under the same assumptions |
| Fleet.NetworkIsFleet | hydrangea/src/core.rs:922-960 | every run of the network model consists of the steps of a run of the fleet in which the nodes receive the certificates that they act on |
| Fleet.SafeFleetIff | hydrangea/src/core.rs:695-706 | any two Commit QCs lie on one chain in all runs of the fleet iff they do in all runs of the network model, so the exact conditions for short TCs and built WQCs carry over |
| Handlers.AncestryThenCommit | hydrangea/src/core.rs:230-437 | for a committable descendant of the last commit, `have_all_ancestors` never panics, says yes iff all uncommitted ancestors are held, and then `commit` reaches none of its panics |
| Handlers.CommitExplained | hydrangea/src/core.rs:230-399 | where parent rounds decrease, the search for the ancestors of an uncommitted committable block and the commit after it panic only if the block does not descend from the last commit |
| Handlers.CommitLosesNone | hydrangea/src/core.rs:425-433 | the clean-up of a commit drops no block that is certified for a later round |
| Handlers.CommittedKeeps | hydrangea/src/core.rs:401-437 | the whole effect of a commit keeps the node valid, the output equal to the chain from genesis, and the indexes in order |
| Handlers.CommitClears | hydrangea/src/core.rs:425-433 | a commit forgets exactly the committable blocks, pending blocks, QCs and blocks of rounds up to its own, and the blocks it commits |
| Handlers.CommitQcCommits | hydrangea/src/core.rs:695-706 | a new Commit or fast QC, whether received or completed by a vote, commits its block if that is ready |
| Handlers.CommitQcMarks | hydrangea/src/core.rs:439-460 | if there is no commit, the block of a new Commit or fast QC is committable from then on |
| Handlers.EntersAndVotes | hydrangea/src/core.rs:481-494 | where parent rounds decrease, a node that enters a round with a block pending for it votes for that block, unless it has timed out |
| Handlers.EnteredThen | hydrangea/src/core.rs:481-494 | over any handlers one after the other, a round is entered only on a known QC or TC of the round before it, and with a vote for its pending block |
| Handlers.ValidNode | hydrangea/src/core.rs:362-536 | in every reachable state: the voting rules hold of all messages sent, and the output is the parent-linked chain from genesis to the last commit, with increasing rounds where parent rounds decrease |
| Handlers.ReceivedIsOnward | hydrangea/src/core.rs:922-960 | from one handler to the next no round goes back, no accepted block is replaced, no message is unsent and no output is withdrawn |
| Core.Core.constructor | hydrangea/src/core.rs:104-157 | the initial node is valid, in order, with no certified block lost, and at the initial state of the step model |
| Core.Core.GetBlock | hydrangea/src/core.rs:202-228 | exactly when it panics for want of a QC or for a block on disk only, and exactly when the block is requested; nothing else changes; where parent rounds decrease and the QC names a block of its round, it is never on disk only |
| Core.Core.HaveAllAncestors | hydrangea/src/core.rs:230-282 | answers as specified; if an ancestor is missing exactly its digest is requested, and otherwise nothing changes |
| Core.Core.CommitBlock | hydrangea/src/core.rs:362-437 | completes or panics as specified; when it completes, the block is the last commit, the path to it has been output, and each index keeps exactly what belongs to later rounds |
| Core.Core.TryCommitOrSyncAncestor | hydrangea/src/core.rs:284-301 | the whole new state: an old block panics, one that is not committable changes nothing, and a committable one is committed if its ancestors are there and otherwise has the missing one requested; one that is ready is committed |
| Core.Core.ScheduleCommit | hydrangea/src/core.rs:439-460 | the whole new state: the block is committable and, if held, is committed or has its missing ancestor requested; one that is ready is committed at once, oldest ancestor first |
| Core.Core.HandleCommitQc | hydrangea/src/core.rs:695-706 | the whole new state: a known one changes nothing; a new one schedules its block and drops exactly the vote makers of rounds up to its own; a block that is ready is committed |
| Core.Core.TryVote | hydrangea/src/core.rs:466-479 | the vote for the pending block of the current round is sent and counted by the node itself whenever no Timeout for the round was sent, and otherwise nothing changes; the "Fatal" panic cannot happen where parent rounds decrease; the recursion terminates |
| Core.Core.AdvanceToRound | hydrangea/src/core.rs:481-494 | the node ends in that round or a later one; a round is entered only on a known QC or TC of the round before, and where parent rounds decrease with a vote for its pending block |
| Core.Core.SendVote | hydrangea/src/core.rs:496-513 | the vote is sent, as an enabled step of the step model, and then counted by the node itself, whose errors are dropped |
| Core.Core.HandleVote | hydrangea/src/core.rs:547-568 | old votes change nothing, votes of strangers panic, and otherwise the maker takes its step and its answer decides: an error or nothing leaves only that, and a QC has exactly the effect of a received one |
| Core.Core.AddVote | hydrangea/src/aggregator.rs:34-56 | the maker of the vote's round (and block) takes exactly one append step, its answer is returned, no other maker changes, and an emitted QC becomes known |
| Core.Core.HandlePrepareQc | hydrangea/src/core.rs:663-693 | a known one changes nothing; a new ordinary QC is registered, leaves the node locked at least as high and past its round, with a Commit vote sent unless it was locked higher or had timed out, its next leader told to propose, its block held or asked for, and the Timeouts up to a new lock dropped |
| Core.Core.HandleQc | hydrangea/src/core.rs:709-720 | old QCs change nothing; ordinary ones have the effect of HandlePrepareQc, Commit and fast ones that of HandleCommitQc; the recursion through votes and rounds terminates |
| Core.Core.SendTimeout | hydrangea/src/core.rs:515-536 | a second call for a round in a timer period changes nothing; the first sends a Timeout with the last vote, lock and WQC, which the node counts itself; the recursion terminates |
| Core.Core.LocalTimeoutRound | hydrangea/src/core.rs:538-545 | after the timer fires, whatever was sent before, a Timeout for the current round, with the last vote, lock and WQC, is among the messages sent |
| Core.Core.HandleTimeout | hydrangea/src/core.rs:571-623 | old Timeouts change nothing; one for a passed round is answered for the round before the current one; for a current one its QC is followed first, then it must be well formed and is counted, from f+1 on the node sends its own, and from the view-change size on the TC is followed; the recursion terminates |
| Core.Core.AddTimeout | hydrangea/src/aggregator.rs:286-343 | a repeated sender changes nothing, a malformed Timeout fails, and otherwise the maker's new contents and the TC, from the view-change threshold on, are exactly as specified, with the WQC that check_wqc builds from the counted votes; it panics, changing nothing, exactly when check_wqc does |
| Core.Core.CheckWqc | hydrangea/src/aggregator.rs:232-283 | for whichever qualifying round is picked: a stranger among its voters panics, and otherwise a WQC named after the first vote results iff all signatures cover the last; nothing results iff no round qualifies |
| Core.Core.HandleWqc | hydrangea/src/core.rs:722-727 | the highest WQC seen is kept |
| Core.Core.HandleTc | hydrangea/src/core.rs:729-756 | a TC for a passed round changes nothing; otherwise its QC is followed and its WQC taken over if higher; a malformed one then fails and changes no more; after a well-formed one the Timeout for its round has been sent, the leader of the next round has been told to propose, and the node is past its round; the recursion terminates |
| Core.Core.StoreBlock | hydrangea/src/core.rs:336-360 | the first block of a round becomes its pending block for good, and every stored block is in memory and on disk |
| Core.Core.CanAcceptBlock | hydrangea/src/core.rs:762-808 | accepts exactly requested blocks and first proposals of the leader for a round without QC, fails exactly on wrong leaders or payloads, and panics exactly on a block with a QC that is neither held nor asked for |
| Core.Core.ProcessBlock | hydrangea/src/core.rs:810-819 | for every block which of these happens: nothing, an error, the panic, or that it is stored, committed if that was due, and then voted for if the state allows it |
| Core.Core.ProcessNormalProposal | hydrangea/src/core.rs:821-831 | its QC is followed first; then its block, only if it is well formed and extends the QC's block in the next round, has the effect of ProcessBlock; otherwise it fails and changes no more |
| Core.Core.ProcessFallbackProposal | hydrangea/src/core.rs:833-848 | its TC is followed first unless its round has passed; then its block, only if it is well formed and extends what the TC prescribes in the next round, has the effect of ProcessBlock; otherwise it fails and changes no more |
| Core.Core.HandleSyncResponse | hydrangea/src/core.rs:857-883 | the whole new state: a block that was not requested changes nothing, an old one is forgotten, and another is stored and, if committable, committed or has its missing ancestor requested |
| Core.Core.HandleLoopback | hydrangea/src/core.rs:885-900 | the whole new state: an uncommitted committable block is committed if its ancestors are there and otherwise has the missing one requested |
| Core.Core.HandleCertificate | hydrangea/src/core.rs:902-940 | fails, changing nothing, iff the QC is recent, not known for its kind and malformed; otherwise it has the effect of HandleQc |
| Core.Core.Receive | hydrangea/src/core.rs:930-951 | every kind of input has the effect of its handler |
| Core.Core.Run | hydrangea/src/core.rs:922-960 | over any sequence of inputs there are states between them, each input having the effect of its handler on the state before it, up to the first panic; the node stays valid and never asks for a block without a QC; if all received blocks have decreasing parent rounds it stays in order, and if moreover all QCs it knows name blocks of their own round, every certified block is held or asked for and the only panics are on a stranger's vote or on a committing QC for a block off its chain |
| Makers.TcIsWellFormed | hydrangea/src/messages.rs:606-637 | the loop accepts exactly TCs whose authors are a quorum of members with one vote each, none locked above the high QC, all signed |
| Makers.AcceptedIff | hydrangea/src/messages.rs:606-637 | the well-formedness predicate in terms of the set of authors, in both directions |
| Makers.AcceptedMeetsQuorum | hydrangea/src/messages.rs:623-626 | whichever f nodes are faulty, an accepted TC has an honest author in every quorum of the committee |
| Emission.MakerEmits | hydrangea/src/aggregator.rs:106-208 | for every vote stream and every position, the maker's answer is determined by the number of distinct voters: which vote completes which certificate over which signers |
| Emission.EmittedOnce | hydrangea/src/aggregator.rs:139-204 | each kind of certificate is emitted at most once |
| Emission.FastIsLater | hydrangea/src/aggregator.rs:171-175 | the fast certificate comes strictly after the ordinary one |
| Emission.EmittedInTime | hydrangea/src/aggregator.rs:139-204 | with valid votes for one block each certificate is emitted by the vote that reaches its threshold, with exactly the distinct voters so far as signers |
| Emission.SpoiltMaker | hydrangea/src/aggregator.rs:50-56 | a Commit maker that counted one vote that is invalid or for another block, before its threshold, never emits a certificate for this block |
| Emission.EmittedIsGenuine | hydrangea/src/aggregator.rs:160-170 | whatever the stream, an emitted certificate has exactly as many signers as its kind needs, and each signed for its block, kind and round |
| Emission.QcIsEmitted | hydrangea/src/aggregator.rs:106-208 | every QC with exactly as many signers as its kind needs is what a maker emits when it counts one valid vote of each signer |
| TimeoutCertificates.MakerHolds | hydrangea/src/aggregator.rs:286-339 | for every stream of timeouts the maker holds the first of each sender, in order, the first of the highest QCs among them, and a WQC at least as high as theirs |
| TimeoutCertificates.OriginIs | hydrangea/src/aggregator.rs:312-328 | the WQC that the maker holds is the initial one, one that a timeout carried, or one that it built when it counted a new sender |
| TimeoutCertificates.AssembledIsWellFormed | hydrangea/src/aggregator.rs:318-339 | every assembled TC passes the receiver's quorum, distinctness and highest-QC checks |
| TimeoutCertificates.AssembledIsGenuine | hydrangea/src/aggregator.rs:286-339 | the TC assembled from timeouts that were sent is genuine if weak certificates need only be built; if they must be exact it is genuine iff the WQC it carries, where the maker built that now or earlier, came from a group that passes the guard; its high QC is the maximum over all included timeouts |
| TimeoutCertificates.AssembledButWqc | hydrangea/src/aggregator.rs:318-339 | a TC that a maker assembles from counted timeouts is genuine iff its WQC is |
| TimeoutCertificates.WqcVoters | hydrangea/src/aggregator.rs:232-279 | a WQC built from any counted timeouts has f+p+1 distinct voters when each timeout embeds its author's own vote |
| TimeoutCertificates.WeakCertificateSound | hydrangea/src/aggregator.rs:247-279 | for timeouts in the log of a run, a WQC that check_wqc builds is backed by votes for the block it names iff its group passes the guard: first and last vote name one block and there are f+p+1 distinct voters; the latter follows when each timeout embeds its author's own vote |
| TimeoutCertificates.GuardSuffices | hydrangea/src/aggregator.rs:247-279 | in any committee with truthful honest reports, a WQC built from a group that passes the guard is backed by votes for the block it names |
| TimeoutCertificates.MisnamedCertificate | hydrangea/src/aggregator.rs:249-274 | timeouts, all honest but the first, whose WQC passes the batch check, is named after a block that the signatures are not for, and whose group fails the guard |
| Bitmap.Decode | hydrangea/src/messages.rs:386-398 | the decoded list has, increasingly and once each, exactly the members whose bit is set |
| Bitmap.EncodeIsSet | hydrangea/src/aggregator.rs:126-129 | for every size and signer list, clearing bits chunk by chunk leaves exactly the non-signers' bits set |
| Groups.CombineKeys | crypto/src/lib.rs:444-455 | the sum of all keys |
| Groups.RemovePubkeys | crypto/src/lib.rs:431-442 | subtracting some of the summands leaves the sum of the others |
| Groups.CombineKeyFromIds | crypto/src/lib.rs:457-473 | the sum over the listed positions, and for distinct ones the sum over their set |
| Groups.TotalInsert | crypto/src/lib.rs:419-423 | a sum does not depend on the order in which its terms are added |
| Aggregation.VerifyBatch | hydrangea/src/messages.rs:386-408 | combined key minus decoded non-signers is the sum of the signers' keys, so the check passes exactly for the signature of that sum |
| Aggregation.QcIsWellFormed | hydrangea/src/messages.rs:373-409 | passes exactly at round 0 or for the signature of the signers' summed key; a bitmap that is too short is an index out of bounds |
| Aggregation.BatchExact | hydrangea/src/aggregator.rs:158-160 | the batch check passes exactly when the signatures add up to what valid ones add up to |
| Aggregation.GoodVotesVerify | hydrangea/src/aggregator.rs:131-160 | valid votes for one block add up to a signature that the check accepts |
| Aggregation.QcMaker.Seal | hydrangea/src/aggregator.rs:148-170 | a certificate is made exactly when the counted signatures add up, and it passes the receiver's check |
| Aggregation.QcMaker.Append | hydrangea/src/aggregator.rs:106-208 | the imperative maker takes the step of the value model, gives its answer, and what it emits passes the receiver's check and names exactly the counted voters |
| WeakCertificates.GroupByRound | hydrangea/src/aggregator.rs:234-240 | the map holds the reported votes of every round, in order of arrival |
| WeakCertificates.BuildWqc | hydrangea/src/aggregator.rs:247-279 | a WQC is built exactly when the signature sum verifies against the last vote; it is named after the first vote and its bitmap names exactly the voters; strangers panic |
| WeakCertificates.CheckWqc | hydrangea/src/aggregator.rs:232-282 | with bitmap and summed signature: some qualifying round is tried, none iff there is none; a stranger in its group panics; otherwise a WQC results iff the group verifies, it carries the summed signature, and it is one that the value model may build from the same votes |
| WeakCertificates.CoveredGroupVerifies | hydrangea/src/aggregator.rs:252-271 | signatures that are all valid on one statement add up to one that verifies: the ideal batch check implies the algebraic one |
| WeakCertificates.SameAsRemoval | crypto/src/lib.rs:431-473 | for distinct voters, adding up their keys gives the same key as taking the non-voters out of the combined key |
| Proposing.Proposer.Propose | hydrangea/src/proposer.rs:138-186 | for every trigger QC or TC the proposal passes the validators' own well-formedness check, carries as much payload as is there and fits, and no payload certificate is lost or reordered |
| Proposing.Proposer.GetPayload | hydrangea/src/proposer.rs:81-100 | at most a block's worth is taken from the front of the buffer, all of it if there is less |
| BlockSync.NoLostWakeUp | hydrangea/src/synchronizer.rs:48-125 | in every interleaving, a requested block or a loopback has a waiter, which is not left in the store's queue once the block is written |
| BlockSync.WriteAnswersAll | store/src/lib.rs:33-59 | a write answers every waiter queued for its key, and no waiter is ever answered twice |
| BlockSync.DeliversHighest | hydrangea/src/synchronizer.rs:54-119 | in every run, a wake-up sends a block back exactly if one was registered for its digest since the last wake-up for it; it is one of those, and the first of the highest among all registered since the live request was opened, all told from the events |
| BlockSync.RequestedIff | hydrangea/src/synchronizer.rs:52-107 | in every run, a block is being requested iff it was asked for and since then has not arrived and no other request was opened to resume from it |
| BlockSync.Service.StoreWrite | store/src/lib.rs:35-42 | the write answers its queue in order and keeps the invariant |
| BlockSync.Service.StoreNotifyRead | store/src/lib.rs:47-57 | a reader of a written key is answered at once, any other is queued for its key, and the invariant is kept |
| BlockSync.Service.SyncRequest | hydrangea/src/synchronizer.rs:52-103 | a request takes the specified step, whose outcome over whole runs the two properties above give, and keeps the invariant |
| BlockSync.Service.WakeUp | hydrangea/src/synchronizer.rs:104-119 | the requested digest leaves both tables and its loopback, if any, is delivered |
| ReliableSender.RunKeepsInv | network/src/reliable_sender.rs:155-278 | after every sequence of submissions, sends, failures, replies, cancellations and reconnects: acknowledged, pending and buffered messages are in submission order without duplicates, and every message is acknowledged, held or dropped because cancelled |
| ReliableSender.NothingLost | network/src/reliable_sender.rs:155-278 | a message that was never cancelled is acknowledged or held, and not both |
| ReliableSender.RepliesMatch | network/src/reliable_sender.rs:248-266 | the i-th reply on a connection acknowledges the i-th message sent on it, and acknowledgements come in submission order |
| ReliableSender.Connection.Disconnect | network/src/reliable_sender.rs:269-275 | unacknowledged messages go back in front of the buffer in order |
| ReliableSender.Connection.SendBuffer | network/src/reliable_sender.rs:215-241 | all buffered messages that are not cancelled are sent in order, unless a send fails; then the connection breaks exactly there, and all that was sent is in front of the buffer again |
| ReliableSender.Connection.OnReply | network/src/reliable_sender.rs:248-266 | a good reply acknowledges exactly the oldest unacknowledged transmission and the connection stays up; an unexpected or failed one acknowledges nothing and breaks it with everything back in the buffer |
| ReliableSender.Connection.Accept | network/src/reliable_sender.rs:188-191 | a new message joins the buffer, and while there is no connection exactly the cancelled ones leave it |

## Left out

- Agreement across a whole run for the fast path: `check_wqc` mixes blocks within a round and old QCs are dropped, so only the counting lemmas and the soundness condition of a WQC are stated.
- Liveness, timers, rate limiting and real time, and the messages that only pass certificates on: the broadcast of a new QC (core.rs:689), the TC for the next leader (core.rs:747) and the locked QC from `sync_peer`.
- Concrete cryptography, serialization and the digests' bytes; `WQC::digest` omits the vote kind, and nothing here claims that a WQC can be verified again.
- Sockets, channels and RocksDB errors; a channel hands over what is sent into it.
- The mempool and payload verification beyond one bit, the committer, the executors, and the primary and worker crates.
- Benchmarks, command line, configuration files and key generation.
- The panic on a vote by a stranger (config/src/lib.rs:431): it is stated when it occurs (`Core.Core.HandleVote`, `Core.Core.AddTimeout`); nothing in the code prevents it.
- Panics where parent rounds do not decrease or on the fast path: only `NotCertified` (core.rs:205) is shown unreachable there.
- The periodic retransmission of block requests (synchronizer.rs:120-140), which changes no table.
