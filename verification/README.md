# PoSE core: a Dafny verification

This project models the core of a PoSE node and proves what its protocols keep. It covers the
HELIOS L2 checkpoint protocol (votes, quorum certificates, locks, three-chain commits), the L3
finality that is built on it, block acceptance in any order, Merkle proofs, the AION election
(rank arithmetic, entropy estimates, leader schedule) and the mempool with replay protection.

`dafny verify dfyconfig.toml` checks everything. The modules are:

| files | what they hold |
|---|---|
| `BlockTree.dfy` | the tree of blocks that block ids describe; branches, three-chains |
| `L2State.dfy`, `L2Invariants.dfy` | one validator as a state machine, one event per critical section; what every run keeps |
| `L2Decisions.dfy` | votes, lock, certificates and commits of one validator, said in terms of the tree and the messages |
| `L2Commits.dfy`, `L2Pruning.dfy` | commit exactness; exactly when pruning is harmless, and what it does otherwise |
| `L2Voting.dfy`, `L2Certificates.dfy` | the voting rule; certificates and quorums |
| `L2Network.dfy`, `L2Agreement.dfy`, `L2Disagreement.dfy` | n validators with faulty voters; safety over whole runs; where agreement ends |
| `L2Service.dfy` | the service as a class with re-entrant handlers, tied to the state machine by a ghost trace |
| `L3Finality.dfy`, `L3OverL2.dfy` | L3's tables as a class; what they say about L2 |
| `Chain.dfy` | out-of-order block acceptance |
| `Merkle.dfy`, `MerkleBinding.dfy` | roots, proofs, verification; exactly which lists and proofs a root binds |
| `Arith.dfy`, `MachineInts.dfy`, `BigEndian.dfy` | powers, products and quotients; machine integers; numbers in bytes |
| `Rank.dfy`, `Entropy.dfy` | ranks and weights in machine integers; histogram and estimators |
| `AionSchedule.dfy`, `AionDivided.dfy` | commit, reveal and VRF messages of one epoch and the leader schedule; the reveal and VRF handlers in their two sections |
| `Mempool.dfy` | the pool, its fates, and the replay table |
| `Options.dfy` | an optional value |

## What is assumed

- **L2.** One event is one critical section of the service, so runs interleave handlers freely. Two
  pairs of sections are taken as one: recording a delivered certificate's block and storing the
  certificate, and listing the votes of a block and storing the certificate made of them. A block id fixes
  the block's parent and height, and a child is one higher than its parent. The quorum size does not change
  within a run. Signatures cannot be forged: a vote in an honest validator's name was cast by it; votes in other names
  come from the faulty validators of the network, since `verifyQC` does not check membership. Where a result needs truthful
  messages, or certificates parents first, its contract says so (`Told`, `TruthfulRun`, `OrderedRun`,
  `ParentsFirstRun`); runs whose prunes are all safe are `CleanRun`s.
- **Peers** are numbered in the order of their id strings.
- **Merkle.** The hash is any function into 32 bytes; binding assumes it has no collision among the
  strings that are hashed, and nothing about other strings.
- **Chain, mempool.** A block hash names one block. A transaction id names one payload, and with it a device and a
  sequence number, but not the key it was signed with. The clock does not go back.
- **AION.** One epoch at a time with a fixed weight; opening a commitment and verifying a VRF
  proof are parameters. Each peer sends one message of each kind, in any number of copies. Handlers are undivided,
  except in `AionDivided.dfy` and `RevealBetweenLookAndStash`.
- **L3.** Outcomes of signature and data checks are parameters, as are lower-casing and the test for attester ids.
  Stake and threshold are real numbers. Each call into L3 is one step.

## Where the code differs from what it or its documents promise

- Agreement is not unconditional: an unlocked validator votes for any block, and it votes per block, not per height
  (`internal/helios/l2_checkpoint.go:309-330`). `AgreementNeedsOrder` gives, for every network with an honest quorum
  and every two chains of three that are not on one branch, a run without faults that commits the first block of both at
  one validator. `Agreement` holds when certificates arrive parents first and validators vote for a block only
  after they stored its parent's certificate; the run for two roots breaks the second half alone.
- `pruneExpired` can hide a commit when certificates arrive out of order (`OutOfOrderPruneIsUnsafe`), or when it runs
  between storing a certificate and its commit checks (`InOrderPruneLosesCommit`). The block is then a three-chain head
  without a commit until a certificate of a further child or grandchild is stored and checked
  (`UnsafePruneDelaysCommit`). `PruneSafeIffNothingLost` says exactly when a prune loses nothing.
- A certificate built from votes that disagree about the parent is rejected by every peer (`LyingVoteBreaksQC`).
- `RankValue` shifts into 33 bytes and loses the top byte of the VRF output, so ranks follow the
  other 31 bytes only. The order that `internal/aion/weight_test.go:40-56` expects does not hold
  for outputs that differ in the top byte (`TopByteIsIgnored`).
- `HRenyi2Bits` squares in 64 bits; at exactly 2^32 bytes the estimate drops to 0, and from there on the result is the
  min-entropy if and only if the wrapped estimate does not lower it (`EpochEntropyQ16`).
- A Merkle root does not fix the number of leaves: it binds lists of lengths m and n if and only if m = n
  (`RootsBindIff`). A proof shorter than the tree is deep verifies an inner node and a longer one a string below a leaf;
  proofs (of lengths below 2^256) bind leaves if and only if they are exactly as long as the tree is deep
  (`ProofsBindIff`).
- The VRF handler leaves its peer out of the election exactly when the seed its VRF proves is only ever filed between
  the look and the act of every handling of the message (`DividedHandlers`); nodes that handled the same messages can
  then disagree about the schedule (`NodesAgreeIff`). A reveal that overtakes its own commit is not checked against it.
- The L3 design asks for two thirds of the stake; the default threshold is 0.6666667, which is more. With
  6, 9, 12, ... validators one child certificate with a bare quorum never meets it (`LoneBareQuorumIsNotEnough`).
- After the grace period a block without any cell attestation may be final, but its first attestation can take it
  out of readiness (`FirstAttestationStalls`).
- Replay protection is per device and key id, and the transaction id is the hash of the payload alone
  (`internal/coseutil/cose.go:65-70,171`). So one payload signed under a second registered key is admitted a second time
  once it has left the pool (`SameIdUnderTwoKeys`); `AddedAgainIff` says exactly when.
- The `mempool_full` exit is never taken; a sequence number is used up even when the transaction is then refused as too large.

## Model

| member | source | states |
|---|---|---|
| `L2Invariants.RunKeepsBasic` | internal/helios/l2_checkpoint.go:425-451 | in every run votes are filed under block and signer and verify, the lock is a certified block once there is a certificate |
| `L2Invariants.RunKeepsTruth` | internal/helios/l2_checkpoint.go:218-263 | in truthful runs every record, vote, certificate and child entry agrees with the block tree |
| `L2Invariants.WalkExact` | internal/helios/l2_checkpoint.go:346-365 | the bounded walk answers true for exactly the ancestors at most 1023 recorded links up |
| `L2Invariants.LockHistory` | internal/helios/l2_checkpoint.go:401-415 | from any point of a truthful run on, the lock moves only to descendants of itself and to greater heights, and is certified |
| `L2Decisions.VotesExactly` | internal/helios/l2_checkpoint.go:324-344 | in truthful states it is safe to vote for a block if and only if it is a root, there is no lock, or the lock is at most 1023 recorded links above its parent |
| `L2Decisions.VotesByRecord` | internal/helios/l2_checkpoint.go:324-365 | in any state only recorded heights count below a lock; the certificate branch of the rule never decides |
| `L2Decisions.DeliverMovesLock` | internal/helios/l2_checkpoint.go:401-415 | a new truthful certificate moves the lock if and only if there is none or the block reaches it, over one or many levels; the lock's height is then the block's |
| `L2Decisions.FiledVotesAreSigned` | internal/helios/l2_checkpoint.go:695-719 | in every run each vote on file is a signed prepare vote of its peer for its block |
| `L2Decisions.AcceptedIffQuorate` | internal/helios/l2_checkpoint.go:721-747 | accepted are exactly the certificates with signed votes of a quorum of peers, one each, for one block and parent |
| `L2Decisions.CertsAreQuorate` | internal/helios/l2_checkpoint.go:453-515 | in every truthful run all stored certificates, delivered or built, are such certificates |
| `L2Decisions.CommitsAreTold` | internal/helios/l2_checkpoint.go:609-653 | in truthful runs without network commits, commits and their notices to L3 carry the block's height and parent |
| `L2Commits.CommitsExact` | internal/helios/l2_checkpoint.go:517-653 | when no commit check is owed, the committed blocks are exactly the three-chain heads of all certificates ever stored, in any arrival order and interleaving |
| `L2Commits.PruneKeepsIffSafe` | internal/helios/l2_checkpoint.go:957-1001 | pruning keeps the commit invariant if and only if every uncommitted block with certified child and grandchild keeps an uncommitted witness |
| `L2Commits.UnsafePruneLosesCommit` | internal/helios/l2_checkpoint.go:989-999 | after an unsafe prune a block can be certified and checked, be a three-chain head, and be uncommitted with no check owed and no chain visible in the tables |
| `L2Commits.OutOfOrderPruneIsUnsafe` | internal/helios/l2_checkpoint.go:494-568 | three certificates delivered without their common ancestor reach a state in which a prune is unsafe |
| `L2Pruning.InOrderPruneLosesCommit` | internal/helios/l2_checkpoint.go:517-568 | a legal run with parents first reaches an unsafe state, and a prune there followed by the outstanding check leaves a three-chain head uncommitted with no check owed |
| `L2Pruning.HiddenUntilNewChain` | internal/helios/l2_checkpoint.go:570-623 | a block whose grandchain the tables do not show stays uncommitted over every truthful run without a network commit until a check meets a grandchain with a new child or grandchild |
| `L2Pruning.UnsafePruneDelaysCommit` | internal/helios/l2_checkpoint.go:957-1001 | so a commit hidden by an unsafe prune stays away until a further certificate below the block is stored and checked |
| `L2Pruning.PruneSafeIffNothingLost` | internal/helios/l2_checkpoint.go:957-1001 | where every block can be certified, a prune is safe if and only if after it no clean run ends with all checks done and a commit missing |
| `L2Commits.PruningIsHarmless` | internal/helios/l2_checkpoint.go:957-1001 | with certificates parents first and pruning anywhere between handlers, the committed set is that of the full certificate history |
| `L2Voting.VoterLockedOnParent` | internal/helios/l2_checkpoint.go:309-344 | under ordered delivery a validator that casts a vote for a block with a parent is locked exactly on that parent |
| `L2Voting.StepKeepsLockRule` | internal/helios/l2_checkpoint.go:401-415 | every ordered event keeps: no certificate above the lock, and every vote cast has its parent at or below the lock |
| `L2Certificates.HotstuffQuorumSize` | internal/helios/l2_checkpoint.go:35-45 | the least number of votes that is at least three and two thirds of the validators |
| `L2Certificates.MessagesHold` | internal/helios/l2_checkpoint.go:463-468 | the list of messages holds every recorded vote of the table once |
| `L2Certificates.MessagesAscend` | internal/helios/l2_checkpoint.go:470-470 | the list of messages is sorted by peer |
| `L2Certificates.BuiltQCVerifies` | internal/helios/l2_checkpoint.go:453-492 | a built certificate passes verifyQC at a peer with the same quorum exactly when all its votes name the recorded parent |
| `L2Certificates.BuiltQCIsAccepted` | internal/helios/l2_checkpoint.go:721-747 | in truthful states every built certificate is accepted by every such peer |
| `L2Certificates.LyingVoteBreaksQC` | internal/helios/l2_checkpoint.go:733-735 | one filed vote with another parent makes the built certificate unacceptable to everyone |
| `L2Certificates.QuorumsOverlap` | internal/helios/l2_checkpoint.go:35-45 | any two quorums of n validators share more than (n-1)/3 signers |
| `L2Network.StepKeepsSysInv` | internal/helios/l2_checkpoint.go:425-515 | every network step keeps: each certificate anywhere is backed by a quorum of signers, the honest among whom cast that vote |
| `L2Agreement.LockedQuorumIsStable` | internal/helios/l2_checkpoint.go:309-365 | once more than n-q honest validators are locked on a block or above, a conflicting block none of them voted for never gets a certificate, under any schedule |
| `L2Agreement.ParentsOnOneBranch` | internal/helios/l2_checkpoint.go:324-344 | under ordered delivery and the fault bound, the parents of any two certified blocks lie on one branch |
| `L2Agreement.Agreement` | internal/helios/l2_checkpoint.go:570-623 | under ordered delivery and the fault bound, blocks committed at any two honest validators lie on one branch |
| `L2Disagreement.AgreementNeedsOrder` | internal/helios/l2_checkpoint.go:309-330 | without the delivery assumption a fault-free run commits the first blocks of any two chains of three that are not on one branch, for every network with an honest quorum; for roots, certificates arrive parents first in that run |
| `L2Service.L2Service.ExtendsLocked` | internal/helios/l2_checkpoint.go:346-365 | the walk loop decides whether the lock is found on the recorded branch within 1024 steps |
| `L2Service.L2Service.SafeToVote` | internal/helios/l2_checkpoint.go:324-344 | the voting rule, branch by branch, equals its specification |
| `L2Service.L2Service.VerifyQC` | internal/helios/l2_checkpoint.go:721-747 | accepts exactly certificates with enough verified votes of distinct peers for one block and parent |
| `L2Service.L2Service.ListVotes` | internal/helios/l2_checkpoint.go:463-468 | the votes of a table in ascending order of peer |
| `L2Service.L2Service.UpdateBlockInfo` | internal/helios/l2_checkpoint.go:218-239 | overwrites the record of a block, and only that |
| `L2Service.L2Service.MarkVoteIfSafe` | internal/helios/l2_checkpoint.go:309-322 | claims the vote or makes the block wait, and tells which |
| `L2Service.L2Service.UpdateLockForQC` | internal/helios/l2_checkpoint.go:401-415 | the lock moves to the block exactly when there is none, or the block is higher and on its branch |
| `L2Service.L2Service.FindGrandChain` | internal/helios/l2_checkpoint.go:588-607 | finds a certified child with a certified child if and only if the tables hold one |
| `L2Service.L2Service.CheckCommitFor` | internal/helios/l2_checkpoint.go:570-653 | commits and notifies L3 exactly when the block is certified, recorded, uncommitted and has a grandchain |
| `L2Service.L2Service.OnCommit` | internal/helios/l2_checkpoint.go:655-693 | a commit from the network is recorded once with its height, and L3 is told once, with the parent and a positive height on record where there are any |
| `L2Service.L2Service.PruneExpired` | internal/helios/l2_checkpoint.go:957-1001 | a vote stays on file if and only if it has not expired, no empty table stays, and records, flags and child tables of committed blocks go; between handlers, with parents certified first, commits stay exact |
| `L2Service.L2Service.RetryPendingVotes` | internal/helios/l2_checkpoint.go:367-399 | terminates; afterwards no waiting block is safe to vote for, and every vote decided on in between was signed and filed |
| `L2Service.L2Service.PublishVote` | internal/helios/l2_checkpoint.go:272-307 | a vote that can be signed and verifies ends up filed; when it cannot be signed nothing changes |
| `L2Service.L2Service.ConsumeVote` | internal/helios/l2_checkpoint.go:425-451 | an invalid vote changes nothing; a new valid one is filed, and a table it brings to the quorum has a certificate |
| `L2Service.L2Service.BuildAndBroadcastQC` | internal/helios/l2_checkpoint.go:453-492 | afterwards the block has a certificate unless it had no quorum of votes; nothing changes when it had none, or had a certificate |
| `L2Service.L2Service.QuorumsAreRecorded` | internal/helios/l2_checkpoint.go:436-446 | in clean histories a block with a quorum of votes and no certificate is always recorded |
| `L2Service.L2Service.StoreQC` | internal/helios/l2_checkpoint.go:517-568 | the re-entrant cascade terminates; the certificate is stored once, its commit checks and L3 notice are done, and no waiting block is safe to vote for |
| `L2Service.L2Service.OnVote` | internal/helios/l2_checkpoint.go:417-423 | a signed vote is filed and counted as for a consumed vote, any other changes nothing; no commit check or notice is left behind |
| `L2Service.L2Service.OnBlock` | internal/helios/l2_checkpoint.go:241-270 | the block is recorded once; in clean histories it is voted for at once if and only if it is a root, there is no lock, or its parent reaches the lock, and else it waits |
| `L2Service.L2Service.OnQC` | internal/helios/l2_checkpoint.go:494-515 | an invalid certificate changes nothing; a new valid one is stored and the cascade settles |
| `L2Service.L2Service.CommittedBetweenHandlers` | internal/helios/l2_checkpoint.go:517-653 | between handlers the committed blocks of the service are exactly the three-chain heads of its certificates |
| `Chain.Chain.QueueChild` | internal/blockchain/block.go:260-264 | the block waits last under its parent hash |
| `Chain.Chain.PopChildren` | internal/blockchain/block.go:266-274 | returns the blocks that wait under a hash, which then wait no longer |
| `Chain.Chain.EnterBlock` | internal/blockchain/block.go:286-304 | records the block, moves the tip to it if and only if it is higher, and indexes only new transactions |
| `Chain.Chain.AcceptBlock` | internal/blockchain/block.go:285-312 | the recursive cascade terminates; known grows by exactly the block and what waits under it, and exactly those stop waiting |
| `Chain.Chain.Deliver` | internal/blockchain/block.go:811-841 | after every delivery known is exactly the blocks linked to a delivered genesis and every other delivery waits with its multiplicity; a ready block is accepted first; the tip moves only to greater heights and index entries stay |
| `Chain.Chain.WaitingIsUnready` | internal/blockchain/block.go:811-841 | no waiting block could be accepted |
| `Chain.Chain.TipIsFirst` | internal/blockchain/block.go:285-293 | the tip is the first block accepted at its height, and nothing higher was accepted |
| `Chain.Chain.IndexIsFirst` | internal/blockchain/block.go:297-303 | exactly the transactions of accepted blocks are indexed, each by the first block accepted that holds it |
| `Chain.Chain.OrderDoesNotMatter` | internal/blockchain/block.go:811-841 | chains that received the same blocks in any order know the same blocks, have one tip height and the same blocks waiting |
| `Chain.Chain.TipPath` | internal/blockchain/block.go:285-293 | from the tip, parent hashes lead through known blocks to a genesis block in exactly tip height - 1 hops |
| `Chain.ReadyLinksWaiting` | internal/blockchain/block.go:305-311 | delivering a ready block links exactly itself and what waits under it |
| `Merkle.ComputeRoot` | internal/merkle/tree.go:12-42 | the level loop computes the recursive root with the duplicate-last rule |
| `Merkle.ComputeProof` | internal/merkle/tree.go:47-87 | the index error exactly outside the list; otherwise the siblings of every level and the root |
| `Merkle.VerifyProof` | internal/merkle/tree.go:91-115 | accepts exactly when climbing the proof from the leaf yields the expected root |
| `Merkle.ProofVerifies` | internal/merkle/tree.go:47-115 | the computed proof of every leaf verifies and is as long as the tree is deep, odd levels included |
| `Merkle.DepthIsCeilLog2` | internal/merkle/tree.go:60-83 | the depth is the logarithm of the number of leaves, rounded up |
| `Merkle.RootSplits` | internal/merkle/tree.go:22-38 | the root of two lists of one power of two is the digest of their roots, left before right |
| `Merkle.ProofBinds` | internal/merkle/tree.go:91-115 | an accepted 32-byte leaf with a proof of full length at an index of the list is the leaf at that index, and the proof is the computed one |
| `Merkle.RootBinds` | internal/merkle/tree.go:12-42 | equal roots of equally long lists of 32-byte leaves mean equal lists |
| `Merkle.RepeatedLastLeafSharesRoot` | internal/merkle/tree.go:24-29 | lists of different length can share a root |
| `Merkle.ShorterProofAcceptsInnerNode` | internal/merkle/tree.go:91-115 | a proof one short verifies an inner node |
| `MerkleBinding.RootsBindIff` | internal/merkle/tree.go:12-42 | for every hash, roots bind lists of lengths m and n without collisions if and only if m = n |
| `MerkleBinding.FullProofNames` | internal/merkle/tree.go:91-115 | at any index, negative or past the end, an accepted proof of full length names the leaf its index leads to |
| `MerkleBinding.PlaceOfIndex` | internal/merkle/tree.go:91-115 | an index of the list leads to itself |
| `MerkleBinding.ShortProofNames` | internal/merkle/tree.go:91-115 | an accepted proof of a lesser length names the node at that many levels below the root |
| `MerkleBinding.LongProofNames` | internal/merkle/tree.go:91-115 | an accepted proof of a greater length climbs to a leaf first |
| `MerkleBinding.ProofsBindIff` | internal/merkle/tree.go:47-115 | proofs of a given length bind the leaves of all lists of n if and only if the length is the depth |
| `Rank.MovingAvg4Q16` | internal/aion/weight.go:29-33 | the average rounded down |
| `Rank.WeightQ16` | internal/aion/weight.go:36-45 | a weight is one plus the scaled product rounded down, or the greatest 32-bit value if that is less; never below one |
| `Rank.WeightMonotone` | internal/aion/weight.go:36-45 | more entropy never weighs less |
| `Rank.NormalizeEntropyQ16` | internal/aion/weight.go:20-25 | 512 per bit, capped at one |
| `Rank.ShiftLeft16` | internal/aion/weight.go:50-60 | the shifted bytes read as the output times 2^16 modulo 2^264 |
| `Rank.RankValue` | internal/aion/weight.go:50-72 | the 33 bytes read as the exact quotient; every digit fits a byte and nothing overflows 64 bits |
| `Rank.CmpRank` | internal/aion/weight.go:75-86 | comparison of bytes is comparison of numbers |
| `Rank.NumeratorIsLowBytes` | internal/aion/weight.go:52-60 | the numerator is the output modulo 2^248, times 2^16 |
| `Rank.HeavierRanksNoLater` | internal/aion/weight.go:47-72 | a heavier weight never gives a greater rank |
| `Rank.RankFollowsLowBytes` | internal/aion/weight.go:47-72 | for one weight ranks follow the outputs modulo 2^248: one is less than another if and only if a multiple of the weight separates the numerators, and at weight one exactly when the outputs modulo 2^248 differ that way |
| `Rank.TopByteIsIgnored` | internal/aion/weight.go:52-60 | outputs that differ only in the top byte rank the same |
| `Entropy.IntLog2Q16` | internal/aion/weight.go:88-101 | floor of the logarithm and the first 16 bits after the leading one |
| `Entropy.HMinBits` | internal/aion/entropy.go:8-26 | floor of log2 of n over the greatest count, or the cap; 0 in the degenerate cases |
| `Entropy.HRenyi2Bits` | internal/aion/entropy.go:30-51 | floor of log2 of the 64-bit square of n over the sum of squares, or the cap; 0 when that ratio is below one |
| `Entropy.HLowerBoundBits` | internal/aion/entropy.go:54-68 | the minimum of the values, capped at 128 |
| `Entropy.HMinAtMostH2` | internal/aion/entropy.go:8-51 | the min-entropy estimate never exceeds the collision estimate |
| `Entropy.HMinAtMost8` | internal/aion/entropy.go:8-26 | with 256 symbols the min-entropy estimate is at most 8 |
| `Entropy.CountBytes` | internal/aion/chainentropy.go:27-66 | the counts are the histogram of all bytes and sum to their number |
| `Entropy.Stats` | internal/aion/chainentropy.go:70-79 | the greatest count, and the sum of squares modulo 2^64 |
| `Entropy.EpochEntropyQ16` | internal/aion/chainentropy.go:15-84 | below 2^32 bytes the result is 512 times the integer min-entropy of the bytes and at most 4096; for any number of bytes it is at most that, with equality if and only if the 64-bit collision estimate does not lower it; at 2^32 bytes it is 0 |
| `AionSchedule.RunTallies` | internal/aion/gossip.go:470-622 | with at most one message of each kind per peer, in any number of copies, the four tables are determined by the messages sent and the reveals accepted |
| `AionSchedule.DeliveryOrderIrrelevant` | internal/aion/gossip.go:489-622 | deliveries of the same messages, copies included, with first commits before reveals, through the stash or not, end with one VRF table |
| `AionSchedule.SameTableIff` | internal/aion/gossip.go:489-622 | without that assumption, two orders end with one VRF table if and only if they accept the same reveals among those that pair with a VRF message |
| `AionSchedule.AcceptedByContent` | internal/aion/gossip.go:489-506 | with commits first, acceptance of a reveal depends on the messages only |
| `AionSchedule.OutputsAreProved` | internal/aion/gossip.go:510-613 | whatever messages arrive, every output in the VRF table came with a proof that verifies under the peer's key and an input that begins with a seed the peer revealed |
| `AionSchedule.TableExactly` | internal/aion/gossip.go:489-613 | with one message of each kind per peer, the VRF table holds exactly the outputs so proved with a seed accepted |
| `AionSchedule.MalformedIsIgnored` | internal/aion/gossip.go:475-557 | a message with a field of wrong length changes nothing |
| `AionDivided.OutputsAreProved` | internal/aion/gossip.go:510-613 | every output was proved also when the handlers interleave section by section |
| `AionDivided.TableExactly` | internal/aion/gossip.go:489-622 | with handlers so divided the table holds exactly the outputs whose proof verifies and whose input begins with a seed filed before the look or after the act |
| `AionSchedule.RevealBetweenLookAndStash` | internal/aion/gossip.go:560-590 | a reveal between the seed lookup and the stash leaves its peer out at the stash, in either undivided order it is in |
| `AionDivided.DividedLosesIff` | internal/aion/gossip.go:559-590 | the divided handler fails to admit a peer the undivided one admits if and only if the VRF proves the seed on file at the stash and proved none at the look |
| `AionDivided.TablesOfRun` | internal/aion/gossip.go:489-622 | over every interleaving of the handlers' critical sections a peer is in the VRF table if and only if a seed its VRF proves was filed outside the time some handling of the message took from look to act |
| `AionDivided.DividedHandlers` | internal/aion/gossip.go:489-622 | the VRF table of divided handlers is that of undivided ones without the peers whose seed was always filed between look and act |
| `AionDivided.NodesAgreeIff` | internal/aion/gossip.go:489-622 | two nodes with the same messages, commits first, agree on the table if and only if the same candidates were left out at both |
| `AionSchedule.LateCommitIsNotChecked` | internal/aion/gossip.go:500-506 | a reveal delivered before its commit is accepted even if it does not open it |
| `AionSchedule.RankedUnique` | internal/aion/gossip.go:687-692 | a table has only one list of its peers sorted by rank and peer id |
| `AionSchedule.Service.UpdateLeader` | internal/aion/gossip.go:658-709 | the schedule lists the peers of the table by rank, ties by peer id, and its head leads |
| `AionSchedule.Service.OnCommit` | internal/aion/gossip.go:470-487 | the last commit of 32 bytes counts; the tables are what the delivered messages make of them |
| `AionSchedule.Service.OnReveal` | internal/aion/gossip.go:489-549 | a seed that opens the commit on file is kept, and a stashed VRF that verifies and begins with it moves to the table |
| `AionSchedule.Service.PromotePending` | internal/aion/gossip.go:515-546 | a stashed VRF that proves the seed moves to the table, any other stays stashed |
| `AionSchedule.Service.OnVRF` | internal/aion/gossip.go:551-622 | stashed without a seed; otherwise admitted exactly if its input begins with the seed and its proof verifies |
| `AionSchedule.Service.OnEntropy` | internal/aion/gossip.go:624-640 | an entropy report rebuilds the same schedule |
| `AionSchedule.HasPrefix` | internal/aion/gossip.go:518-525 | the loop decides whether the input begins with the seed |
| `AionSchedule.SameSchedule` | internal/aion/gossip.go:489-709 | services that handled the same messages, commits first, in any orders and copies, agree on VRF table, schedule and leader |
| `Mempool.ReplayTable.UpdateLastSeq` | internal/coseutil/cose.go:52-63 | records a sequence number exactly when it is above the last one of its key |
| `Mempool.NextSeqIsNew` | internal/coseutil/cose.go:52-70 | a number above the last one of its key was never admitted under that key, and recording it keeps that |
| `Mempool.AdvanceKeepsNoReplay` | internal/gossip/pubsub.go:129-131 | other users who advance the table keep the protection |
| `Mempool.AddedAgainIff` | internal/mempool/mempool.go:63-74 | an id admitted before is added again if and only if no admission of it is held, it fits the byte cap and its number is above the last one of its key; that is then another key, and earlier fates stay |
| `Mempool.SameIdUnderTwoKeys` | internal/coseutil/cose.go:171-173 | one payload under two key ids is added, popped and added again |
| `Mempool.KeysMeet` | internal/coseutil/cose.go:65-70 | two devices or key ids share a replay key only if a device id without key id spells the other pair |
| `Mempool.AddingExits` | internal/mempool/mempool.go:63-104 | the cause of each exit, when the sequence number is used up, and that what leaves the queue is expired or in the way of a cap |
| `Mempool.Pool.Sweep` | internal/mempool/mempool.go:165-192 | drops exactly the leading expired entries and keeps order, table, byte count and ledger in step |
| `Mempool.SweepLeavesFresh` | internal/mempool/mempool.go:165-192 | in arrival order those are all the expired entries |
| `Mempool.SweepExpiresTheStale` | internal/mempool/mempool.go:165-192 | exactly the held admissions that are too old become expired, settled fates stay |
| `Mempool.Pool.MakeRoom` | internal/mempool/mempool.go:75-97 | evicts the oldest until both caps leave room; the mempool_full exit is unreachable |
| `Mempool.EvictingMakesRoom` | internal/mempool/mempool.go:75-97 | no more is evicted than each cap demands, and what remains leaves room |
| `Mempool.EvictionTakesTheOldest` | internal/mempool/mempool.go:75-97 | exactly the evicted prefix of the order becomes evicted, settled fates stay |
| `Mempool.Pool.AddValidated` | internal/mempool/mempool.go:56-104 | each exit with its exact cause and new state; what is added was not admitted before under the same id and key |
| `Mempool.Pool.PopBatch` | internal/mempool/mempool.go:107-129 | returns and removes the oldest entries in order, all of them for a count of zero or less |
| `Mempool.Pool.RemoveTxIDs` | internal/mempool/mempool.go:133-162 | removes exactly the named entries, keeps the order of the rest and counts what it removed |
| `Mempool.Pool.Len` | internal/mempool/mempool.go:36-41 | the number of entries left after a sweep |
| `L3Finality.RequiredDevices` | internal/helios/l3_finality.go:1018-1023 | the least number of votes that is two thirds of the devices |
| `L3Finality.ReadyExactly` | internal/helios/l3_finality.go:716-761 | a committed block with two thirds of the devices and its share of the stake is ready within the grace period exactly with min(minCells, active) cells, and afterwards exactly with none or half of them |
| `L3Finality.FirstAttestationStalls` | internal/helios/l3_finality.go:731-748 | after the grace period the first attestation takes a ready block out of readiness exactly when three or more cells are required |
| `L3Finality.FinalizeKeeps` | internal/helios/l3_finality.go:703-714 | a finalisation leaves evidence that stands: committed, two thirds of the devices, enough weight, the cells asked for at that time, and the envelope names cells and certificates counted |
| `L3Finality.L3Service.FinalisedIsAttested` | internal/helios/l3_finality.go:703-761 | a block finalised within the grace period has min(minCells, active) cells in its envelope, a later one none or half of them |
| `L3Finality.TouchKeeps` | internal/helios/l3_finality.go:452-474 | an update that does not decide finality keeps all evidence standing and settled blocks frozen |
| `L3Finality.L3Service.IsReady` | internal/helios/l3_finality.go:716-761 | the readiness test, with its cell and grace rule, equals its specification |
| `L3Finality.L3Service.ActiveCount` | internal/helios/l3_finality.go:135-145 | the number of active cells |
| `L3Finality.L3Service.MaybeFinalize` | internal/helios/l3_finality.go:703-714 | finalises exactly a ready block that is not final, with an envelope of its height, certificates and cells, and notes the evidence |
| `L3Finality.L3Service.EnsureBlock` | internal/helios/l3_finality.go:435-449 | adds a blank entry, first seen now, only where there is none |
| `L3Finality.L3Service.RecordBlockMeta` | internal/helios/l3_finality.go:452-474 | sets place and commit flag of the block; a commit is never taken back |
| `L3Finality.L3Service.RecordDescendantQC` | internal/helios/l3_finality.go:683-701 | adds the certificate and its weight, then decides |
| `L3Finality.L3Service.OnAttestation` | internal/helios/l3_finality.go:518-574 | an active cell counts once per block and not after it is final; failed checks are counted against the cell; otherwise at most an empty entry is added |
| `L3Finality.L3Service.RecordDeviceAttestation` | internal/helios/l3_finality.go:577-620 | a new vote by an attester on an unsettled block is recorded, the totals reported are those after it, and then the block is decided |
| `L3Finality.L3Service.OnEnvelope` | internal/helios/l3_finality.go:665-680 | an envelope from the network is kept and makes its block final; other entries stay |
| `L3Finality.L3Service.RecordFailure` | internal/helios/l3_finality.go:636-645 | counts the failure and quarantines at the limit |
| `L3Finality.L3Service.UpdateStatus` | internal/helios/l3_finality.go:100-110 | changes the status of a known cell only |
| `L3Finality.L3Service.RegisterCell` | internal/helios/l3_finality.go:498-506 | a cell with an id becomes active |
| `L3Finality.L3Service.UpdateDeviceTotal` | internal/helios/l3_finality.go:477-487 | the number of devices only grows |
| `L3Finality.L3Service.UpdateTotalStake` | internal/helios/l3_finality.go:385-393 | only a positive stake replaces the stake |
| `L3Finality.L3Service.RecheckPending` | internal/helios/l3_finality.go:818-827 | afterwards no block is ready and not final, and only ready blocks were finalised |
| `L3OverL2.RunKeepsNotes` | internal/helios/l2_checkpoint.go:523-565 | over every L2 run L3 was told once of each certificate not still owed and of each commit |
| `L3OverL2.L3AgreesWithL2` | internal/helios/l3_finality.go:683-701 | once nothing is owed, the weight of a block is the number of votes in the certificates of its children, each counted once, and the commit flags agree |
| `L3OverL2.FinalisedMeansCommitted` | internal/helios/l3_finality.go:703-761 | a block finalised by the node is a three-chain head of L2 with two thirds of the devices and the threshold of the stake known at that step |
| `L3OverL2.FinalityAgrees` | internal/helios/l3_finality.go:703-714 | under the assumptions of agreement, blocks finalised at any two honest nodes lie on one branch |
| `L3OverL2.BareQuorumMeetsThreshold` | internal/helios/l3_finality.go:32-38 | the numbers of validators for which a bare quorum meets the default threshold, exactly |
| `L3OverL2.LoneBareQuorumIsNotEnough` | internal/helios/l3_finality.go:754-759 | with 6, 9, 12, ... validators one child certificate with a bare quorum never makes a block ready |
| `L3OverL2.Relay` | internal/helios/l2_checkpoint.go:650-652 | each notice of L2 is one call that L3 hears |

## Left out

- libp2p streams and topics, HTTP handlers, goroutines, tickers, flags and logging: plumbing around the handlers modelled here.
- CBOR, COSE_Sign1 (section 4.2 of RFC 9052) and Ed25519: message checks are abstract predicates.
- Disk persistence of blocks, indexes and registries; every run starts empty.
- L1 notarisation, IoT registry, node directory and cell formation: further tables of the same kind.
- L2: sending messages to the network, `UpdateQuorumSize` within a run, status and debug views, and the transaction root kept with a block record.
- L2: a handler interleaved between listing the votes of a block and storing the certificate made of them.
- L2Service.L2Service.BuildAndBroadcastQC: a quorum of votes for a block whose record is missing is excluded; the source would use an empty record. It needs a commit learned from the network and a prune between counting the vote and building (`QuorumsAreRecorded`).
- Chain: validation of a block before it is accepted, and requests for missing parents.
- Chain.Chain.AcceptBlock: does not state in which order the blocks that wait for one parent are accepted.
- Chain.Chain.OrderDoesNotMatter: does not compare the tip hash and the transaction index, because among equally high tips, and among blocks that hold one transaction, the first accepted wins (`TipIsFirst`, `IndexIsFirst`).
- Merkle.VerifyProof: siblings are values; the source appends to the caller's sibling slices, whose spare capacity it may overwrite.
- Entropy.EpochEntropyQ16: the bytes of the epoch's transactions are given; finding the blocks of the epoch, extracting the bytes, and the checks on the epoch length are not modelled.
- AION: several epochs at once, slot rotation among leaders (`AllowProduceSlot`), Shannon entropy in floating point, entropy per cell, and the status view.
- AionSchedule.SortCands: the library sort is modelled by its contract and a plain insertion, not by its algorithm.
- AionSchedule.Service.UpdateLeader: the weight is fixed, while in the source it follows the blocks of earlier epochs; and the table is read and the schedule written in one step, which the source does in two.
- Mempool: the raw bytes of a transaction (their number and the key id in them are kept) and `Snapshot`.
- L3: challenge and response handlers, sampling plans, aggregate signatures, attestation contents, misbehaviour counts of blocks, and rounding of the stake ratio.
- L3: block entries are values in a table; the source shares pointers to them between the table and its callers within one critical section.
- L3Finality.L3Service.RecordDeviceAttestation: votes are counted by the id as spelled and attesters by its lower-case form, as in the source; that two spellings are one device is not modelled.
