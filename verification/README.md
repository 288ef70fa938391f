# Proofs about the ratchet tree, the group, the ordering authority and the delivery protocol

This project models the core of the MLS library and of the IronCore group-key control plane built
on it, in Dafny, and proves what the code relies on. Where the code updates things in place the
model is a class whose methods are proved equal to a function of the old state; the properties are
then lemmas about those functions, over every input, every reachable tree and every run.

The cryptography is symbolic: hashes, derivations, MACs, signatures and sealed boxes are free
constructors, so two results are equal only if made from equal parts and a ciphertext opens only
under its own key and context. Fresh randomness is a precondition of the step that draws it. Clocks
are parameters. For the safety results of the delivery protocol the network is the set of everything
ever published: any message may arrive late, out of order, again, or never, which covers drops,
delays, partitions and reflector outages. The bus hands a message to a receiver at most once, so the
recovery results and the failing runs are also stated on a network that forgets what it delivers.

## What is proved, in outline

1. **Tree and TreeKEM** (`TreeMath`, `Ratchet`, `PathInstall`, `TreeInvariant`, `Coverage`,
   `ParentHashes`, `TreeKem`, and the object `RatchetTrees.RatchetTree`). Every tree reachable by
   updates, removes, adds and path installations is well formed and parent-hash valid; each member
   but the sender is covered by exactly one copath entry; processing an update path gives the
   sender's secrets exactly to those who hold a recipient's key.
2. **Group** (`KeySchedule`, `GroupOps`, `GroupAgreement`, `GroupSteps`, `GroupRun`, and the object
   `Groups.Group`). In every asynchronous run with one committing leaf all members agree with the
   committer at each epoch and nobody ever rejects a commit or a Welcome.
3. **Alternating committers** (`OwnKeys`, `Proposals`, `CommitterSwitch`, `SwitchRuns`,
   `FreshValues`, `SwitchExamples`). In every run in which any member may commit, with any proposals,
   and all have followed so far, a member follows the next commit exactly when a stated condition on
   the last committer's tree holds; two complete runs show both ways it can fail.
4. **Ordering authority** (`FencingSpec`, `Sequencers`, `FencingRuns`). Over every interleaving and
   every behaviour of the clocks: tokens, winners and exactly when a write is fenced; with one shared
   clock, exclusivity.
5. **Delivery** (`Delivery`, `DeliveryAgreement`, `DeliveryDataPlane`, `DeliveryReadding`,
   `DeliveryRecovery`, `DeliveryLimits`, `ReplayWindow`, and the objects in `Clients`). One commit
   sequence per replica, a log that lacks at most the head, catch-up, no packet ahead of its receiver
   and no loss inside the overlap, opening each packet at most once, and exactly when the replica can
   recover and when adding a member again overtakes it.
6. **Supports**: the secret tree (`SecretTrees`), the wire codec (`Bytes`, `Codec`) and the
   reconcile step (`Controller`).

Nodes are addressed by level and position, `Index(k, j)`; leaf `L` lies below `(k, j)` exactly when
`Shr(L, k) == j`, so most tree arguments need no index arithmetic.

### Where the source promises more than the code gives

- The simulation design promises that every packet that is not dropped can be decrypted
  (docs/superpowers/specs/2026-06-28-metalnet-simulation-design.md:33), and the sender-lag comment
  (sim/client.go:615-617) that a sender uses only an epoch the whole replica has reached. This fails
  when a member is removed and added again before it has seen its removal: `ReaddedIsOvertaken` gives
  the run for every overlap. `OvertakesIff` is exact: adding someone still joined can put a packet
  ahead of it if and only if some other staying member is behind the committer or does not list it as
  a peer. `NeverAheadNorLostInWindow` proves the promise for every run whose reconciles avoid just
  that. Those conditions read other clients' states; a caller can keep to `AddingOnceIsClear`: add
  nobody an earlier commit added.
- The resend comment calls the mechanism the entire recovery story for drops (sim/client.go:458-461).
  `RecoversIff`: whatever of the published messages is still in flight, the replica can recover if and
  only if everyone with an outstanding Welcome is still there or has a heartbeat in flight.
  `ReaddedIsStuck` reaches the other case: someone who has left is invited again, nobody is there to
  join, and the committer never commits again.
- The sequencer is documented to accept only while it holds a valid lease
  (ironcore/sequencer/fencing.go:142-144), which suggests that one shared clock rules out ErrFenced.
  It does not (`FencedAcrossExpiry`), because the lease is checked before the register is written. A
  pending write is fenced if and only if a newer token of its VNI has been let through (`FencedIff`,
  any clocks); under one clock, if and only if its lease ran out, another sequencer was then granted a
  newer token, and that token was let through (`FencedByTakeoverIff`). Expiry alone fences nothing.
- The lease store promises strictly increasing tokens (ironcore/sequencer/fencing.go:30-32). They
  increase until the 64-bit counter wraps (`MintGrowsIff`). Only results that compare minted tokens
  assume fewer than 2^64 of them; winners, written tokens and exclusivity hold for runs of any length.
- RFC 9420 lets any member commit, and section 12.4.2 has every other member process the commit. The
  code derives one path secret per tree level when it rebuilds a member's keys
  (mls/group/group.go:116-135) and drops the keys below the meeting node
  (mls/group/process.go:530-545), but derives one secret per filtered node when generating
  (mls/tree/treekem.go:319-333). `RunFollowsIff` says exactly which members follow the next commit: the
  last committer; those whose covering entry is their own leaf; and those whose covering entry is no
  lower than where their path met the last committer's, with no blank node on their path between.
  `ThirdCommitterRejected` and `SkippedLevelRejected` are runs that fail each half.

## Model

| member | source | states |
|---|---|---|
| TreeMath.BitsAreEdges | mls/tree/math.go:45-77 | the xor, shift and or expressions for left, right and parent are the edges of the tree in level and position |
| TreeMath.ChildrenHaveParent | mls/tree/math.go:45-93 | for every leaf count, both children of an internal node are distinct, in range and have it as parent |
| TreeMath.NodeIsChild | mls/tree/math.go:83-109 | every node but the root is the left or the clamped right child of its parent |
| TreeMath.SiblingInvolution | mls/tree/math.go:98-109 | the sibling is another in-range node with the same parent, whose sibling is the node itself |
| TreeMath.ClimbReachesRoot | mls/tree/math.go:39-93 | from any node, ceil(log2 n) parents lead to the root |
| TreeMath.CompleteEdges | mls/tree/math.go:39-93 | with a power-of-two leaf count nothing is clamped |
| TreeMath.ComputeLevel | mls/tree/math.go:27-36 | the counting loop computes the level |
| TreeMath.Left | mls/tree/math.go:45-51 | left child, none for a leaf |
| TreeMath.Right | mls/tree/math.go:57-68 | right child with its clamping loop, which ends; all values fit 32 bits |
| TreeMath.Parent | mls/tree/math.go:83-93 | parent with its clamping loop, which ends |
| TreeMath.Sibling | mls/tree/math.go:98-109 | sibling through the parent |
| Ratchet.AtUpdated | mls/tree/mutate.go:52-71 | an update changes the leaf and blanks its ancestors, and nothing else |
| Ratchet.AtRemoved | mls/tree/mutate.go:75-102 | a removal blanks the leaf and its ancestors; truncating and padding change no node |
| Ratchet.AtAdded | mls/tree/mutate.go:107-169 | an addition writes one leaf and lists it at every populated ancestor; growing changes no node |
| Ratchet.FirstBlankIsFirst | mls/tree/mutate.go:108-137 | the new member takes the leftmost blank leaf |
| TreeInvariant.UpdatedOk | mls/tree/mutate.go:52-71 | an update of a member's leaf keeps the tree well formed |
| TreeInvariant.RemovedOk | mls/tree/mutate.go:75-102 | a removal keeps the tree well formed, tight width included |
| TreeInvariant.AddedOk | mls/tree/mutate.go:107-169 | an addition keeps the tree well formed, growth included |
| TreeInvariant.MergedOk | mls/tree/treekem.go:121-188 | installing a path and its leaf keeps the tree well formed |
| TreeInvariant.ReachableOk | mls/tree/mutate.go:52-169 | every tree reachable from one leaf: unmerged lists sorted, present, listed at every node between; a member under both children of each populated parent; tight width |
| TreeInvariant.TightIsLeast | mls/tree/node.go:83-113 | a tight width is the least 2^k-1 that holds every member |
| TreeInvariant.CloneIsIdentity | mls/tree/mutate.go:42-48 | marshal, trim, parse and pad give back the same array, or fail exactly when no member is left |
| Coverage.CoveredExactlyOnce | mls/tree/treekem.go:50-64 | each member but the sender is covered by exactly one entry over all copath resolutions |
| Coverage.SenderNotCovered | mls/tree/treesync.go:7-27 | no copath entry covers the sender |
| ParentHashes.UpdatedHashesOk | mls/tree/mutate.go:52-71 | an update keeps parent-hash validity |
| ParentHashes.RemovedHashesOk | mls/tree/mutate.go:75-102 | a removal keeps parent-hash validity |
| ParentHashes.AddedHashesOk | mls/tree/mutate.go:107-169 | adding a key-package leaf keeps parent-hash validity |
| ParentHashes.MergedHashesOk | mls/tree/treekem.go:121-188 | a path with fresh keys and its commit leaf keeps exactly one matching orientation at every populated parent |
| ParentHashes.ReachableHashesOk | mls/tree/validation.go:24-129 | every tree reachable by honest operations is parent-hash valid |
| TreeKem.GeneratedOpens | mls/tree/treekem.go:205-442 | whoever holds current keys opens a generated path to the sender's own commit secret and the path secret the sender keeps for the lowest node that holds something for it, or to nothing exactly when no node does |
| TreeKem.ProcessInvertsGenerate | mls/tree/treekem.go:205-286 | with current keys, processing yields the sender's secrets from the lowest level that holds something for the receiver, or nothing exactly when none does; never an error |
| TreeKem.CoveredReceiver | mls/tree/treekem.go:205-286 | a receiver with just its covering entry's key gets the path secret of the meeting node and the commit secret |
| RatchetTrees.ComputeFullWidth | mls/tree/node.go:83-89 | the doubling loop computes the least complete width |
| RatchetTrees.RatchetTree.BlankDirectPath | mls/tree/mutate.go:58-69 | the climbing loop blanks exactly the direct path |
| RatchetTrees.RatchetTree.UpdateLeaf | mls/tree/mutate.go:52-71 | the array becomes the updated one, or is untouched when the leaf is out of range |
| RatchetTrees.RatchetTree.RemoveLeaf | mls/tree/mutate.go:75-102 | the array becomes the removed, truncated, re-padded one, or is untouched |
| RatchetTrees.RatchetTree.MakeRoom | mls/tree/mutate.go:108-137 | finds the leftmost blank leaf, growing to the next complete width when there is none |
| RatchetTrees.RatchetTree.MarkDirectPath | mls/tree/mutate.go:145-166 | lists the leaf, in order, at every populated ancestor |
| RatchetTrees.RatchetTree.AddLeaf | mls/tree/mutate.go:107-169 | the array becomes the one with the leaf added, and the index is returned |
| RatchetTrees.RatchetTree.Clone | mls/tree/mutate.go:42-48 | a fresh tree with the trimmed and padded array, or none |
| RatchetTrees.RatchetTree.ResolutionOf | mls/tree/treesync.go:7-27 | the recursion computes the resolution |
| RatchetTrees.RatchetTree.TreeHashOf | mls/tree/treesync.go:45-95 | the recursion computes the tree hash without the excluded leaves |
| RatchetTrees.FilterLeaves | mls/tree/treesync.go:98-106 | the loop keeps, in order, what is not excluded |
| RatchetTrees.RatchetTree.CopathChild | mls/tree/treekem.go:30-45 | from any lower node of the sender's path, the child off that path |
| RatchetTrees.LeafInside | mls/tree/validation.go:61-64 | the span test decides whether a leaf lies below a node |
| RatchetTrees.RatchetTree.FilteredDirectPath | mls/tree/treekem.go:50-64 | the climbing loop lists the filtered direct path |
| RatchetTrees.RatchetTree.ParentHashFor | mls/tree/validation.go:24-42 | the parent hash with the unmerged leaves left out of the sibling's tree hash |
| RatchetTrees.RatchetTree.InstallPath | mls/tree/treekem.go:121-156 | blanking, keying and hashing from the top give the installed path, or nothing changes on a length mismatch |
| RatchetTrees.RatchetTree.LeafParentHashFor | mls/tree/treekem.go:161-171 | the hash the new leaf carries |
| RatchetTrees.RatchetTree.Merge | mls/tree/treekem.go:177-188 | the array becomes the merged one, or is untouched |
| RatchetTrees.RatchetTree.OpenNode | mls/tree/treekem.go:226-257 | the ciphertext index counts only entries not newly added, so it is the held entry's own |
| RatchetTrees.RatchetTree.ProcessUpdatePath | mls/tree/treekem.go:205-286 | the loops compute the opening of the path |
| RatchetTrees.RatchetTree.GenerateUpdatePath | mls/tree/treekem.go:303-442 | tree, path, commit secret and secrets by node are those of the specification; errors leave the tree untouched |
| RatchetTrees.RatchetTree.HasParentHashMatch | mls/tree/validation.go:70-102 | decides whether one orientation of a parent matches |
| RatchetTrees.RatchetTree.VerifyParentHashes | mls/tree/validation.go:107-129 | decides parent-hash validity of the whole array |
| KeySchedule.TagBindsInputs | mls/keyschedule/schedule.go:28-105 | equal confirmation tags mean equal init secret, commit secret and context |
| GroupAgreement.WelcomeSecretFound | mls/group/welcome_gen.go:76-88 | the common ancestor of committer and any other member carries the path secret of its rank, so the Welcome lookup never fails |
| GroupAgreement.MemberCanOpen | mls/tree/treekem.go:222-257 | under a single writer a member with its leaf key holds a recipient's key at the meeting level |
| GroupSteps.CommitSucceeds | mls/group/commit_gen.go:34-255 | an honest commit succeeds, advances the epoch and keeps the committer's invariants |
| GroupSteps.WelcomeShape | mls/group/welcome_gen.go:26-125 | an honest commit with additions yields one Welcome entry per added member, in order |
| GroupSteps.ProcessAgreesIff | mls/group/process.go:337-572 | in any tree a member with current keys reaches the committer's new epoch if and only if it holds a recipient's key, and otherwise rejects |
| GroupSteps.MemberFollows | mls/group/process.go:337-572 | under a single committer every remaining member follows, with all its invariants |
| GroupSteps.JoinerFollows | mls/group/join.go:28-219 | an added member joins from the Welcome with the committer's tree, context, transcript and secrets |
| GroupRun.RunAgrees | mls/group/commit_gen.go:34-255 | in every world of every asynchronous run, each member equals the committer at its epoch |
| GroupRun.RunNeverRejects | mls/group/process.go:337-572 | no remaining member rejects a commit and no added one its Welcome |
| GroupRun.CreatedStarts | mls/group/create.go:19-76 | a newly created group starts such a run |
| OwnKeys.ProcessTries | mls/tree/treekem.go:205-286 | a member whose keys, current or stale, lie on its own path tries at most one of them, at the level where its path meets the sender's: it gets the sender's secrets if that key is current, an error if it is stale, nothing if it holds no recipient's key |
| OwnKeys.ProcessIs | mls/group/process.go:337-572 | so such a member reaches the committer's new epoch, with its keys rebuilt, or rejects, and which of the two |
| Proposals.ProposalsCarry | mls/group/process.go:98-138 | proposals that spare a member keep the tree well formed and the member's leaf key valid, add no parent and change no parent's key, and an own Update leaves nothing but the leaf on its path |
| CommitterSwitch.KeysAfterFollowing | mls/group/process.go:530-545 | the keys a member holds after a commit: its leaf's and those from the meeting node up, no others, each one derivation per level further |
| CommitterSwitch.UnbrokenIff | mls/group/group.go:116-135 | those derivations meet the committer's, one per filtered node, up to a level if and only if no node of the path up to there is blank |
| CommitterSwitch.SwitchFollowsIff | mls/group/process.go:337-572 | after one commit a member follows any other member's next one, with any proposals that spare it, if and only if it has its own pending Update's key and is the last committer, or is covered by its own leaf, or by an unbroken node no lower than where its path met the last committer's |
| CommitterSwitch.CommittedAfter | mls/group/commit_gen.go:34-255 | a committer is left with the keys of the filtered nodes of its path |
| CommitterSwitch.FollowedAfter | mls/group/process.go:337-572 | whoever follows is left at the committer's epoch with keys rebuilt from that one commit |
| CommitterSwitch.JoinedAfter | mls/group/join.go:28-219 | whoever joins by the Welcome is left as one who followed |
| SwitchRuns.RunFollowsIff | mls/group/process.go:337-572 | in every run from a created group in which members commit in any order, with updates, removes and adds, and all have followed so far, a member follows the next commit exactly under that condition |
| SwitchExamples.ThirdCommitterRejected | mls/group/process.go:337-572 | a run from a created group to four members, in which leaf 1 makes a commit that leaves 2 and 3 reject |
| SwitchExamples.SkippedLevelRejected | mls/group/group.go:116-135 | a run in which two of nine members are removed and leaf 1 then rejects leaf 8's commit though it holds a key for the entry covering it, above where its path met the last committer's |
| Groups.LowestCommonAncestor | mls/group/group.go:100-112 | the climbing loops stop at the first level where both nodes' ancestors coincide |
| Groups.LeafCommonAncestor | mls/group/group.go:100-112 | for two leaves that is the node where their paths meet |
| Groups.InstallJoinerPriv | mls/group/group.go:116-135 | adds the keys from the common ancestor to the root, one derivation per level |
| Groups.ApplyAll | mls/group/process.go:98-138 | updates, removes and adds applied to the working tree give its new array, leaves and packages, or an error |
| Groups.BuildWelcome | mls/group/welcome_gen.go:76-117 | one entry per added leaf, or an error when a path secret is missing |
| Groups.Group.Commit | mls/group/commit_gen.go:34-255 | on success the object is at the specified next epoch and the message and Welcome are returned; on error, a blank node to encrypt to included, it is unchanged |
| Groups.Group.ProcessCommit | mls/group/process.go:337-572 | on success the object is at the specified next epoch; on error it is unchanged |
| Groups.NoBlankRecipient | mls/tree/treekem.go:362-379 | in a well-formed tree every node to encrypt to has a key |
| FencingSpec.SeqKeyInjective | ironcore/sequencer/sequencer.go:18-23 | different (group, epoch) pairs have different keys |
| Sequencers.MemorySequencer.AcceptCommit | ironcore/sequencer/sequencer.go:54-63 | the first commit of a slot wins, the same one again is accepted, nothing decided changes |
| Sequencers.MemorySequencer.Decided | ironcore/sequencer/sequencer.go:67-75 | returns a commit exactly when that commit was answered true for the slot |
| Sequencers.MemoryLeaseStore.Acquire | ironcore/sequencer/fencing.go:56-67 | refuses while another owner's lease is live, else mints the next token |
| Sequencers.MemoryLeaseStore.Renew | ironcore/sequencer/fencing.go:70-80 | extends only the current holder's lease |
| Sequencers.MemoryLeaseStore.Release | ironcore/sequencer/fencing.go:83-91 | drops only the current holder's lease |
| Sequencers.FencedRegister.Accept | ironcore/sequencer/fencing.go:115-128 | fences tokens below the highest seen, else decides as the plain register |
| Sequencers.FencedSequencer.AcceptCommit | ironcore/sequencer/fencing.go:174-193 | reuses or acquires a lease, stands by without one, and writes under its token |
| FencingRuns.RunTokensAndWinners | ironcore/sequencer/fencing.go:56-128 | in every interleaving with any clocks: written tokens never decrease, one winner per slot, and minted tokens strictly increase while fewer than 2^64 were minted |
| FencingRuns.OneWinnerForever | ironcore/sequencer/fencing.go:174-193 | two commits ever answered true for one slot are the same |
| FencingRuns.StaleFencedForever | ironcore/sequencer/fencing.go:115-128 | once a newer token has reached the register every older one is fenced, at any epoch |
| FencingRuns.MintGrowsIff | ironcore/sequencer/fencing.go:56-67 | a minted token exceeds the last if and only if the counter has not wrapped |
| FencingRuns.OneLiveHolder | ironcore/sequencer/fencing.go:56-67 | with one shared clock at most one sequencer holds a live lease on a VNI |
| FencingRuns.OthersStandBy | ironcore/sequencer/fencing.go:174-193 | every other one's attempt changes neither store nor register |
| FencingRuns.LiveWriteNotFenced | ironcore/sequencer/fencing.go:115-128 | a write under a live lease is not fenced |
| FencingRuns.AtomicAcceptNotFenced | ironcore/sequencer/fencing.go:174-193 | check and write in one step are never fenced |
| FencingRuns.FencedIff | ironcore/sequencer/fencing.go:115-128 | in every run with any clocks a pending write is fenced if and only if a newer token of its VNI has been let through |
| FencingRuns.FencedByTakeoverIff | ironcore/sequencer/fencing.go:174-193 | under one shared clock, if and only if its lease ran out, another sequencer was then granted a newer token, and that was let through |
| FencingRuns.FencedAcrossExpiry | ironcore/sequencer/fencing.go:174-193 | a run in which a lease expires between check and write, another sequencer takes over, and the write is fenced |
| DeliveryAgreement.MembersAfter | ironcore/controller.go:261-383 | a commit removes and adds exactly whom it names |
| DeliveryAgreement.OneCommitter | sim/client.go:210-222 | the lowest leaf is the founder's for good, so nobody else ever commits |
| DeliveryAgreement.RunAgreed | sim/client.go:210-479 | the replica invariant holds after every sequence of steps |
| DeliveryAgreement.SameCommits | sim/client.go:298-327 | joined members at one epoch have applied the same commits, a prefix of the committer's |
| DeliveryAgreement.LogComplete | sim/ds.go:79-103 | the log has one record per base, in order, and lacks at most an unconfirmed head |
| DeliveryAgreement.ServedIsSuffix | sim/ds.go:115-125 | a catch-up reply is the log from the requested base on |
| DeliveryAgreement.LogReplyCatchesUp | sim/client.go:394-417 | a delivered reply takes its receiver past every record in it, or out of the group |
| DeliveryDataPlane.WelcomeCurrent | sim/client.go:329-365 | whoever joins does so at the committer's current epoch |
| DeliveryDataPlane.SendReached | sim/client.go:618-695 | a packet's epoch is one its receiver, if joined, has reached, and its SPI one of that epoch's |
| DeliveryDataPlane.LostBeyond | sim/client.go:699-731 | a delivered packet is lost only to a receiver more than the overlap past it |
| DeliveryDataPlane.NeverAheadNorLostInWindow | sim/client.go:527-731 | both, for every packet and every recorded loss of every run whose reconciles add someone still joined only when every other staying member is at the committer's epoch and lists it as a peer |
| DeliveryRecovery.RecoversIff | sim/client.go:458-479 | from any state of any run, with any part of what was published still in flight, the replica can come to one epoch with a free committer if and only if everyone with an outstanding Welcome is there or has a heartbeat in flight; then without a new commit or a repeated delivery |
| DeliveryReadding.OvertakesIff | sim/client.go:527-631 | after any such run, adding someone still joined can be followed by a packet ahead of it if and only if some other staying member is behind the committer or does not list it as a peer |
| DeliveryLimits.AddingOnceIsClear | sim/client.go:225-253 | reconciles that add nobody twice add nobody still joined |
| DeliveryLimits.ReaddedIsStuck | sim/client.go:419-479 | a run in which a member joins, is removed, leaves and is invited again, after which no behaviour of the network brings the replica back |
| DeliveryLimits.ReaddedIsOvertaken | sim/client.go:527-568 | for every overlap, a run that sends to a joined member under an epoch it has not reached, and loses the packet |
| DeliveryLimits.OpenedOnce | sim/client.go:721-730 | however often the network repeats a packet, its receiver opens it at most once |
| Clients.VniState.Prospective | sim/client.go:172-179 | a prospective member's empty state |
| Clients.VniState.Found | sim/client.go:158-169 | the founder's state at epoch 0, its SA cached |
| Clients.VniState.CanCommit | sim/client.go:210-222 | committer, no Welcome outstanding, head confirmed |
| Clients.VniState.Reconcile | sim/client.go:225-253 | new state and messages of a membership commit, or nothing |
| Clients.VniState.Rekey | sim/client.go:256-271 | new state and message of an empty commit, or nothing |
| Clients.VniState.OnCommit | sim/client.go:298-327 | confirmation by echo, then the commit at the member's own epoch, or leaving |
| Clients.VniState.OnWelcome | sim/client.go:329-365 | joining, announcing itself and seeding its peers |
| Clients.VniState.OnHeartbeat | sim/client.go:369-384 | the peer's epoch, the cleared Welcome and the catch-up request |
| Clients.VniState.OnLogReply | sim/client.go:394-417 | the records at the member's own epoch in base order, or leaving |
| Clients.VniState.ResendUnacked | sim/client.go:462-479 | the unconfirmed head and every outstanding Welcome |
| Clients.VniState.EmitHeartbeat | sim/client.go:735-748 | the own epoch, and what is resent with it |
| Clients.VniState.InitPeerEpochForNewMembers | sim/client.go:527-548 | seeds exactly the new members not known yet |
| Clients.VniState.PruneDepartedPeers | sim/client.go:556-568 | drops exactly those no longer members |
| Clients.VniState.CacheCurrentSA | sim/client.go:572-593 | the current epoch's SA and SPIs cached, older ones trimmed |
| Clients.VniState.TrimSAs | sim/client.go:596-606 | keeps exactly the epochs inside the overlap |
| Clients.VniState.SendEpoch | sim/client.go:618-631 | the least of the own and all known peer epochs |
| Clients.VniState.SendData | sim/client.go:647-695 | one numbered packet under the send epoch's SPI, or none without its SA |
| Clients.VniState.OnData | sim/client.go:699-731 | ignored, lost, opened or replayed, and the replay window's new state |
| Clients.DeliveryService.OnCommit | sim/ds.go:79-90 | accept once per base, log and echo |
| Clients.DeliveryService.AppendLog | sim/ds.go:94-103 | one record per commit |
| Clients.DeliveryService.ServeCatchup | sim/ds.go:115-125 | the records from the requested base on, by base |
| ReplayWindow.ReplayWin.Accept | sim/client.go:50-67 | answer and new window, the pruning loop included |
| ReplayWindow.WindowIsLedger | sim/client.go:41-67 | after any calls the pruned window answers like the unbounded ledger and stores at most 65 numbers |
| ReplayWindow.NeverTwice | sim/client.go:50-67 | a number once accepted is refused for good |
| ReplayWindow.FreshAccepted | sim/client.go:50-67 | a number never offered and not below the window is accepted |
| SecretTrees.FillsEveryLeaf | mls/keyschedule/secrettree.go:50-97 | for any leaf count the recursion reaches leaves 0 to n-1 and no others |
| SecretTrees.ReachesOnce | mls/keyschedule/secrettree.go:66-97 | the two children's recursions reach disjoint leaves |
| SecretTrees.NoSharedKeyOrNonce | mls/keyschedule/secrettree.go:106-136 | triples (leaf, ratchet, generation) that share a key or a nonce are equal, and no key is a nonce |
| SecretTrees.NewSecretTree | mls/keyschedule/secrettree.go:50-64 | an error for no leaves, otherwise both bases for exactly leaves 0 to n-1 |
| SecretTrees.SecretTree.DeriveNode | mls/keyschedule/secrettree.go:66-97 | adds both bases of the leaves below a node, none of them written before |
| SecretTrees.SecretTree.KeyNonceAt | mls/keyschedule/secrettree.go:106-136 | the ratchet loop's key and nonce, an error for an unknown leaf |
| Bytes.BigEndianRead | mls/syntax/codec.go:78-100 | reading a written fixed-width integer |
| Bytes.BigEndianWritten | mls/syntax/codec.go:16-19 | writing a read fixed-width integer |
| Codec.VarintRoundTrip | mls/syntax/varint.go:12-50 | a written varint reads back before any suffix |
| Codec.VarintCanonical | mls/syntax/varint.go:28-50 | an accepted varint is the one encoding of its value |
| Codec.DecodeVarint | mls/syntax/varint.go:28-50 | the accumulating loop reads the varint |
| Codec.OpaqueRoundTrip | mls/syntax/varint.go:53-74 | opaque<V> reads back before any suffix |
| Codec.OpaqueCanonical | mls/syntax/varint.go:64-74 | accepted opaque<V> re-encodes to the same bytes |
| Codec.OptionalRoundTrip | mls/syntax/vector.go:39-66 | optional<T> reads back before any suffix |
| Codec.OptionalCanonical | mls/syntax/vector.go:49-66 | accepted optional<T> re-encodes to the same bytes |
| Codec.VectorRoundTrip | mls/syntax/vector.go:7-35 | vectors read back before any suffix |
| Codec.VectorCanonical | mls/syntax/vector.go:20-35 | accepted vectors re-encode to the same bytes |
| Codec.Builder.WriteVarintTo | mls/syntax/codec.go:25-32 | appends the encoding, or nothing on error |
| Codec.Builder.WriteOpaqueV | mls/syntax/codec.go:35-41 | appends the encoding, or nothing on error |
| Codec.Builder.WriteVectorV | mls/syntax/vector.go:7-15 | the loop over an inner builder appends the vector, or nothing on error |
| Codec.Builder.WriteOptionalTo | mls/syntax/vector.go:39-46 | appends the presence byte and the value; a value that cannot be encoded leaves the presence byte |
| Codec.Cursor.Take | mls/syntax/codec.go:61-68 | consumes exactly n bytes, or none on a short read |
| Codec.Cursor.ReadUint | mls/syntax/codec.go:70-100 | consumes and decodes n bytes, or none on a short read |
| Codec.Cursor.ReadVarintFrom | mls/syntax/codec.go:107-114 | consumes the varint, or nothing on error |
| Codec.Cursor.ReadOpaqueV | mls/syntax/codec.go:121-127 | consumes length and body; a body cut short leaves the cursor after the length |
| Codec.Cursor.ReadVectorV | mls/syntax/vector.go:20-35 | the loop reads the vector and ends when every element takes a byte; a failed read leaves the cursor where reading the opaque<V> around it does |
| Codec.Cursor.ReadOptionalFrom | mls/syntax/vector.go:49-66 | reads the presence byte and the value; other presence bytes are errors, and a failed read leaves the cursor after the presence byte |
| Controller.ActiveLeavesAre | mls/group/members.go:9-17 | exactly the non-blank leaves, ascending |
| Controller.OneProceeds | ironcore/controller.go:261-320 | exactly the lowest surviving leaf proceeds, nobody if none survives |
| Controller.PlanReconciles | ironcore/controller.go:261-383 | the plan's removes and adds apply without error and leave exactly the desired identities that are not pending, again unique |
| Controller.CollectIdentities | ironcore/controller.go:461-482 | the loop builds the identity map, later leaves winning and unverifiable ones skipped |
| Controller.Elect | ironcore/controller.go:295-311 | the handover loop elects the lowest surviving leaf |
| Controller.SortedIs | ironcore/controller.go:507-517 | the sorted list is in order and has the same numbers as often |
| Controller.SortInPlace | ironcore/controller.go:507-517 | the insertion sort leaves the array sorted |
| Controller.Drain | ironcore/controller.go:323-328 | the removals come out in ascending order, each once |
| Controller.PlanFor | ironcore/controller.go:261-351 | the loops compute the plan |

## Left out

- Cryptographic primitives: calls into libraries, replaced by free constructors.
- External commits, external joins and recovery: they bring a second committing leaf.
- Framing, AEAD protection and wire signatures of messages: a message is taken to come from the
  sender it names; signatures on leaves and GroupInfo are modelled.
- Pre-shared keys and resumption secrets: taken as none.
- Leaf, credential and capability encodings: a leaf node is one value.
- Application messages, the exporter and SA key derivation: SPIs are arbitrary functions of the
  group state.
- Fork detection, tie-breaking, VNI helpers: easy members.
- The scheduler, bus, fault and metrics code of the simulation: replaced by arbitrary steps; which
  of the two replicas carries a packet is not modelled, one replica is.
- Convergence within a number of ticks: it depends on timer constants; what can happen, not when,
  is proved.
- Scaling projections, benchmarks, command lines and interoperability code.
- TreeMath.Right: for at most 2^31 leaves, beyond which indices do not fit 32 bits; the same bound
  holds for every member that walks a tree.
- RatchetTrees.RatchetTree.HasParentHashMatch: reads a listed leaf beyond the array as blank, where
  the code would stop.
- Groups.Group.ProcessCommit: the second clone, made for the tree hash, is a copy; on the trees that
  occur cloning is the identity (CloneIsIdentity). A commit that removes the own leaf is covered; one
  that also cuts it off with the end of the array is covered for a well-formed tree and keys on the
  own path, which is what every run has.
- Groups.Group.Commit: proposals that cut the committer's own leaf off with the end of the array are
  excluded: there the code indexes past the array (mls/tree/treekem.go:306), and the controller never
  proposes its own removal (ironcore/controller.go:313-314).
- Codec.Builder.WriteOptionalTo: an element encoder or decoder that fails is taken to write or consume
  nothing; the same holds for the vector and optional readers and writers.
- Clients.VniState.OnLogReply: the library's stable sort is a function, not a loop.
