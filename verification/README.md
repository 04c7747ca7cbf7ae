# Verified model of `interlock`

`interlock` is a readers-writer lock over intervals of indices.  This project models its three
layers and proves that they do what the design promises: the lock behaves like an array of
readers-writer locks that are taken in ascending and released in descending order, nobody is
forgotten, and nothing deadlocks.  `dafny verify dfyconfig.toml` checks everything.

## The layers

**The red-black tree** (`Shapes`, `ShapeLemmas`, `Balance`, `Deletion`, `Ordering`, `TreeFacts`,
`RbTree`).  `RbTree.Tree<E>` works in place on nodes that its users own, with parent pointers, colours
and cached sums.  A ghost snapshot of the nodes' fields (`mem`) is tied to a ghost value, the tree that
the pointers spell out (`shape`); loops that climb carry a zipper (`Path`) of the part above.  Clients see
the in-order sequence `Seq()` alone.

**The lock core** (`ReadSpans`, `ReadBorrows`, `WriteSpans`, `WriteBorrows`, `Waiters`, `Listings`,
`CoreViews`, `Core`).  `Core.LockCore` keeps read endpoints, write intervals and pending borrows in three
such trees, whose nodes live in `LockState` objects.  Its operations are proved against a lock model on
values (`LockModel`): which region each lock holds, and who waits where in which order.

**What the lock model guarantees** (`LockFacts`, `WalkFacts`, `Requests`, `Release`, `Guarantees`, `Grants`,
`WaitOrder`, `Reports`, `Runs`, `RunLaws`): every request is answered by what was asked for, told by who holds
which index; exclusion; sufficiency of the single downward pass; frame and monotonicity of a release; who is
granted a freed index; first come first served; conservation of completion tokens; and deadlock freedom, for all
states and all runs.

**The array of locks** (`RefViews`, `RefSteps`, `RefRelease`, `Reference`) is the simple machine of the
repository's tests.  It is proved against the same lock model, by `Release.WalkIsPerIndex`.  `Subject` wraps
the core in the same interface, `Lockstep` drives both with the same commands for every array length, and
`Agreement` says field by field what the equality of their models means.

**Waiting** (`SyncWaiting`, `SyncLaws`, `AsyncWaiting`): the blocking form as a system of interleaved steps
(flag, park token, mutex), the future-oriented form as a class whose operations each run under the mutex.

## How the model relates to the code

- The four kinds of lock states, and the read, write and try variants of each operation, are one class
  and one method each that branch on the kind where the variants differ.
- The completion token that a caller supplies is the identity of its lock, as in the repository's tests.
  Completion callbacks are modelled by the sequence of tokens that a release returns.
- Indices and priorities are integers, and so are the sums.  The unit summary of the trees of writers and
  pending borrows is the weight 0.
- Non-empty ranges, fresh states, and releasing only what is locked are preconditions: the code asserts the
  first in debug builds and panics on the others.
- In the blocking form a release changes the core in one step and then reports completions one by one,
  still holding the mutex; waiting threads take steps in between.  A try that succeeds is an `Enter` step that
  completes at once, a try that fails is no step.
- A try takes no priority in the code; the model records the one that the array is given, which nothing uses.
- In the future-oriented form wakers are integers and `task` says whom each one wakes.  `willWake` may err on
  the side of caution, but two wakers that it identifies wake the same one.  `log` records each wake with the
  lock it was for.  Cancelling a lock is releasing it before it is complete.

Where documentation and code differ, the model follows the code.  README.md:68 says that wait lists are
ordered by `(priority, sequence)`; in the code and in the tests the highest priority is served first
(src/core/rbtree.rs:325-335, src/core/rbtree/tests.rs:72-79), as `WaitOrder.FirstIsAhead` states.  The
documentation of `Node::insert` says that a new node goes behind its equals (src/utils/rbtree.rs:98-99); the
comparison of pending borrows never reports equality, so that there it goes before them
(src/core/rbtree.rs:325-335).  A tree's root may be red.

## Model

| member | source | states |
|---|---|---|
| `Shapes.Node.constructor` | src/utils/rbtree.rs:83-94 | A new node is linked to nothing, and carries the given element and summary. |
| `RbTree.Tree.Insert` | src/utils/rbtree.rs:114-247 | The tree stays valid (mutual links, equal black heights, no red node under a red node, every summary the sum of its subtree), gains exactly the new node, and its in-order sequence is the old one with the node at the place the comparison gives it: behind equals, or before them where the comparison of pending borrows says so. |
| `RbTree.Tree.InsertRoot` | src/utils/rbtree.rs:155-160 | The first node becomes the root as it is, red: a tree with a red root is valid. |
| `RbTree.Tree.FindSlot` | src/utils/rbtree.rs:122-154 | The descent ends at an empty slot that lies between what the new element goes behind and what it goes before, having added the new summary to all ancestors of that slot and to nothing else. |
| `RbTree.Tree.FixInsert` | src/utils/rbtree.rs:162-246 | The loop ends with a valid tree that has the same in-order sequence and nodes. |
| `RbTree.Tree.Recolour` | src/utils/rbtree.rs:184-209 | With a red uncle the violation moves two levels up and the black heights stay equal. |
| `RbTree.Tree.Turn` | src/utils/rbtree.rs:211-225 | An inner red child is turned to the outside; node and parent change roles and the sequence stays. |
| `RbTree.Tree.Lift` | src/utils/rbtree.rs:227-237 | Rotating the grandparent away and swapping colours ends the violation without a change of black height. |
| `RbTree.Tree.BlackenRoot` | src/utils/rbtree.rs:238-243 | A red parent that is the root turns black, which ends the violation. |
| `RbTree.Tree.Rotate` | src/utils/rbtree.rs:514-565 | A rotation keeps links, in-order sequence and summaries, the latter computed from the two old summaries and that of the middle subtree; the root pointer follows. |
| `RbTree.Tree.Remove` | src/utils/rbtree.rs:258-511 | The tree stays valid and loses exactly the node: the in-order sequence is the old one without that place. |
| `RbTree.Tree.SubtractUp` | src/utils/rbtree.rs:263-271 | Exactly the nodes on the way up from the node lose the weight of its element. |
| `RbTree.Tree.FindPred` | src/utils/rbtree.rs:284-292 | The last node of the left subtree's in-order sequence, and the node above it. |
| `RbTree.Tree.SwapWithPredecessor` | src/utils/rbtree.rs:280-350 | A node with two children trades places, colour and summary with its in-order predecessor, also when they are adjacent; afterwards it has no right child and the rest of the tree spells the sequence without it. |
| `RbTree.Tree.FillSlot` | src/utils/rbtree.rs:359-403 | The slot of the node, or the root, takes its only child, if any, and nothing else changes. |
| `RbTree.Tree.Unhang` | src/utils/rbtree.rs:371-407 | A red node goes without a child, a black one is replaced by its red child painted black, and otherwise the shortage is repaired; in each case the tree is valid without the node. |
| `RbTree.Tree.FixRemove` | src/utils/rbtree.rs:409-510 | From a subtree that is one black node short the loop reaches a valid tree with the same sequence; in the loop the sibling is shown to exist, and a red one to have two black children and a black parent, so that none of the arms declared unreachable is reached. |
| `Balance.SiblingExists` | src/utils/rbtree.rs:418-435 | Beside a shortage there is a sibling, and a red sibling has a black parent and two black children: the reason why the unwrap succeeds and the unreachable arms are dead. |
| `RbTree.Tree.LowerParent` | src/utils/rbtree.rs:437-449 | A red sibling is rotated above the parent; the shortage stays and the new sibling is black. |
| `RbTree.Tree.ReddenSibling` | src/utils/rbtree.rs:450-487 | With black nephews the sibling turns red: a red parent absorbs the shortage, else the shortage moves up to the parent. |
| `RbTree.Tree.Borrow` | src/utils/rbtree.rs:488-498 | A red distant nephew ends the shortage: the sibling takes the parent's place and colour. |
| `RbTree.Tree.Bend` | src/utils/rbtree.rs:499-508 | A red close nephew is turned into a red distant one. |
| `RbTree.Tree.Min` | src/utils/rbtree.rs:576-584 | The first node of the subtree's in-order sequence. |
| `RbTree.Tree.Max` | src/utils/rbtree.rs:595-603 | The last node of the subtree's in-order sequence. |
| `RbTree.Tree.Predecessor` | src/utils/rbtree.rs:614-634 | The node one place earlier in the in-order sequence, or none at its start. |
| `RbTree.Tree.Successor` | src/utils/rbtree.rs:645-665 | The node one place later, or none at the end. |
| `RbTree.Tree.StepsAreInverse` | src/utils/rbtree.rs:614-665 | Predecessor and successor undo each other. |
| `RbTree.Tree.LowerBound` | src/utils/rbtree.rs:680-708 | For every key test that is monotone over the tree, the earliest node that the key does not exceed, or none. |
| `RbTree.Tree.PrefixSum` | src/utils/rbtree.rs:721-758 | The sum of the weights of all elements strictly before the node, or of all elements if there is no node, from cached summaries and parent links alone. |
| `RbTree.Tree.Listed` | src/utils/rbtree.rs:848-861 | In a valid tree every node occurs once in the in-order sequence, with its element. |
| `RbTree.Tree.WriteElement` | src/core/rbtree.rs:1127 | Overwriting an element in place changes that element and nothing else, provided its weight stays. |
| `Balance.HeightBound` | README.md:74-79 | A tree of n nodes and height h satisfies 2^(h div 2) <= n + 1 although its root may be red, and no way down from the root is longer than h. |
| `Balance.LongestWay` | README.md:74-79 | Some way down is as long as the height. |
| `RbTree.Tree.Logarithmic` | README.md:74-79 | The same bounds, on the height and on every way down, for every tree that inserts and removes can produce. |
| `ReadSpans.SumDecides` | src/core/rbtree.rs:878-892 | With endpoints tied in any order, the summed weights up to the start are positive iff some read borrow covers the start. |
| `ReadSpans.NextOpens` | src/core/rbtree.rs:894-909 | If nobody covers the start, the next endpoint is a lower one: the asserted fact always holds, that index is covered and no index before it is. |
| `ReadBorrows.ReadTree.First` | src/core/rbtree.rs:863-914 | The least index of the range that some read borrow covers, or none. |
| `ReadBorrows.ReadTree.Add` | src/core/rbtree.rs:1277-1292 | Inserting both endpoints adds exactly this borrow to what the tree means. |
| `ReadBorrows.ReadTree.Move` | src/core/rbtree.rs:1256-1273 | Reinserting the upper endpoint, with its stale summary reset, changes exactly this borrow's end. |
| `ReadBorrows.ReadTree.SetEnd` | src/core/rbtree.rs:1026-1027 | After the reset a removed upper endpoint has the new index and the summary -1, its own weight, which reinsertion requires; the tree is untouched. |
| `ReadBorrows.ReadTree.Delete` | src/core/rbtree.rs:1044-1048 | Removing both endpoints, in either order, removes exactly this borrow. |
| `WriteSpans.EndsRise` | src/core/rbtree.rs:848-854 | Because write intervals are disjoint, their ends rise with their starts, so that the search by end in a tree ordered by start is legitimate. |
| `WriteBorrows.WriteTree.First` | src/core/rbtree.rs:847-860 | The least index of the range that some write borrow covers, or none. |
| `WriteBorrows.WriteTree.Add` | src/core/rbtree.rs:1234-1245 | Inserting a write node adds exactly this borrow, which must not overlap another. |
| `WriteBorrows.WriteTree.Resize` | src/core/rbtree.rs:1127-1128 | Moving the end in place, up or down, changes exactly this borrow and keeps the order of the tree. |
| `WriteBorrows.WriteTree.Delete` | src/core/rbtree.rs:1142-1143 | Removing the node removes exactly this borrow. |
| `Waiters.PlaceIs` | src/core/rbtree.rs:325-335 | The place the tree chooses for a pending borrow is the one behind all of smaller index or smaller priority and before all equals. |
| `Core.LockCore.constructor` | src/core/rbtree.rs:342-350 | A new core has no lock, no waiter and three empty trees. |
| `Core.LockCore.FirstConflict` | src/core/rbtree.rs:1168-1179 | The least index of a range where a reader meets a writer, or a writer meets anyone; none if there is none. |
| `Core.LockCore.Lock` | src/core/rbtree.rs:368-567 | The new lock has exactly the start, end, mode and priority asked for. It takes everything before the first index that another lock holds in a conflicting mode, and waits there, or is complete at once; the result says which. Every other lock stays as it is, no two locks conflict, and no waiter could proceed. |
| `Core.LockCore.Take` | src/core/rbtree.rs:419-441 | The state's nodes cover exactly the region that could be borrowed. |
| `Core.LockCore.Park` | src/core/rbtree.rs:443-460 | The pending node names the conflict, the requested end, the priority, the state and the token, and joins the queue behind its equals. |
| `Core.LockCore.TryLock` | src/core/rbtree.rs:569-672 | A try takes the whole range iff all of it is free, with exactly the start, end and mode asked for; otherwise it reports failure and leaves the core and the state unchanged. |
| `Core.LockCore.Unlock` | src/core/rbtree.rs:674-792 | Releasing a lock, complete or not, leaves the model that the release defines; the token of a pending borrow is returned, those of the completed locks are reported in order, the state is unused again, and the invariants hold. |
| `Core.LockCore.CancelBorrow` | src/core/rbtree.rs:925-944 | Exactly this lock's pending borrow goes, and its token comes back; without one nothing changes. |
| `Core.LockCore.UnlockInner` | src/core/rbtree.rs:957-1145 | The loop over pending borrows, whose nodes move or go meanwhile, ends and releases exactly the region; what it reports is what completed. |
| `Core.LockCore.LastBelow` | src/core/rbtree.rs:978-987 | The last pending borrow below the end, unless its index lies below the start. |
| `Core.LockCore.Approach` | src/core/rbtree.rs:994-1032 | The visited waiter's index lies between start and end, on every turn; the region shrinks to exactly that index, or vanishes at its start, and the saved predecessor is the next waiter. |
| `Core.LockCore.Visit` | src/core/rbtree.rs:993-1038 | One turn of the loop is one step of the release, and leaves the saved predecessor a node of the tree. |
| `Core.LockCore.TrimRead` | src/core/rbtree.rs:1021-1031 | A reader that is being released keeps exactly `[start, index)`. |
| `Core.LockCore.TrimWrite` | src/core/rbtree.rs:1111-1130 | A writer that is being released keeps exactly `[start, index)`. |
| `Core.LockCore.ClearRead` | src/core/rbtree.rs:1013-1020 | Both endpoints of a reader go, and its state stores none. |
| `Core.LockCore.ClearWrite` | src/core/rbtree.rs:1138-1144 | The node of a writer goes, and its state stores none. |
| `Core.LockCore.Resume` | src/core/rbtree.rs:1157-1296 | A pending borrow gets on to the next conflict, or completes, which is when its token is returned; if it is still blocked nothing changes. Only this lock's nodes change. |
| `Core.LockCore.MovePending` | src/core/rbtree.rs:1186-1216 | The pending node is requeued at the new conflict, or taken out of state and tree when there is none. |
| `Core.LockCore.Requeue` | src/core/rbtree.rs:1188-1195 | Removal, overwriting the index and reinsertion put the waiter where the queue wants it. |
| `Core.LockCore.ExtendWrite` | src/core/rbtree.rs:1221-1245 | A writer's region grows to exactly the new end; a node is made iff it held nothing. |
| `Core.LockCore.ExtendRead` | src/core/rbtree.rs:1247-1294 | A reader's region grows to exactly the new end; endpoints are made iff it held nothing. |
| `Core.LockCore.StateTable` | src/core/rbtree.rs:171-193 | Each lock's state is in a row of the documented table, and its nodes say exactly which region is held and which is awaited. |
| `Core.LockCore.Inspect` | src/core/rbtree.rs:796-838 | The token of a lock iff it is incomplete. |
| `Core.LockCore.Destruct` | src/core/rbtree.rs:1347-1355 | The destructor would panic iff some lock still holds an index or waits for one. |
| `Core.LockCore.TreesEmpty` | src/core/rbtree.rs:1347-1355 | All three trees are empty iff nobody holds or awaits an index. |
| `Requests.AcquireMakes` | src/core/rbtree.rs:382-460 | A request adds exactly the lock that was asked for and changes no other; it reaches up to the first index that is not free, and is queued iff that is not its end. |
| `Requests.TryMakes` | src/core/rbtree.rs:569-672 | A try adds exactly the lock that was asked for, complete, if its whole range is free, and changes nothing otherwise. |
| `WalkFacts.AcquireInv` | src/core/rbtree.rs:382-460 | A new lock leaves no two locks in conflict, every waiter blocked at its own index, and the queue sorted and without repetition. |
| `WalkFacts.WalkInv` | src/core/rbtree.rs:993-1048 | One downward pass is enough: although waiters reinserted further up are never revisited, afterwards every waiter is blocked at its own index. |
| `WalkFacts.UnlockInv` | src/core/rbtree.rs:674-744 | The same for the whole release, cancelled borrows included. |
| `Runs.RunInv` | README.md:68 | After every sequence of lock, try-lock and release commands no two locks conflict, exactly the incomplete locks wait, each at the index where it stopped, and each is blocked there. |
| `RunLaws.LockCommand` | src/core/rbtree/tests.rs:512-531 | A lock command makes exactly the lock that it names, up to the first index that is held in a conflicting mode, and nothing else. |
| `RunLaws.TryCommand` | src/core/rbtree/tests.rs:520-541 | A try command makes exactly the lock that it names, complete, if its range is free; otherwise it changes nothing. |
| `RunLaws.UnlockCommand` | src/core/rbtree/tests.rs:485-497 | An unlock command removes exactly the lock that it names; no other loses anything. |
| `RunLaws.MayGoOn` | src/core/rbtree/tests.rs:483-548 | A run can go on with the release of any lock that exists and with a request for any non-empty range under a new identity, and with nothing else. |
| `RunLaws.Asked` | README.md:68 | Over every run, a lock has the start, end, mode and priority that its command named until it is released; it began with everything before the first index then held in a conflicting mode and has lost nothing since. |
| `RunLaws.Tried` | README.md:70 | Over every run, a try whose range was free has its lock, complete, until it is released; any other try left everything as it was. |
| `RunLaws.HigherFirst` | src/core/rbtree.rs:325-335 | Of two who wait at one index the one whose command named the higher priority is ahead. When a writer gives the index up the other one gets it only together with the first, or past it as a reader among readers. |
| `RunLaws.HighestGranted` | src/core/rbtree.rs:1082-1136 | Who asked with a higher priority than everyone else who waits at an index gets it when a writer gives it up: alone if it is a writer, and with exactly the other readers there if it is a reader. |
| `Guarantees.TraceSteps` | src/core/rbtree.rs:993-1038 | The trace of a release has, for every waiter visited and in order, the state before, the one shrunk to its index and the one after it resumed, and last the one without the lock. |
| `Guarantees.WalkExclusive` | src/core/rbtree.rs:993-1048 | The same exclusion at every step inside the walk. |
| `Guarantees.ReleaseExclusive` | src/core/rbtree.rs:689-702 | From the cancellation on to the end of a release there is no moment at which two locks conflict. |
| `Guarantees.UnlockFrame` | src/core/rbtree.rs:674-744 | A release removes exactly its own lock; every other one keeps request, kind, end and priority, loses no index, and waits where it waited or further up. |
| `WaitOrder.RunGrows` | src/core/rbtree.rs:1155-1156 | Over a whole run no lock loses an index before its own release. |
| `Guarantees.WalkVisits` | src/core/rbtree.rs:978-1005 | The walk visits the waiters from its start position down, each once and in reverse, however they move meanwhile. |
| `Guarantees.UnlockVisits` | src/core/rbtree.rs:973-1038 | A release visits exactly the waiters whose index lies in the region that was held, each once. |
| `Release.WalkIsPerIndex` | README.md:68 | Walking the waiters gives the same result as releasing the indices one by one from the top and resuming, at each, all its waiters in order. |
| `Guarantees.UnlockLedger` | src/core/rbtree.rs:1196-1216 | A release loses no token and makes none: each stays with its waiter, is reported, or is returned. |
| `Guarantees.UnlockReports` | src/core/rbtree.rs:1209-1215 | A lock is reported exactly when this release makes its region reach the requested end, and once. |
| `Reports.ReportedExactly` | src/core/rbtree.rs:1196-1216 | The list of reported locks has each lock that completes once, and no other. |
| `Runs.TokensConserved` | src/core/rbtree.rs:384-398 | Over a whole run the tokens made are exactly those still waiting, those reported, and those returned to who released. |
| `Grants.EnqueueFifo` | src/core/rbtree.rs:325-335 | A new waiter is served behind all of the same index with its priority or a higher one, and before the others, whose order stays. |
| `Grants.UnlockGrants` | src/core/rbtree.rs:1082-1136 | An index freed by a writer goes to the first in line; if that is a writer nobody else who waits there moves, and if it is a reader every reader there gets the index and no writer moves. Nobody there has a higher priority than the first in line. |
| `Grants.FirstIsHighest` | src/core/rbtree.rs:325-335 | Nobody who waits at an index has a higher priority than the first in line there. |
| `WaitOrder.FirstIsAhead` | src/core/rbtree.rs:325-335 | First in line at an index is exactly who is ahead of all others there, with no higher priority among them. |
| `WaitOrder.OrderKept` | README.md:68 | While two waiters stay where they are, nothing that others do changes which of them is served first. |
| `WaitOrder.FirstCome` | README.md:68 | Whoever comes to wait where another of at least its priority waits already, be it a new lock or one that a release moves up, waits behind that one as long as both are there, over any run, and is not first in line. |
| `WaitOrder.WaitlistIsFifo` | src/core/rbtree/tests.rs:589-607 | The scenario of the repository's FIFO test, for both kinds of each lock. |
| `Runs.Blocker` | src/core/rbtree.rs:1181-1184 | A waiter's blocker is complete, or waits at a strictly larger index. |
| `Runs.WaitsForIsAcyclic` | README.md:68 | No lock waits for itself, directly or through others. |
| `Runs.SomeComplete` | src/core/rbtree/tests.rs:568-583 | As long as there is a lock, some lock is complete. |
| `Runs.DrainEnds` | src/core/rbtree/tests.rs:568-583 | Releasing complete locks, however they are picked, goes on until there is neither lock nor waiter. |
| `Runs.LockUnlock` | src/core/rbtree/tests.rs:537-541 | A lock released before anything else happens leaves no trace, so a failed try equals a lock followed by its release. |
| `Reference.RwLockSet.constructor` | src/core/rbtree/tests.rs:97-102 | An array of locks without owners and waiters. |
| `Reference.RwLockSet.Lock` | src/core/rbtree/tests.rs:105-121 | The new lock is exactly what was asked for, takes everything before the first index that is not free, as the lock model does, and the result says whether that is all. |
| `Reference.RwLockSet.Resume` | src/core/rbtree/tests.rs:156-206 | Indices are taken in ascending order up to the first that is blocked, where the lock then waits behind its equals. |
| `Reference.RwLockSet.TakeIndices` | src/core/rbtree/tests.rs:169-190 | The loop takes exactly the indices before the first conflict of the range. |
| `Reference.RwLockSet.IsBlocked` | src/core/rbtree/tests.rs:171-187 | Looking at one arbitrary owner tells whether a reader is blocked, because owners never mix kinds. |
| `Reference.RwLockSet.Await` | src/core/rbtree/tests.rs:192-203 | The new entry is the newest of its index and changes no other. |
| `Reference.RwLockSet.Unwait` | src/core/rbtree/tests.rs:159-167 | Exactly this lock's entry goes. |
| `Reference.RwLockSet.ResumeIndex` | src/core/rbtree/tests.rs:143-147 | Resuming the listed waiters of an index, who may be listed anew meanwhile, resumes each as the model does, first in line first. |
| `Reference.RwLockSet.GiveBack` | src/core/rbtree/tests.rs:137-148 | One turn of the loop gives back the highest index held. |
| `Reference.RwLockSet.Unlock` | src/core/rbtree/tests.rs:124-149 | Releasing index by index yields the very model that the core's downward walk yields. |
| `Reference.RwLockSet.IsComplete` | src/core/rbtree/tests.rs:151-154 | Whether the position has reached the requested end. |
| `RefRelease.Collect` | src/core/rbtree/tests.rs:143-144 | Lists the waiters of an index by falling priority, then by age. |
| `RefRelease.OrderIsUnique` | src/core/rbtree/tests.rs:72-79 | There is only one such list. |
| `RefSteps.FifoRenewed` | src/core/rbtree/tests.rs:159-203 | A waiter that is resumed without progress gets a new number, and yet the relative order of the list stays. |
| `Subject.RwLockSet.constructor` | src/core/rbtree/tests.rs:288-293 | No locks. |
| `Subject.RwLockSet.Lock` | src/core/rbtree/tests.rs:296-353 | Locks the core with a new state, for exactly what was asked for, and remembers whether the lock is complete. |
| `Subject.RwLockSet.TryLock` | src/core/rbtree/tests.rs:327-352 | A failed try is forgotten, a successful one is complete. |
| `Subject.RwLockSet.Unlock` | src/core/rbtree/tests.rs:356-376 | After a release every flag says whether its lock is complete. |
| `Subject.RwLockSet.Callback` | src/core/rbtree/tests.rs:454-462 | Every reported lock is known and was incomplete, so that neither the lookup nor the assertion fails. |
| `Lockstep.Step` | src/core/rbtree/tests.rs:484-548 | A command has the same effect and result on both: a lock or a try that succeeds adds exactly the lock that the command names, a try that fails (on the array: a lock and its release) changes nothing, an unlock removes that lock. The result of a lock or try says whether its whole range was free. |
| `Lockstep.TryOrUndo` | src/core/rbtree/tests.rs:530-541 | A try succeeds iff the lock would be complete at once. |
| `Lockstep.Compare` | src/core/rbtree/tests.rs:553-562 | The flags of the core agree with the array for every lock. |
| `Lockstep.FindComplete` | src/core/rbtree/tests.rs:572-576 | A complete lock is found whenever there is a lock. |
| `Lockstep.Drain` | src/core/rbtree/tests.rs:571-583 | The drain loop never finds a deadlock, and leaves all three trees empty. |
| `Lockstep.QuickCheck` | src/core/rbtree/tests.rs:471-587 | For every array length and every sequence of commands all comparisons succeed, each result of a lock or try says whether its range was free at that time, and there is no deadlock. |
| `Agreement.SameOwners` | src/core/rbtree/tests.rs:50-55 | In every state that both reach, an index is owned in the array by exactly the locks, in exactly the modes, that the core knows and whose nodes cover it. |
| `Agreement.SameLock` | src/core/rbtree/tests.rs:81-88 | Both have the same locks, each in the same mode and holding the same region. A lock waits in one iff in the other, and then at the same index, up to the same end and with the same priority; otherwise it is complete in both. |
| `Agreement.SameOrder` | src/core/rbtree/tests.rs:72-79 | Of two locks that wait at one index, the array serves first the one that stands later in the core's tree, that is, the one the walk meets first. |
| `SyncWaiting.StepGood` | src/raw/sync.rs:95-211 | Every step of every thread keeps: a call waits for its own flag, a set flag means a complete lock, a complete lock's flag is set or about to be, and a parked thread whose flag is set has a token or is about to get one. |
| `SyncWaiting.ReturnsComplete` | src/raw/sync.rs:108-124 | In every interleaving, spurious wake-ups included, a locking call returns only by its own load of a set flag, and only when its lock is complete. |
| `SyncWaiting.NoLostWakeup` | src/raw/sync.rs:203-211 | A thread that is parked although its lock is complete has a token, or the holder of the mutex still has to report its lock. |
| `SyncWaiting.GetsOut` | src/raw/sync.rs:121-124 | Once the mutex is free, a thread whose lock is complete returns by its own steps. |
| `SyncWaiting.ReleaseGoesOn` | src/raw/sync.rs:157-174 | Whoever releases can always go on, and only stores flags of calls that have not returned, whose frames are therefore still there. |
| `SyncLaws.MayEnter` | src/raw/sync.rs:95-107 | While the mutex is free a thread that is in no call may lock any non-empty range under a new identity, and only then. |
| `SyncLaws.MayRelease` | src/raw/sync.rs:157-174 | While the mutex is free every lock whose call has returned may be released, and only those. |
| `SyncLaws.EnterMakes` | src/raw/sync.rs:95-155 | A call makes exactly the lock that it asks for, up to the first index held in a conflicting mode, and waits iff that is not all. |
| `SyncLaws.Entered` | src/raw/sync.rs:95-155 | In every interleaving the lock of a call is, until it is released, exactly what was asked for; once the call has returned it holds the whole range, which nobody else holds in a conflicting mode. |
| `SyncLaws.ReleaseFrees` | src/raw/sync.rs:157-174 | A release removes exactly its lock, no other lock loses anything, and the completions to be reported are those of exactly the locks that it completes. |
| `SyncLaws.Finishes` | src/raw/sync.rs:203-211 | From every reachable state the holder of the mutex comes to the end of its release by its own steps: the mutex is free, the locks are unchanged, and everyone to be told has its flag set and a token. |
| `SyncLaws.Progress` | src/raw/sync.rs:95-174 | From every reachable state, releases of locks whose calls have returned and steps of the waiting threads let every call return. |
| `SyncWaiting.ReleasesComplete` | src/raw/sync.rs:160-163 | A lock whose call has returned is complete: the asserted absence of a cancelled borrow holds. |
| `AsyncWaiting.AsyncLock.StartLock` | src/raw/future.rs:112-130 | The new lock is exactly what was asked for. It has an empty slot iff it is incomplete; other slots stay and nothing is promised yet. |
| `AsyncWaiting.AsyncLock.PollLock` | src/raw/future.rs:132-160 | Ready iff the lock is complete, and then nothing changes; otherwise this lock's slot will wake whoever polled, and no other slot changes. |
| `AsyncWaiting.AsyncLock.SetWaker` | src/raw/future.rs:42-50 | The slot wakes whom the new waker would wake, whether it was overwritten or kept. |
| `AsyncWaiting.AsyncLock.Unlock` | src/raw/future.rs:162-196 | A release, or a cancellation, gives up its own promise and keeps all others; it wakes exactly the wakers of the locks that it completes, in the order of completion, and takes exactly their slots. Whoever polled for one of them is woken by this very release. |
| `AsyncWaiting.WokenNow` | src/raw/future.rs:189-196 | Whoever polled for a lock that a release completes is among those it wakes, on behalf of that lock. |
| `AsyncWaiting.AsyncLock.WakeAll` | src/raw/future.rs:189-196 | The loop over the completed locks consumes each one's slot and wakes its waker, if there is one, once. |
| `AsyncWaiting.AsyncLock.NoLostWakeup` | src/raw/future.rs:132-196 | Whoever was told to wait will be woken: the slot has its waker, or one that does for it, as long as the lock is incomplete, and once it is complete such a waker has been woken on behalf of this lock since that poll. |

## Left out

- `src/hl`: guards and containers on top of the raw locks; their safety reduces to exclusion and a bounds check.
- `src/raw/local.rs` and `src/raw/mod.rs`: lock is try-or-panic, and the traits only forward.
- `src/utils/pin.rs` and its companions: pinning, where nodes are stored, and aliasing rules of the Rust memory model; nodes are separate objects that the states refer to, and a new one is made where the code reuses the storage in the state.
- Misuse of lock states (foreign parent, state in use, early drop), whose panics are preconditions here, and panics inside user-supplied `Ord`, `Clone`, `Drop` or callbacks.
- Weak memory: the flag of the blocking form is sequentially consistent, and parking is a one-token semaphore with spurious wake-ups.
- Overflow of the `isize` sums, which are bounded by the number of live endpoints.
- Fairness and freedom from starvation, which the code does not provide: a new request ignores those who wait.
- Running times, except for the height bound.
- Debug formatting, tree dumps and the quickcheck generators.
- RbTree.Tree.Insert: requires the comparison with the new element to be monotone over the in-order sequence, which the code's contract for `cmp_element` implies; what happens under an inconsistent order is not stated.
- SyncWaiting.GetsOut: says that a thread can return by its own steps, not that the scheduler lets it.
