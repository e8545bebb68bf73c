# Models of the cores of a systems-programming repository

The repository is a collection of independent C programs. This project models
the ones with the hardest invariants and proves what they are for.

| file | models |
|---|---|
| `rb_tree.dfy`, `rb_heap.dfy` | the red-black tree of the name server (`nss.c`): nodes with child and parent links and one shared sentinel, changed in place |
| `first_fit.dfy` | the first-fit allocator (`memallocator/`): a circular address-ordered free list over memory addressed in header units |
| `lock_server.dfy` | the lock server (`md_distribute_mutex/md_mutex_server_process.c`): a reference-counted table of mutexes under interleaved requests |
| `lock_chains.dfy` | the second lock server (`md_distribute_mutex/new_md_mutex_server.c`): the same in hashed doubly linked chains, each operation taken whole |
| `write_back.dfy` | the write-back log of `4xm/`: writes queued as linked records in a key-value store, then replayed to the data center |
| `parity.dfy` | the parity union-find of `algorithm/find_and_catch.c`, judged by two-colourings |
| `graph.dfy`, `dfs.dfy`, `dfs_order.dfy`, `bfs_order.dfy`, `bfs.dfy`, `matrix.dfy`, `children.dfy` | depth-first and breadth-first search over lists and over a bitmap, with the child links of the breadth-first tree (`graph/`) |
| `data_sync.dfy` | block synchronisation with two client threads and a server (`data_sync/`) |
| `thread_pool.dfy` | the thread pool: queue, mutex and condition variable (`threadpool/`) |
| `kmp.dfy` | Knuth-Morris-Pratt search (`algorithm/kmp.c`) |
| `top_k.dfy` | the k largest elements by partitioning and by a heap, and the quicksort beside them (`algorithm/kbig_with_heap_sort.c`) |
| `chunk_index.dfy`, `rolling.dfy`, `rsync_search.dfy`, `source_buffer.dfy` | the chunk index and the rolling checksum of `rsync/`, when the search recognises a block, and the buffer it reads through |
| `files.dfy`, `finite_sets.dfy` | writing to a file at an offset; sizes of finite sets |

How the models are built:

- Code that changes memory is a class or an array method. The tree keeps its
  nodes and pointers; a ghost tree value, cut open at the node worked on, says
  what memory holds, and the hard steps are lemmas about such cut trees.
- Concurrent code is a system of steps. Whatever a thread does to shared state
  in one critical section, or between two operations on a channel, is one step,
  and theorems hold for every sequence of steps. In the lock server, in data
  synchronisation and in the thread pool the methods that do the work of a step
  are tied to the same functions as the steps, or stated beside them.
- Databases are maps, files are byte sequences, memory of the allocator is
  addressed in header units. C widths are written out in the hash, the
  checksums and the server's offsets in data synchronisation; elsewhere numbers
  are unbounded, and "Left out" says where that leaves something unsaid.

What the callers and the environment are taken to do:

- A lock is released only by its holder, and once. Database, allocation and
  pthread calls succeed. Keys of queued writes are fresh.
- A seek and the read or write after it are one step in data synchronisation,
  although the two client threads share one file descriptor.
- `sbrk` returns memory disjoint from what was obtained before.
- The digest of data synchronisation is a function parameter. The theorem needs
  only that it tells apart the blocks compared; one without collisions does.

Findings:

- The join tests of `zz_free` compare against a unit inside the block, because
  the size leaves out the header. They never hold in a reachable heap
  (`FirstFit.NoJoin`), so blocks never join and no coalescing is claimed.
- A request that exactly fits the only block on the ring is handed out without
  leaving the ring (`memallocator/first_fit_memalloc.c:105`). `FirstFit.HandedOut`
  shows this is the only exception, `FirstFit.BaseStays` that requests for at
  least one byte never meet it, `FirstFit.EmptyFirstRequest` that a first request
  for zero bytes does.
- The synchronisation server multiplies an `int` by a `u32` for its offset
  (`data_sync/s_sync.c:97`). At offset 2^32 the product is 0, the comparison with
  the client's offset fails and the server exits. `DataSync.CompletesIff`: a
  session completes if and only if the server's file has at most 2^32 bytes.
- The server digests a whole block of its buffer, also behind a short last block
  (`data_sync/s_sync.c:123`), so it sends a short last block even to a client that
  has it: `DataSync.SameIff`.
- The breadth-first searches ignore that their queue of 1024 places may refuse a
  vertex. They are right if and only if, in the breadth-first order of the graph
  from the start, no vertex stands 1024 or more places behind the one it is met
  from: the `ensures` of `BreadthFirst.ListGraph.Search` and
  `MatrixGraphs.MatrixGraph.Search`, with `BreadthFirstOrder.Narrow` a function of
  graph and start. So they are right with up to 1024 vertices
  (`BreadthFirstOrder.FewAreNarrow`) and wrong on a star of one vertex more
  (`BreadthFirst.StarIsCrowded`).
- The search of `rsync/src.c` never gets past its first read: at offset 0 the
  buffer asks for the bytes before the file, and for every nonempty file the read
  fails and the search ends (`SourceBuffer.SearchBegins`). At any other offset
  inside the file a read succeeds (`SourceBuffer.Buffer.ReadFromBuf`). What
  `rolling.dfy` and `rsync_search.dfy` say of lines 386-431 holds once that first
  read succeeds.
- Then, the source side sums a short tail without its padding when it starts a
  search anew, the other side with it. `Rolling.RolledExact` says exactly when the
  two agree, and `RsyncSearch.ShortBlockMissed` gives a block that is missed.
- Initialising a file again (`4xm/posix_api.c:4-30`) while it is dirty drops its
  queued writes: its records stay in the store, and no chain leads to them
  (`WriteBack.Store.InitFile`). On a clean file nothing is lost.

## Model

| member | source | states |
|---|---|---|
| `RbHeap.NameTree.constructor` | nss.c:849-854 | the tree starts empty: the root is the sentinel and the sentinel is black |
| `RbHeap.NameTree.GetNodeByKey` | nss.c:494-522 | a node comes back with direction 0 exactly if the key is in the tree; otherwise the node returned has no child on the side the direction names, and all keys of the tree lie around the place where the search ended |
| `RbHeap.NameTree.Min` | nss.c:570-574 | the leftmost node below a node |
| `RbHeap.NameTree.Max` | nss.c:565-569 | the rightmost node below a node |
| `RbHeap.NameTree.Successor` | nss.c:575-590 | the node holding the first key after the given node in key order, wherever in the tree that node lies; the sentinel after the last and for the sentinel |
| `RbHeap.NameTree.Predecessor` | nss.c:591-606 | the node holding the last key before the given node in key order; the sentinel before the first and for the sentinel |
| `RbTree.MinCutKeys` | nss.c:570-574 | the leftmost node of a subtree holds its first key, has no left child, and the keys around it are unchanged |
| `RbTree.MaxCutKeys` | nss.c:565-569 | the rightmost node of a subtree holds its last key, has no right child, and the keys around it are unchanged |
| `RbHeap.NameTree.LeftRotate` | nss.c:523-543 | after the pointer writes the nodes are linked, children and parents both ways, as the rotated tree, in whatever place of the whole tree the rotation happens |
| `RbHeap.NameTree.RightRotate` | nss.c:544-564 | the mirror image: every child and parent link is that of the rotated tree |
| `RbTree.RotateInorder` | nss.c:523-564 | rotating and recolouring leave the keys in the same order |
| `RbHeap.LeftRotateLinked` | nss.c:523-543 | exactly the six links the rotation writes turn memory holding a tree into memory holding the rotated tree |
| `RbHeap.RightRotateLinked` | nss.c:544-564 | the same for the right rotation |
| `RbHeap.MirroredLinks` | nss.c:523-564 | in a linked tree every child points back at its parent, every node but the root is a child of its parent, and only the root hangs below the sentinel |
| `RbTree.InsertStepOk` | nss.c:666-709 | one turn of the insertion fixup keeps everything but the one red-red edge it works on, and moves that edge up or ends |
| `RbTree.InsertStepKeys` | nss.c:666-709 | one turn of the insertion fixup keeps the keys in order |
| `RbTree.InsertDone` | nss.c:710-712 | when the fixup loop ends and the root is painted black the tree is a red-black tree |
| `RbTree.AttachCut` | nss.c:723-737 | a red node hung where the search ended breaks nothing but the colour rule at its parent |
| `RbTree.InsertKeys` | nss.c:713-739 | hanging a key where its search ended keeps the keys sorted and adds exactly that key |
| `RbTree.SearchDone` | nss.c:501-521 | the key is in the tree exactly if the search ended on it |
| `RbHeap.NameTree.InsertFixup` | nss.c:663-712 | terminates with a linked red-black tree holding the same keys in the same order |
| `RbHeap.NameTree.Insert` | nss.c:713-739 | inserting into any valid tree gives a valid tree whose keys are the old keys and the new one; for a key already there neither tree, nodes nor root change |
| `RbTree.BrotherExists` | nss.c:745-747 | the brother the deletion fixup dereferences is never the sentinel |
| `RbTree.DeleteStepOk` | nss.c:743-806 | one turn of the deletion fixup keeps the one missing black and moves it up, turns it into a case nearer the end, or ends; a measure falls every turn |
| `RbTree.DeleteStepKeys` | nss.c:743-806 | one turn of the deletion fixup keeps the keys in order |
| `RbTree.DeleteDone` | nss.c:807-809 | painting the node the loop ended on black gives a red-black tree |
| `RbTree.SpliceCut` | nss.c:826-840 | taking out a node with at most one child leaves a red-black tree, or one with a single missing black at its place |
| `RbTree.SpliceKeys` | nss.c:826-840 | taking out a node with at most one child removes exactly its key |
| `RbTree.ReplaceKeys` | nss.c:824-843 | removing the successor and copying its key over the node found removes exactly the key asked for and keeps the order |
| `RbHeap.NameTree.TakeOut` | nss.c:826-840 | the node is unlinked; its child, or the sentinel, points at its parent, which the fixup needs |
| `RbHeap.NameTree.DeleteTurn` | nss.c:744-805 | one turn on the real nodes does what the turn on trees does, also when the node worked on is the sentinel |
| `RbHeap.NameTree.DeleteFixup` | nss.c:740-809 | terminates, also when started at the sentinel, with a linked red-black tree holding the same keys in order |
| `RbHeap.NameTree.Delete` | nss.c:810-848 | deleting a key from any valid tree gives a valid tree holding exactly the other keys and returns the one node that left; a missing key changes nothing and returns the sentinel |
| `FirstFit.OneRing` | memallocator/first_fit_memalloc.c:15-32 | the free list is one ring: from any free block the links reach every free block |
| `FirstFit.SlotInsert` | memallocator/first_fit_memalloc.c:43-57 | linking a block in at its slot keeps the ring in address order |
| `FirstFit.RemoveNext` | memallocator/first_fit_memalloc.c:105 | unlinking the block after another keeps the ring in address order |
| `FirstFit.WalkShrinks` | memallocator/first_fit_memalloc.c:15-32 | each step of the free walk comes nearer the slot of the block, so the walk ends |
| `FirstFit.TilesSplit` | memallocator/first_fit_memalloc.c:111-114 | cutting a block in two leaves blocks that tile the same units |
| `FirstFit.TilesGrow` | memallocator/first_fit_memalloc.c:60-75 | new memory that is disjoint from what is owned extends the tiling by exactly its units |
| `FirstFit.TilesTotal` | memallocator/first_fit_memalloc.c:6-141 | conservation: the units of all blocks, headers included, add up to the units obtained |
| `FirstFit.NoJoin` | memallocator/first_fit_memalloc.c:33-50 | the two join tests never hold, because a block ends one unit before its address plus its size plus one |
| `FirstFit.EnoughUnits` | memallocator/first_fit_memalloc.c:79 | the units asked for hold the bytes asked for, with less than a unit to spare |
| `FirstFit.ScanStep` | memallocator/first_fit_memalloc.c:95-138 | one turn of the search adds the next block round the ring to those found too small; back at the start, none fits |
| `FirstFit.Heap.Free` | memallocator/first_fit_memalloc.c:6-59 | the block joins the ring right after the new start of searches, and no size, no other block and no memory changes |
| `FirstFit.Heap.MoreCore` | memallocator/first_fit_memalloc.c:60-75 | fails without effect, or frees one new block big enough and returns the block before it |
| `FirstFit.Heap.Take` | memallocator/first_fit_memalloc.c:100-117 | the block leaves the ring or is cut at its end; a block alone on the ring that fits exactly stays on it |
| `FirstFit.Heap.Malloc` | memallocator/first_fit_memalloc.c:76-141 | terminates and hands out the first block round the ring that fits, else one of new memory, else null; the next request starts at the block before that one on the ring it was found on, and where this one started if there was none; what becomes of every block is fixed, a first request for zero bytes included, and the heap stays one ordered ring whose free and live blocks tile the memory obtained |
| `FirstFit.StartsBefore` | memallocator/first_fit_memalloc.c:105-117 | the pointer of the next start leads to the block found as long as that block stays free |
| `FirstFit.TwoRequests` | memallocator/first_fit_memalloc.c:95-141 | next fit: of two requests in turn the second is cut from the same block if that is still free and big enough, right below the first, and else gets the first block round the ring after it that fits |
| `FirstFit.HandedOut` | memallocator/first_fit_memalloc.c:100-117 | the block handed out holds the units asked for, and it has left the free ring and was not live before exactly when the request was not an exact fit for a block alone on the ring |
| `FirstFit.BaseStays` | memallocator/first_fit_memalloc.c:84-91 | requests for at least one byte never take the permanent empty block, so the exception never arises in a run of them |
| `FirstFit.EmptyFirstRequest` | memallocator/first_fit_memalloc.c:76-117 | whatever a first request for zero bytes comes to, the permanent block is handed out, is still the one free block, and nothing else changes |
| `LockServer.Find` | md_distribute_mutex/md_mutex_server_process.c:65-91 | the first row in use for a file, or the end of the table |
| `LockServer.FirstFree` | md_distribute_mutex/md_mutex_server_process.c:65-78 | the first row not in use, or the end of the table |
| `LockServer.MutexTable.Scan` | md_distribute_mutex/md_mutex_server_process.c:65-91 | one pass finds the row of the file and, failing that, the first free row |
| `LockServer.MutexTable.Get` | md_distribute_mutex/md_mutex_server_process.c:42-134 | for lock and try-lock: counts up the row of the file, or claims the first free row, or refuses |
| `LockServer.MutexTable.GetForUnlock` | md_distribute_mutex/md_mutex_server_process.c:120-133 | for unlock: the row of the file or none, and nothing changes |
| `LockServer.MutexTable.Put` | md_distribute_mutex/md_mutex_server_process.c:135-150 | exactly one row is counted down |
| `LockServer.RowGiven` | md_distribute_mutex/md_mutex_server_process.c:65-118 | the row given is the one in use for the file, else the first free one; it is counted up and stands for the file, and no other row changes; none is given exactly if every row is in use and none for the file |
| `LockServer.StepKeeps` | md_distribute_mutex/md_mutex_server_process.c:188-257 | every step of every request keeps: different names on live rows, each count equal to the requests referring to its row, and each locked mutex held by exactly one session |
| `LockServer.RunInv` | md_distribute_mutex/md_mutex_server_process.c:188-257 | this holds in every state of every interleaving of any number of requests |
| `LockServer.MutualExclusion` | md_distribute_mutex/md_mutex_server_process.c:204-240 | in every interleaving at most one session holds a given file |
| `LockServer.RowReuse` | md_distribute_mutex/md_mutex_server_process.c:105-113 | a row changes its name only while nothing refers to it and its mutex is unlocked, and no count is ever negative |
| `LockServer.UnlockFindsItsRow` | md_distribute_mutex/md_mutex_server_process.c:120-133 | an unlock request finds the very row its session locked |
| `LockServer.LockedIsTaken` | md_distribute_mutex/md_mutex_server_process.c:204-240 | a row is locked exactly while some session has the file it stands for |
| `LockServer.GetGives` | md_distribute_mutex/md_mutex_server_process.c:194-201 | a request given a row carries on with the operation and the file it came with, on a row that stands for that file; nobody else is touched |
| `LockServer.LockGives` | md_distribute_mutex/md_mutex_server_process.c:204-215 | a lock request can proceed exactly when no session has its file, and then it has it |
| `LockServer.TryGives` | md_distribute_mutex/md_mutex_server_process.c:216-227 | a try-lock request gets its file exactly if no session has it, and is told that it failed otherwise |
| `LockServer.UnlockGives` | md_distribute_mutex/md_mutex_server_process.c:228-240 | an unlock gives back the file of its session, which no session has then; who has other files does not change |
| `LockServer.OtherStepsGive` | md_distribute_mutex/md_mutex_server_process.c:194-257 | the first step of a request, the two steps before an unlock, and the last step, in which the row of the file loses exactly this reference |
| `LockServer.Idle` | md_distribute_mutex/md_mutex_server_process.c:188-257 | in every reachable state in which the server can take no step, each session is over, holds its file, or waits for a session whose client holds that file |
| `LockServer.ServerStepAdvances` | md_distribute_mutex/md_mutex_server_process.c:188-257 | each server step brings one session nearer to its end or to its client and leaves the others |
| `LockServer.ServerRests` | md_distribute_mutex/md_mutex_server_process.c:188-257 | the server comes to rest: from any reachable state a stretch of server steps is no longer than the steps its sessions owe |
| `LockServer.RefusedWhenFull` | md_distribute_mutex/md_mutex_server_process.c:96-104 | a lock or try-lock request is refused a row exactly when every row is in use and none for its file |
| `LockChains.HashFunc` | md_distribute_mutex/hash.c:3-13 | the loop computes the 32-bit wrapping hash, reduced to a bucket number |
| `LockChains.HashIs` | md_distribute_mutex/hash.c:3-13 | a name is hashed by the number its bytes are to the base 131, cut to 32 bits, modulo 101 |
| `LockChains.MutexHash.Find` | md_distribute_mutex/new_md_mutex_server.c:80-86 | the walk finds the mutex of a name exactly if one is counted |
| `LockChains.MutexHash.AddNew` | md_distribute_mutex/new_md_mutex_server.c:93-111 | a new mutex heads the chain of its bucket with count one; all chains stay doubly linked, in their buckets and without repeated names |
| `LockChains.MutexHash.Unlink` | md_distribute_mutex/new_md_mutex_server.c:145-158 | the mutex leaves its chain, at the head, the tail or between, and every other chain and count is as it was |
| `LockChains.MutexHash.Get` | md_distribute_mutex/new_md_mutex_server.c:69-133 | on the map from names to counts: one more for lock and try-lock, no change for unlock; the mutex returned is that of the name, null exactly if there is none |
| `LockChains.MutexHash.Put` | md_distribute_mutex/new_md_mutex_server.c:134-167 | on the map: one less, the name gone exactly at zero |
| `LockChains.CountIsBalance` | md_distribute_mutex/new_md_mutex_server.c:69-167 | after any sequence of calls a name has a mutex exactly if more lock requests than puts named it, and the count is the difference |
| `LockChains.BalancedCalls` | md_distribute_mutex/new_md_mutex_server.c:69-167 | calls that put back all they get leave the map as it was |
| `LockChains.FilesApart` | md_distribute_mutex/new_md_mutex_server.c:69-167 | operations on different files commute |
| `WriteBack.FileMeans` | 4xm/super_serv_process.c:203-283 | the chain of a file is acyclic with mirrored links, empty exactly if the file is clean, and replaying it on the data center copy gives the content its writers are owed |
| `WriteBack.ReplayLast` | 4xm/super_serv_process.c:455-508 | a record added at the tail is the last to be replayed |
| `WriteBack.QueuedOk` | 4xm/super_serv_process.c:203-283 | queueing a write puts that write on top of what the file becomes |
| `WriteBack.PendingStep` | 4xm/super_serv_process.c:455-508 | replaying the head record and dropping it leaves the other records pending and the outcome unchanged |
| `WriteBack.OwnedFlushed` | 4xm/super_serv_process.c:496-508 | flushing removes records of no other file |
| `WriteBack.Store.InitFile` | 4xm/posix_api.c:4-30 | a file, new or known, starts clean with what the data center holds and no write queued; records still queued for it are orphaned; without a data center file nothing changes |
| `WriteBack.Store.PutData` | 4xm/posix_api.c:244-248 | storing the data of a write under a fresh key disturbs no queued write |
| `WriteBack.Store.QueueOut` | 4xm/super_serv_process.c:190-303 | the file is dirty with the time of the write and its old access time; a write becomes the record at the tail of its file and the last of the writes to apply, and no other record changes but for the link to it; reads touch the access time only; an unknown file or kind changes nothing; the branch for a half-empty list is never reached |
| `WriteBack.Store.WriteRecord` | 4xm/super_serv_process.c:459-502 | one record is written at its offset and deleted; its data is deleted unless empty |
| `WriteBack.Store.Flush` | 4xm/super_serv_process.c:424-515 | flushes exactly if the file is known, dirty and present; then its copy is what it first held with every write queued since, in queue order, nothing is pending for it, its metadata are clean with both times as they were, the data of its records are gone unless empty, and no record, data or copy of another file changes |
| `WriteBack.HistoryWrite` | 4xm/super_serv_process.c:203-283 | over any run, what a file is to become is what it first held with every queued write applied in order |
| `Files.WrittenBytes` | 4xm/super_serv_process.c:479-480 | every byte of a file after a write at an offset: the bytes written, those kept, and zeros in a gap before them |
| `Parity.Root` | algorithm/find_and_catch.c:22-38 | following father links ends at a root, whose rank is highest on the way |
| `Parity.Compress` | algorithm/find_and_catch.c:28-36 | pointing a node at its root, with the parity of its path, changes no root and no parity |
| `Parity.Link` | algorithm/find_and_catch.c:54-71 | hanging one root below another changes root and parity of exactly the nodes of its tree |
| `Parity.Verdict` | algorithm/find_and_catch.c:100-111 | same root and parity, same root and other parity, and different roots say exactly what the colourings of the statements kept say |
| `Parity.Gangs.GetFather` | algorithm/find_and_catch.c:22-38 | terminates, returns the root, leaves the node right below it with the parity of its path, and keeps every root and parity |
| `Parity.Gangs.constructor` | algorithm/find_and_catch.c:15-21 | each criminal starts alone |
| `Parity.Gangs.Merge` | algorithm/find_and_catch.c:54-71 | linking by rank keeps ranks rising along father links and makes the forest say one statement more |
| `Parity.Gangs.Union` | algorithm/find_and_catch.c:39-73 | the statement is added to those kept, or dropped if they force the two into the same gang |
| `Parity.Gangs.Ask` | algorithm/find_and_catch.c:100-111 | the answer is same or different exactly if every colouring of the statements kept agrees |
| `Parity.ConsistentKeepsAll` | algorithm/find_and_catch.c:48-53 | no statement is dropped exactly if the statements have a colouring at all |
| `Parity.Judge` | algorithm/find_and_catch.c:90-115 | over a whole input every question gets the exact answer for the statements kept before it; the loop stops at the first line out of range |
| `Parity.ConsistentAnswers` | algorithm/find_and_catch.c:96-115 | answers are exact for all statements made, "not sure" exactly when colourings of both kinds exist, if and only if those statements are consistent |
| `DepthFirst.EveryTimeOnce` | graph/adjacent_list.c:240-269 | each time from 1 to 2n is the discovery or the finish of exactly one vertex |
| `DepthFirst.NestedOrDisjoint` | graph/adjacent_list.c:240-269 | any two intervals from discovery to finish are nested or disjoint |
| `DepthFirst.NestedIffDescendant` | graph/adjacent_list.c:245-250 | intervals nest exactly for ancestors and descendants along the parent links |
| `DepthFirst.WhitePathTheorem` | graph/adjacent_list.c:240-254 | a vertex becomes a descendant of u exactly if a path of undiscovered vertices led from u to it when u was discovered |
| `DepthFirst.DiscoverKeeps` | graph/adjacent_list.c:243-244 | discovering a white vertex keeps the invariant of the search |
| `DepthFirst.FinishKeeps` | graph/adjacent_list.c:251-252 | finishing the innermost grey vertex keeps the invariant of the search |
| `DepthFirst.Search.Visit` | graph/adjacent_list.c:240-254 | terminates; nothing already discovered changes; discovered and finished, within the interval of the start vertex, are exactly the vertices that white paths lead to from it by the colours at the call |
| `DepthFirst.VisitDiscovers` | graph/adjacent_list.c:240-254 | what a visit discovers is exactly what white paths led to when it began |
| `DepthFirst.Search.VisitChild` | graph/adjacent_list.c:245-250 | afterwards the neighbour is discovered, and whatever was discovered on the way is finished |
| `DepthFirst.Search.Run` | graph/adjacent_list.c:255-269 | ends in a complete search that took its roots by number and the successors of each vertex by its list, whatever the vertices held before |
| `DepthFirst.OrderMeans` | graph/adjacent_list.c:245-267 | a root is discovered after every vertex with a lower number, a child after every successor its parent lists before it |
| `DepthFirstOrder.OneOutcome` | graph/adjacent_list.c:240-269 | two complete searches of one graph in that order are the same: every discovery time, finishing time and parent is decided by the lists alone |
| `DepthFirstOrder.NextDiscovery` | graph/adjacent_list.c:240-249 | searches that agree up to a time discover the same vertex next, from the same parent |
| `DepthFirstOrder.NextFinish` | graph/adjacent_list.c:251-252 | searches that agree up to a time finish the same vertex next |
| `BreadthFirst.RingQueue.Enqueue` | graph/adjacent_list.c:153-162 | appends, or is refused exactly when 1023 entries wait |
| `BreadthFirst.RingQueue.Dequeue` | graph/adjacent_list.c:163-173 | takes the oldest entry, or none from an empty queue |
| `BreadthFirst.QueueShort` | graph/adjacent_list.c:195-204 | when a white vertex is met the queue is at least two short of the number of vertices, so up to 1024 vertices never fill it |
| `BreadthFirst.EndIs` | graph/adjacent_list.c:190-208 | a refused vertex stays grey and makes the result wrong; none is refused up to 1024 vertices, one always is if the start has 1024 other successors |
| `BreadthFirstOrder.OrderIsBreadthFirst` | graph/adjacent_list.c:190-208 | the order computed from the graph alone is breadth-first: it holds all successors of what it holds and no vertex twice, and puts each vertex behind the first place with an edge to it, those places in order |
| `BreadthFirstOrder.OneOrder` | graph/adjacent_list.c:190-208 | that order is the only one with these properties in which vertices behind the same place stand as its list has them |
| `BreadthFirstOrder.FewAreNarrow` | graph/adjacent_list.c:138-146 | with at most as many vertices as the queue has places, none stands that far behind the one it is met from |
| `BreadthFirst.TooFar` | graph/adjacent_list.c:153-158 | a vertex the queue refuses stands 1024 or more places behind the one it is met from in the order of the graph |
| `BreadthFirst.AgreesMet` | graph/adjacent_list.c:195-205 | until one is refused, the vertices met and those waiting are the places of that order |
| `BreadthFirst.StarIsCrowded` | graph/adjacent_list.c:153-162 | a star of more than 1024 vertices is such a graph |
| `BreadthFirst.PopScans` | graph/adjacent_list.c:191-194 | the vertex taken from the queue is one at the least distance still waiting |
| `BreadthFirst.TouchScans` | graph/adjacent_list.c:195-205 | meeting a neighbour keeps queue order, distances and parents as they must be |
| `BreadthFirst.EmptyQueueDone` | graph/adjacent_list.c:190-208 | with an empty queue exactly the reachable vertices are black, each at the length of a shortest path |
| `BreadthFirst.ListGraph.AddEdge` | graph/adjacent_list.c:76-84 | adds exactly one edge to the graph, at the front of its list |
| `BreadthFirst.ListGraph.Search` | graph/adjacent_list.c:174-210 | terminates for any number of vertices; it blackens exactly the reachable vertices, each at its shortest distance and one edge beyond its parent, if and only if in breadth-first order no vertex stands 1024 or more places behind the one it is met from; the child links of each vertex list exactly the vertices discovered from it, each once; when no vertex is refused, the parents are those of the order of the graph and the children of each vertex are linked newest first |
| `ChildLinks.Children.PutFirst` | graph/adjacent_list.c:197-200 | the new child heads the list of its parent, and all lists stay linked, apart and without repeats |
| `BreadthFirst.FamilyMeets` | graph/adjacent_list.c:195-205 | with each discovery the child lists keep listing exactly the vertices discovered from each vertex |
| `BreadthFirst.GrownMet` | graph/adjacent_list.c:195-205 | a discovery keeps parents as in the order of the graph and every child list sorted by the places in it, for either way of linking |
| `ChildLinks.Children.PutLast` | graph/matrix_graph.c:175-180 | the new child ends the list of its parent, and all lists stay linked, apart and without repeats |
| `MatrixGraphs.IndexDistinct` | graph/matrix_graph.c:43-45 | different pairs of vertices have different bits |
| `MatrixGraphs.MatrixGraph.SetE` | graph/matrix_graph.c:37-50 | sets exactly one edge, or refuses a number out of range without effect |
| `MatrixGraphs.MatrixGraph.GetE` | graph/matrix_graph.c:51-62 | 1 exactly for an edge or for a number out of range |
| `MatrixGraphs.MatrixGraph.Search` | graph/matrix_graph.c:153-187 | the same result as the search over lists, right under the same condition on the order that goes through successors by number, child links listing each vertex under its parent once; when no vertex is refused, the parents are those of that order and the children are linked oldest first |
| `MatrixGraphs.InNumberOrderEdges` | graph/matrix_graph.c:170-171 | those successor lists have exactly the edges of the bitmap, in ascending order |
| `BreadthFirst.SameDistances` | graph/matrix_graph.c:153-187 | over the same edges the two versions find the same vertices at the same distances |
| `DataSync.ChunkLen` | data_sync/c_sync.c:163-182 | how much of a block the client has: nothing exactly beyond its end, never more than a block |
| `DataSync.ServerBlock` | data_sync/s_sync.c:97-111 | the block of the server, full except perhaps the last |
| `DataSync.ChunkAhead` | data_sync/c_sync.c:173-192 | however far the writer has come, a block the sender has yet to read still has its first content |
| `DataSync.StepInv` | data_sync/c_sync.c:16-56 | every action of sender, server and writer keeps the invariant and counts as one |
| `DataSync.AnswerIs` | data_sync/s_sync.c:97-103 | the server, whose offset is a 32-bit product, answers a chunk exactly up to block 2^27 and gives up at that block |
| `DataSync.ServedDelta` | data_sync/s_sync.c:93-131 | the answer to every block: its offset, as old length what the client has of the block, as new length the server's, "same" exactly if the client has something there whose digest is that of the server's buffer, and the block as data exactly if not |
| `DataSync.SameIff` | data_sync/s_sync.c:115-131 | a block is answered "same" exactly if it is a full one and the client's file has the same bytes there; a short last block is always sent |
| `DataSync.BufferHolds` | data_sync/s_sync.c:108-112 | the server's buffer holds the block and a zero byte behind a short one, whatever it held before |
| `DataSync.SameMeansEqual` | data_sync/s_sync.c:123-131 | a block answered "same" is equal to the server's, although the server digests stale bytes behind a short last block |
| `DataSync.InjectiveDistinguishes` | data_sync/c_sync.c:192 | a digest without collisions meets the one hypothesis about digests |
| `DataSync.Synchronised` | data_sync/c_sync.c:133-199 | for files of any size, in every interleaving, the part of the client file dealt with equals the server's, and once every block is dealt with the files are equal byte for byte |
| `DataSync.Finishes` | data_sync/c_sync.c:160-203 | no run deals with a block at or behind the wrap or takes more than six actions a block; for a server file of at most 2^32 bytes a run can go no further exactly when every chunk is sent and every block dealt with, after six actions a block: no thread waits for ever before |
| `DataSync.CompletesIff` | data_sync/s_sync.c:97-103 | some run deals with every block if and only if the server's file has at most 2^32 bytes, and then every run that can go no further has |
| `DataSync.OneByteTooLong` | data_sync/s_sync.c:97-103 | with one byte more, no run deals with the last block |
| `DataSync.Server.Serve` | data_sync/s_sync.c:84-140 | in place over its stale buffer the server answers with both lengths, "same" exactly if the chunk is not empty and has the digest of the buffer, and its block otherwise; it gives up exactly when its 32-bit offset is not the chunk's |
| `DataSync.Server.Fill` | data_sync/s_sync.c:108-112 | the bytes of the block and a zero byte go to the front of the buffer, the rest stays |
| `DataSync.ClientFile.ReadBlock` | data_sync/c_sync.c:161-192 | the sender's chunk for a block: its offset, how much of it lies in the file as it was cut, and the digest of that |
| `DataSync.ClientFile.Deal` | data_sync/c_sync.c:17-56 | the writer applies a delta, or stops on an unaligned offset without effect |
| `DataSync.ClientFile.constructor` | data_sync/c_sync.c:131-144 | the client file is first cut to the server's length |
| `ThreadPool.TaskQueue.Add` | threadpool/threadpool.c:117-133 | the task goes behind all queued ones |
| `ThreadPool.TaskQueue.Take` | threadpool/threadpool.c:25-29 | the oldest task is taken and the rest stay linked in order |
| `ThreadPool.StepInv` | threadpool/threadpool.c:9-39 | every step of every worker and every caller keeps the invariant |
| `ThreadPool.TasksOnce` | threadpool/threadpool.c:9-39 | tasks are taken in the order they were added, none twice: each is queued, in one worker's hands, or done, and only one of these; added is taken plus queued |
| `ThreadPool.NoLostWakeup` | threadpool/threadpool.c:110-140 | while tasks are queued a worker is awake or a signal is pending; while any worker sleeps, workers searching and signals pending are at least as many as tasks queued |
| `ThreadPool.DueStepsEnd` | threadpool/threadpool.c:9-39 | steps other than new calls and spurious wakeups cannot go on for ever |
| `ThreadPool.QuietMeansDone` | threadpool/threadpool.c:9-39 | when no such step is left, every task added is done, every call has returned and every worker sleeps |
| `ThreadPool.AllGetDone` | threadpool/threadpool.c:3-41 | from every reachable state such steps run out, and then every task is done |
| `Kmp.InitTable` | algorithm/kmp.c:3-18 | each entry is the length of the longest proper border of its prefix |
| `Kmp.NothingSkipped` | algorithm/kmp.c:43-50 | falling back by the table skips no occurrence |
| `Kmp.FindPattern` | algorithm/kmp.c:19-59 | returns 0 exactly if the pattern occurs, within twice as many comparisons as the source has characters |
| `Kmp.Search` | algorithm/kmp.c:75-84 | table and search together decide occurrence for every nonempty pattern |
| `TopK.TopUnique` | algorithm/kbig_with_heap_sort.c:51-175 | there is only one multiset of k largest elements, so both algorithms find the same |
| `TopK.Swap` | algorithm/kbig_with_heap_sort.c:16-25 | exchanges two elements |
| `TopK.Partition` | algorithm/kbig_with_heap_sort.c:26-38 | rearranges the part around its pivot: smaller before, not smaller behind |
| `TopK.QQSort` | algorithm/kbig_with_heap_sort.c:39-50 | sorts the part and permutes nothing else |
| `TopK.FindKBig` | algorithm/kbig_with_heap_sort.c:51-98 | appends k largest elements, all of them if there are no more, for every k, and only rearranges the array |
| `TopK.HeapAdjust` | algorithm/kbig_with_heap_sort.c:103-133 | makes a heap from one element further up, rearranging only the first elements |
| `TopK.RootIsLeast` | algorithm/kbig_with_heap_sort.c:156-161 | the first element of a heap is its least |
| `TopK.OneMore` | algorithm/kbig_with_heap_sort.c:168-173 | passing over or replacing the least keeps the k largest of what has been seen |
| `TopK.FindKBigWithHeap` | algorithm/kbig_with_heap_sort.c:134-175 | leaves k largest elements, all of them if there are no more, at the front of the output, for every k |
| `ChunkIndex.Insert` | rsync/src.c:309-363 | a chunk is put in its place of the sorted list, or skipped exactly if one reads the same; links stay whole at head, middle and tail |
| `ChunkIndex.Lookup` | rsync/src.c:404-431 | stopping at the first greater checksum misses nothing in the list |
| `ChunkIndex.SearchesAll` | rsync/src.c:400-431 | the list of a checksum's bucket holds a match exactly if one was ever received |
| `ChunkIndex.Index.Receive` | rsync/src.c:298-364 | after any sequence of chunks every list is sorted, free of repeats and represents all received |
| `ChunkIndex.Index.Find` | rsync/src.c:400-431 | succeeds exactly if a linear search over everything received would, with a chunk of that length, checksum and digest |
| `Rolling.CalRollinCksm` | rsync/rsync_utility.c:12-32 | despite the widths of C, the two sums of the block modulo 65536 and their checksum |
| `Rolling.CalRollinCksmPlus1` | rsync/rsync_utility.c:33-44 | despite unsigned wrap-around below zero, the sums with one byte out and one in |
| `Rolling.RollOne` | rsync/rsync_utility.c:33-44 | one byte out and one in give the sums of the window moved by one |
| `Rolling.SearchOn` | rsync/src.c:386-398 | the two checksum functions, called as the search calls them, give the checksum of the rolled sums |
| `Rolling.RolledLags` | rsync/src.c:386-398 | a search that began with bytes missing lags behind the sums of its window by the same amount for as long as it rolls |
| `Rolling.RolledExact` | rsync/src.c:386-398 | however a search begins and however far it rolls, its sums are those of the window exactly if the bytes missing at its start times the sum of those it had is a multiple of 65536 |
| `Rolling.RolledIsDirect` | rsync/src.c:386-398 | begun on a full block and rolled any number of bytes, zeros past the end of the file included, the sums are those of the window computed anew |
| `Rolling.EqualBlocksMatch` | rsync/dst.c:121-124 | a window equal to a zero-padded block of the other file has that block's checksum exactly under that condition |
| `Rolling.ChecksumHoldsBoth` | rsync/rsync_utility.c:30 | the plain sum is the low half of the checksum and the weighted one the high half, so equal checksums mean both sums are equal |
| `SourceBuffer.Buffer.FillBuf` | rsync/src.c:137-155 | what a fill leaves in the buffer, when it is accepted, and that a seek before offset 0 leaves the descriptor where it was |
| `SourceBuffer.Buffer.Held` | rsync/src.c:163-179 | the two accepted cases give the bytes of the file exactly if the buffer covers what is asked for |
| `SourceBuffer.Buffer.ReadFromBuf` | rsync/src.c:156-186 | inside the file a read succeeds exactly if the offset is not 0 or the bytes are in the buffer already, and then gives the bytes of the file; it always ends |
| `SourceBuffer.SearchBegins` | rsync/src.c:366-381 | the first read of the search fails for every nonempty file |
| `RsyncSearch.EqualBlockMatches` | rsync/src.c:411-420 | its bytes once read, standing on bytes equal to a block of the other file, the search matches that block's chunk exactly under that condition |
| `RsyncSearch.FullStartFinds` | rsync/src.c:400-431 | its bytes once read, a search begun on a full block finds every block that some received chunk describes |
| `RsyncSearch.ShortBlockMissed` | rsync/src.c:386-431 | two files that both hold one byte 1: even with its bytes read, the search misses the block over its checksum |

## Left out

- Sockets, pipes, parsing of input, printed traces, and the internals of the databases.
- The path and user code of `nss.c`, whose binary search stores a comparison in an unsigned number (`nss.c:13-18`).
- The allocation of tree nodes (`nss.c:607-619`) and freeing a deleted one. Keys are unbounded integers, since they are only compared.
- FirstFit.Heap.Free: the branches of the two join tests are replaced by an assertion that they are not reached; the model does not say what they would do.
- FirstFit.Heap.Malloc: the byte count does not wrap at 32 bits, and addresses are whole header units.
- LockServer.MutexTable.Scan: the exit on a negative count (`md_distribute_mutex/md_mutex_server_process.c:90`) is a precondition that no count is negative; `LockServer.RowReuse` shows no reachable table breaks it.
- Failure of `pthread_mutex_lock` and `pthread_mutex_unlock`, and clients that unlock what they do not hold.
- LockChains.MutexHash.Get: whole operations only; the original reads the head of a chain before it takes the global mutex (line 74), so no claim is made for concurrent calls. Memory is never exhausted.
- The list of files of `4xm/` and its choice of the next file to flush, of which one head is lost (`4xm/super_serv_process.c:103`); any file may be flushed at any time.
- Error exits in the middle of a flush, which leave metadata pointing at deleted records, and the deletion of files (`4xm/posix_api.c:31-67`).
- WriteBack.Store.QueueOut: a file without metadata gives the intended result 1; the original lookup tests the wrong pointer there (`4xm/md_func.c:38`). The key of a write is taken to be fresh.
- WriteBack.Store.Flush: writes that go straight to the data center file (the branch at `4xm/posix_api.c:226`, and descriptors on the data path from `_CreateFile`) are not modelled; they would come between what a file first held and the writes queued.
- WriteBack.Store.PutData: the key is taken to be fresh; the original builds it from process, second and path, so two writes of one process to one file within a second would share it.
- WriteBack.Store.WriteRecord: the data of an empty record stays behind in the store, as in the original; its removal is not modelled because it does not happen.
- Parity.Judge: lines naming a criminal below 1 are excluded; the original rejects only numbers above n (`algorithm/find_and_catch.c:96`) and would index its arrays at -1.
- MatrixGraphs.MatrixGraph.SetE: the bit number is an `int` in the original and overflows beyond 46340 vertices (`graph/matrix_graph.c:45`); here it does not.
- MatrixGraphs.MatrixGraph.GetE: the same of `graph/matrix_graph.c:58`.
- DepthFirst.Search.Run: adjacency lists are sequences, and recursion depth is unbounded.
- DataSync.Synchronised: opening files, the two headers and socket failures are not modelled, and channels are unbounded; once the server has exited, the client's threads only do what is left for them to do.
- DataSync.ClientFile.Deal: the data of a delta come with it; that the writer reads exactly as many bytes as the header announces is not modelled, and `DataSync.ServedDelta` shows that the server announces as many as it sends.
- BreadthFirst.ListGraph.Search: adjacency lists are sequences, and the graph is as `init_graph` leaves it. Once the queue has refused a vertex, parents and the order of children are described by the child links alone.
- ThreadPool.QuietMeansDone: before shutdown only; `thread_pool_destroy` sets its flag without the mutex and relies on a sleep (`threadpool/threadpool.c:152-156`). Tasks are taken to return.
- ThreadPool.TaskQueue.Take: the queue methods stand beside the step system, which holds the queue as a sequence.
- Kmp.InitTable: the empty pattern is excluded, because the original then writes outside its table (`algorithm/kmp.c:16`).
- TopK.FindKBigWithHeap: an output with no place at all is excluded when k is 0 and there are elements, because the original then reads its first place (`algorithm/kbig_with_heap_sort.c:169`).
- Rolling.SearchOn: bytes come straight from the file, so it speaks of a search whose first read has succeeded; the buffer is a model of its own.
- SourceBuffer.Buffer.ReadFromBuf: offsets inside the file and blocks of less than 1024 bytes, as the search asks for; reads of the file return all there is.
- ChunkIndex.Index.Find: which of several chunks that read the same is found is not stated.
- Reconstruction of files by `rsync/`: its length test is inverted (`rsync/src.c:48`) and its last region is never sent, so no round trip holds.
- `graph/ssc.c`, `algorithm/find_longest_child_arr.c`, `algorithm/shiwulian.c`, the remaining small algorithms, and the shell and awk files: easier, of fixed size, or repeating a proof made here.
- Parts of a C function that a model needs as a method of its own, such as one turn of a loop, are separate members; the order of their statements is the original's.
