# Memory harvesting: a verified model

The repository harvests memory from producers and lends it to consumers.  This project models its
five hardest components in Dafny and proves what they are for.

- **Remote paging** (`Paging`, `Bitmap`).  The block device keeps a session of 1 GB chunks on a disk
  behind a FIFO queue and, while servers lend memory, on remote slots with a validity bit per page.
  The device is a state machine over atomic steps; in every run each read is answered once, with the last write.  One
  step of the code breaks this, a write to the disk alone while the bit of the page stays set; the
  theorem says exactly when, and that holding writes back during disconnects rules it out.
- **The memory daemon** (`Daemon`, `DaemonSession`, `Eviction`, `Binding`, `Leak`).  Chunk tables and counters,
  the eviction policy, and the message protocol with messages in flight: a client never uses a chunk
  that is not lent to it, and memory is freed only after its client has let go of it.
- **The performance detector** (`AvlShape`, `AvlTree`, `TreeIterator`, `KsDistance`, `Windows`).  A heap AVL tree with
  parent links and duplicates, its iterator, and the one-sided Kolmogorov-Smirnov distance over two
  such trees.
- **The Redis cluster client** (`Decimal`, `Resp`, `ReplyReader`, `Commands`, `CommandParser`, `CommandFormat`, `Fragment`,
  `ClusterMerge`, `ClusterCommand`, `Dict`, `HashTable`, `Route`).  The incremental reply reader against a recursive-descent parser,
  the command printer against the command automaton, splitting by slot against the unsplit command,
  the hash table and its chains in memory against a finite map, and binary search against the slot table.
- **AES** (`AesField`, `AesCipher`, `AesModes`, `AesKnown`), with the known answers of the standards, and the **sliding-window maximum** (`MovingMax`).

Where the source works in place, so does the model: classes and arrays, whose methods are proved
against functions on values, and the properties are lemmas about those functions.

The code departs from what it promises in these places, each with its exact condition and an example:

| departure | condition | example |
|---|---|---|
| a write while RDMA is off goes to the disk alone | `Paging.StepKeepsInvExactly` | `Paging.StaleReadHappens` |
| STOP messages carry the count of the client flagged last | `Eviction.StopCountsExactly` | `Eviction.EvictionMiscounts` |
| a bind is counted although no chunk is free | `Binding.StepKeepsInvExactly` | `Binding.BlindBindHappens` |
| a connection charged too much is destroyed without returning its chunks | `Binding.StepKeepsTablesExactly` | `Leak.ChunkIsLost` |
| counting with equals stops at the topmost equal key | `AvlTree.SearchTree.CountLess` | `AvlTree.CountLessMissesDuplicates` |
| the recent window removes the front of the baseline | `Windows.Window.TickAgainst` | `Windows.RecentDisagrees` |
| an empty key in a fragment is announced with stale digits | `Fragment.WrittenLength` | `Fragment.EmptyKeyOverruns` |
| a bare command name is a success without keys | `CommandFormat.ParseFormatted` | `CommandFormat.NameAloneRunsOut` |
| the binary search leaves the array before the first range | `Route.NodeBySlot` | `Route.SearchCanFall` |
| a slot claimed twice releases two iterators again | `Route.Router.Update` | `Route.RangesCanOverlap` |

## Model

| member | source | states |
|---|---|---|
| `Paging.ReadsReturnLastWrite` | framework/infiniswap_bd/is_mq.c:426-539 | in every run of map, evict, disconnect, write, read and disk steps without a stale write, with teardowns of any number of servers under way at once, each answered read returns what the last earlier write put into its page |
| `Paging.EveryReadIsAnswered` | framework/infiniswap_bd/is_mq.c:102-122 | and no read is lost: when the disk queue has drained, each read asked for in such a run has been answered by exactly one step, not before it was asked for, with what was last written to its page before |
| `Paging.StepKeepsInvExactly` | framework/infiniswap_bd/is_mq.c:511-534 | a step keeps the whole invariant (tables, drained disk queue, remote pages, queued reads) if and only if it is not a write that goes to the disk alone over a trusted remote page with other contents |
| `Paging.StepKeepsInv` | framework/infiniswap_bd/is_mq.c:426-539 | every step that is not a stale write keeps the invariant |
| `Paging.StaleWriteBreaksInv` | framework/infiniswap_bd/is_mq.c:520-522 | a write while RDMA is off leaves the bit set, so the invariant is lost |
| `Paging.StaleWriteIsObservable` | framework/infiniswap_bd/is_mq.c:520-535 | after a stale write and RDMA coming back on, the next read of that page returns the old contents |
| `Paging.TrustedAfterWrite` | framework/infiniswap_bd/is_mq.c:478-536 | after a write exactly these pages are trusted: those it covers if it reached remote memory, none it covers if it spans two chunks, and elsewhere those trusted before |
| `Paging.TrustedAfterOther` | framework/infiniswap_bd/is_main.c:660-733 | no other step makes a page trusted, and a trusted page stays so exactly while its chunk stays routed |
| `Paging.StaleReadHappens` | framework/infiniswap_bd/is_mq.c:520-535 | a run from the initial state, with a chunk mapped on each of two servers, on which one of them disconnects and a read returns stale data |
| `Paging.OfflineMeansLeaving` | framework/infiniswap_bd/is_main.c:432-540 | in every run RDMA is off only while no bit is set or while some server is being disconnected |
| `Paging.QuietDisconnectsSuffice` | framework/infiniswap_bd/is_main.c:432-540 | if no write is served between the two halves of any disconnect handler, no run has a stale write |
| `Paging.RunKeepsInv` | framework/infiniswap_bd/is_mq.c:426-539 | the invariant holds at every state of every run without stale writes |
| `Paging.StepKeepsTables` | framework/infiniswap_bd/is_main.c:660-733 | session-to-slot and slot-to-session tables stay mutual inverses through every step up to what teardowns under way are still to clear, a chunk is at one server at most, and free_chunk_index stays the number of unmapped chunks less one |
| `Paging.MapKeepsTables` | framework/infiniswap_bd/is_mq.c:818-842 | the same for binding a chunk |
| `Paging.EvictBeginKeepsTables` | framework/infiniswap_bd/is_main.c:692-704 | the same for the unrouting half of an eviction |
| `Paging.EvictEndKeepsTables` | framework/infiniswap_bd/is_main.c:706-731 | the same for the releasing half of an eviction |
| `Paging.DisconnectBeginKeepsTables` | framework/infiniswap_bd/is_main.c:449-474 | the same for the unrouting half of a disconnect, which does nothing for a server that is only connected |
| `Paging.DisconnectEndKeepsTables` | framework/infiniswap_bd/is_main.c:510-529 | the same for the releasing half of a disconnect |
| `Paging.StepKeepsDisk` | framework/infiniswap_bd/is_mq.c:102-122 | the disk with its queue drained always holds the last write to every page |
| `Paging.StepKeepsReads` | framework/infiniswap_bd/is_mq.c:216-253 | a queued read finds, when the queue reaches it, what its page held when it was asked for |
| `Paging.PageAfterWrites` | framework/infiniswap_bd/is_mq.c:185-214 | queueing a write changes the drained contents of exactly its own pages |
| `Paging.PageAfterPop` | framework/infiniswap_bd/is_mq.c:102-122 | the disk thread leaves the drained contents unchanged |
| `Paging.InitInv` | framework/infiniswap_bd/is_main.c:1697-1776 | a new session satisfies the invariant for any disk contents |
| `Paging.BlockDevice.constructor` | framework/infiniswap_bd/is_main.c:1697-1776 | a new session is an initial state of the machine |
| `Paging.BlockDevice.RequestWrite` | framework/infiniswap_bd/is_mq.c:426-539 | the request code updates the tables as the machine's write step |
| `Paging.BlockDevice.RequestRead` | framework/infiniswap_bd/is_mq.c:523-534 | the request code answers or queues a read as the machine's read step |
| `Paging.BlockDevice.DiskThread` | framework/infiniswap_bd/is_mq.c:102-122 | one bio is popped and done: a read is answered with the page on the disk, a write changes exactly its page |
| `Paging.BlockDevice.SingleChunkInit` | framework/infiniswap_bd/is_mq.c:818-842 | the loop over the granted slots binds exactly the granted one, as the machine's map step |
| `Paging.BlockDevice.EvictUnroute` | framework/infiniswap_bd/is_main.c:692-704 | the loop over the stop flags unroutes exactly the stopped chunks, as the machine's step |
| `Paging.BlockDevice.EvictRelease` | framework/infiniswap_bd/is_main.c:706-731 | the loop releases exactly those chunks and clears their bits, as the machine's step |
| `Paging.BlockDevice.DisconnectUnroute` | framework/infiniswap_bd/is_main.c:449-474 | the loop over the chunk map unroutes every chunk of the server, as the machine's step |
| `Paging.BlockDevice.DisconnectRelease` | framework/infiniswap_bd/is_main.c:510-529 | the loop releases every chunk of the server, as the machine's step |
| `Bitmap.SetBitPages` | framework/infiniswap_bd/is_mq.c:876-880 | setting a bit in its 32-bit word adds exactly that page to the set of trusted pages |
| `Bitmap.ClearBitPages` | framework/infiniswap_bd/is_mq.c:909-912 | clearing a bit removes exactly that page |
| `Bitmap.Set` | framework/infiniswap_bd/is_mq.c:876-880 | in place, the set of trusted pages gains exactly the page |
| `Bitmap.Clear` | framework/infiniswap_bd/is_mq.c:909-912 | in place, the set of trusted pages loses exactly the page |
| `Bitmap.Test` | framework/infiniswap_bd/is_mq.c:899-908 | answers membership in the set of pages |
| `Bitmap.GroupSet` | framework/infiniswap_bd/is_mq.c:881-889 | the byte range adds exactly its run of pages |
| `Bitmap.GroupClear` | framework/infiniswap_bd/is_mq.c:890-898 | the byte range removes exactly its run of pages |
| `Daemon.InitInv` | framework/infiniswap_daemon/rdma-common.c:208-247 | after initialisation size_gb counts the allocated chunks and mapped_size the lent ones |
| `Daemon.InitialChunks` | framework/infiniswap_daemon/rdma-common.c:220-229 | of up to 20 GB of free memory all but 10 GB are taken, of more all but 15 GB, and never more than 32 |
| `Daemon.ConnectInv` | framework/infiniswap_daemon/rdma-common.c:78-123 | taking an idle connection keeps tables and counters in step |
| `Daemon.BindTables` | framework/infiniswap_daemon/rdma-common.c:646-671 | lending keeps owner and per-connection maps in agreement |
| `Daemon.BindInvExactly` | framework/infiniswap_daemon/rdma-common.c:646-671 | a bind keeps the counters right if and only if there was a chunk to lend |
| `Daemon.RecvDoneTables` | framework/infiniswap_daemon/rdma-common.c:477-509 | giving chunks back keeps the tables in agreement |
| `Daemon.RecvDoneInvExactly` | framework/infiniswap_daemon/rdma-common.c:477-509 | a DONE message keeps the counters right if and only if its count is the number of chunks it names |
| `Daemon.DestroyInv` | framework/infiniswap_daemon/rdma-common.c:168-202 | from right counters, a destroyed connection returns its chunks and its count |
| `Daemon.TablesExactly` | framework/infiniswap_daemon/rdma-common.c:168-202 | the tables agree if and only if every lent chunk is in the map of the connection it is lent to |
| `Daemon.DestroyTablesExactly` | framework/infiniswap_daemon/rdma-common.c:182-192 | destroying a connection keeps the tables in agreement if and only if its count is positive or it has no chunk |
| `Daemon.RecvDoneCreditedExactly` | framework/infiniswap_daemon/rdma-common.c:477-509 | a DONE leaves its connection credited with what it still holds if and only if its count exceeds the chunks it names by no more than the credit in hand |
| `Daemon.FreeChunksInv` | framework/infiniswap_daemon/rdma-common.c:268-283 | freeing unlent chunks keeps the counters right |
| `Daemon.ExpandInvExactly` | framework/infiniswap_daemon/rdma-common.c:449-470 | expansion keeps the counters right if and only if it announces what it allocated |
| `Daemon.AdvertisedIsGrantable` | framework/infiniswap_daemon/rdma-common.c:703-711 | size_gb less mapped_size is exactly the number of chunks that can be lent |
| `Daemon.MappedIsSum` | framework/infiniswap_daemon/rdma-common.c:309-319 | mapped_size is the sum of the per-connection counts |
| `DaemonSession.Session.constructor` | framework/infiniswap_daemon/rdma-common.c:208-247 | the initialised arrays are the initial state |
| `DaemonSession.Session.SendSingleMr` | framework/infiniswap_daemon/rdma-common.c:646-671 | the search loop lends the first grantable chunk, in place |
| `DaemonSession.Session.ReceiveDone` | framework/infiniswap_daemon/rdma-common.c:477-509 | the loop over the flags frees exactly the named chunks, in place |
| `DaemonSession.Session.DestroyConnection` | framework/infiniswap_daemon/rdma-common.c:168-202 | the loop unlends exactly the chunks of the connection, in place |
| `DaemonSession.Session.ExpandMemory` | framework/infiniswap_daemon/rdma-common.c:449-470 | the expand branch allocates exactly what it announces |
| `DaemonSession.AllocateChunks` | framework/infiniswap_daemon/rdma-common.c:455-468 | the allocation loop fills exactly n empty chunks |
| `Eviction.FreeUnlent` | framework/infiniswap_daemon/rdma-common.c:268-283 | the lowest unlent chunks are freed, as many as wanted or as there are, and the counter follows |
| `Eviction.Probe` | framework/infiniswap_daemon/rdma-common.c:324-328 | circular probing terminates on a selectable chunk whenever one exists |
| `Eviction.PollRandom` | framework/infiniswap_daemon/rdma-common.c:323-331 | distinct lent chunks are chosen, so the polled clients hold at least that many |
| `Eviction.Gather` | framework/infiniswap_daemon/rdma-common.c:354-370 | every chunk of every polled client is listed exactly once with its reported activity |
| `Eviction.ExchangePass` | framework/infiniswap_daemon/rdma-common.c:376-385 | one pass permutes the list and brings the least active remaining entry to position n |
| `Eviction.FlagLeast` | framework/infiniswap_daemon/rdma-common.c:375-396 | the passes put the j least active entries in front in order, each of those chunks is set in the message of its client and counted there, and the last client flagged is left in conn_index |
| `Eviction.FrontIsLeastActive` | framework/infiniswap_daemon/rdma-common.c:375-396 | the front entries are distinct lent chunks, none more active than a polled chunk left alone |
| `Eviction.SendStops` | framework/infiniswap_daemon/rdma-common.c:398-404 | every flagged client is told to stop its own chunks with the count of the client flagged last, every other polled client that nothing is needed |
| `Eviction.TakeBack` | framework/infiniswap_daemon/rdma-common.c:284-404 | exactly the missing number of distinct lent chunks is flagged, none more active than a polled chunk left unflagged, the polled clients hold two chunks more than are missing or all that are lent, conn_index is left at the owner of the busiest of those flagged, and the STOP messages name them |
| `Eviction.EvictMem` | framework/infiniswap_daemon/rdma-common.c:249-407 | unlent chunks go first; the rest is flagged and stopped as above; only freed chunks change the state |
| `Eviction.ServeKeepsExactly` | framework/infiniswap_daemon/rdma-common.c:477-509 | serving the DONE of every stopped client keeps the counters right if and only if each count is the number of chunks given up |
| `Eviction.StopCountsExactly` | framework/infiniswap_daemon/rdma-common.c:398-404 | after every client has answered the STOP messages of an eviction the counters are right if and only if all stopped clients give up equally many chunks |
| `Eviction.EvictionMiscounts` | framework/infiniswap_daemon/rdma-common.c:400-400 | an eviction, reached by two connects, three binds and the eviction code, whose answered STOP messages spoil the counters |
| `Binding.StepKeepsSafe` | framework/infiniswap_daemon/rdma-common.c:512-561 | every client, server or channel step keeps each slot claimed at most once along its connection and only while lent to it |
| `Binding.RunKeepsSafe` | framework/infiniswap_daemon/rdma-common.c:512-561 | so does every run |
| `Binding.StepKeepsInvExactly` | framework/infiniswap_daemon/rdma-common.c:477-509 | for STOP messages with any counts, a step keeps the counters of the server right if and only if it neither serves a BIND_SINGLE while no chunk can be lent nor receives a DONE with a wrong count |
| `Binding.StepKeepsTablesExactly` | framework/infiniswap_daemon/rdma-common.c:168-202 | a step keeps the tables of the server in agreement if and only if it does not destroy a connection that has chunks and no positive count |
| `Binding.StepKeepsCreditExactly` | framework/infiniswap_daemon/rdma-common.c:477-509 | a step leaves every connection credited with what it holds if and only if it does not receive a DONE that overdraws |
| `Binding.RunKeepsTables` | framework/infiniswap_daemon/rdma-common.c:168-202 | the tables agree at every state of every run in which no such connection is destroyed |
| `Binding.CreditPreventsLeaks` | framework/infiniswap_daemon/rdma-common.c:477-509 | a run without an overdrawing DONE never destroys such a connection |
| `Binding.LostStaysLost` | framework/infiniswap_daemon/rdma-common.c:168-202 | no step lends or frees a chunk that is lent to a connection that does not have it |
| `Binding.LeakIsForever` | framework/infiniswap_daemon/rdma-common.c:168-202 | so such a chunk is lost to the end of every run |
| `Binding.BlindBindHappens` | framework/infiniswap_daemon/rdma-common.c:646-671 | a run in which two clients connect and are told of the same free chunk, both bind, and the counters are lost at the second bind |
| `Binding.RunKeepsInv` | framework/infiniswap_daemon/rdma-common.c:512-561 | the counters are right at every state of every run whose binds all find a chunk and whose DONEs are all counted right |
| `Binding.UseImpliesOwned` | framework/infiniswap_bd/is_main.c:660-733 | in every reachable state, whatever counts the STOP messages carry, a slot a client routes to or has requests in flight for is allocated and lent to that client's connection |
| `Binding.UseIsExclusive` | framework/infiniswap_daemon/rdma-common.c:646-671 | no slot is used over two connections at once |
| `Binding.UsedIsKept` | framework/infiniswap_daemon/rdma-common.c:268-283 | no step frees a chunk that a client uses or lends it to another connection |
| `Binding.FreedIsUnused` | framework/infiniswap_daemon/rdma-common.c:477-509 | when DONE frees a chunk, its client has unmapped it and drained its requests |
| `Binding.GrantIsFresh` | framework/infiniswap_bd/is_main.c:767-806 | a grant names a slot the client neither uses nor is giving up |
| `Binding.FreeSizeIsGrantable` | framework/infiniswap_daemon/rdma-common.c:703-711 | a client that connects, and one whose QUERY is taken, is sent a FREE_SIZE with exactly the number of chunks that can be lent |
| `Binding.FlightsAreCounted` | framework/infiniswap_bd/is_main.c:616-658 | the requests in flight for a slot are those issued and not yet complete, until the connection ends |
| `Leak.ChunkIsLost` | framework/infiniswap_daemon/rdma-common.c:398-404 | a run from the initial state in which a STOP with the count of another client and a lost connection leave a chunk lent to an entry nobody uses |
| `Leak.StoryIsEviction` | framework/infiniswap_daemon/rdma-common.c:284-404 | run on that state with the lost chunk the busiest of the four, the eviction code flags the other three and sends exactly this STOP |
| `AvlShape.FixAvl` | control_loop/avl_tree.h:127-152 | refreshing a node and rotating restores balance, heights and sizes whenever the subtrees differ by at most two |
| `AvlShape.FixInOrder` | control_loop/avl_tree.h:77-125 | rotations keep the in-order sequence |
| `AvlShape.ClimbAvl` | control_loop/avl_tree.h:127-152 | the walk to the root turns a tree with one subtree changed by one in height into an AVL tree |
| `AvlShape.ClimbInOrder` | control_loop/avl_tree.h:127-152 | the walk keeps the in-order sequence |
| `AvlShape.ClimbNodes` | control_loop/avl_tree.h:127-152 | the walk neither adds nor loses a node |
| `AvlShape.SizeBound` | control_loop/avl_tree.h:127-152 | an AVL tree of height h holds at least Fib(h + 2) - 1 nodes |
| `AvlTree.SearchTree.constructor` | control_loop/avl_tree.h:155-160 | the empty tree is valid |
| `AvlTree.SearchTree.RightRotate` | control_loop/avl_tree.h:77-100 | the pointer code leaves the heap holding exactly the rotated tree, parent links included |
| `AvlTree.SearchTree.LeftRotate` | control_loop/avl_tree.h:102-125 | likewise |
| `AvlTree.SearchTree.FixNode` | control_loop/avl_tree.h:127-152 | one turn of balance does what the pure repair does |
| `AvlTree.SearchTree.Balance` | control_loop/avl_tree.h:127-152 | the loop does what the pure walk does |
| `AvlTree.SearchTree.Insert` | control_loop/avl_tree.h:155-186 | the tree stays valid (order, balance, heights, sizes, parent links) and its sorted keys gain exactly the value |
| `AvlTree.SearchTree.Remove` | control_loop/avl_tree.h:188-241 | the tree stays valid and its sorted keys lose exactly one occurrence of the value, or nothing if it is absent |
| `AvlTree.SearchTree.CountLess` | control_loop/avl_tree.h:243-264 | without equals the count is the number of keys below the value; with equals it falls short of the number of keys at most the value by exactly the equal keys in the right subtree of the topmost node with the value |
| `AvlTree.RankBounds` | control_loop/avl_tree.h:248-251 | the position after any occurrence of a value bounds both numbers, and is the number at most the value for distinct keys |
| `AvlTree.CountLessMissesDuplicates` | control_loop/avl_tree.h:248-251 | three equal keys, for which the count with equals is two |
| `TreeIterator.Iterator.constructor` | control_loop/avl_tree.h:305-322 | the iterator starts at the first key |
| `TreeIterator.Iterator.Value` | control_loop/avl_tree.h:324-326 | it yields the key at its position |
| `TreeIterator.Iterator.HasValue` | control_loop/avl_tree.h:341-343 | it is exhausted exactly after the last key |
| `TreeIterator.Iterator.Advance` | control_loop/avl_tree.h:328-332 | it moves by exactly one position of the sorted keys |
| `TreeIterator.FindNext` | control_loop/avl_tree.h:284-303 | the node reached through child and parent links is the in-order successor |
| `TreeIterator.ClimbToNext` | control_loop/avl_tree.h:293-302 | climbing ends at the first ancestor reached from its left |
| `TreeIterator.Locate` | control_loop/avl_tree.h:284-303 | every position of the in-order sequence is the root of some subtree |
| `KsDistance.GetKsDistance` | control_loop/main.cpp:311-341 | the result bounds the difference of the two distribution functions at every threshold, is not negative, and is zero or attained; the same in terms of counts of samples |
| `KsDistance.CdfIsShare` | control_loop/main.cpp:317-318 | the distribution function times the number of samples is the number of samples at most the threshold, so it is 1 from the greatest sample on |
| `KsDistance.CountsOfDistance` | control_loop/main.cpp:311-341 | times both sizes, the distance bounds and is zero or attained by the number of recent samples at most x times the size of the baseline less the converse; without recent samples it is 0, without baseline ones 1 |
| `KsDistance.MergeRuns` | control_loop/main.cpp:323-338 | the loop over two iterators computes it |
| `KsDistance.BoundsStep` | control_loop/main.cpp:323-338 | passing one run of equal samples extends the bound to all thresholds before the next |
| `KsDistance.GapBetweenRuns` | control_loop/main.cpp:323-338 | between two recent samples the difference is largest at the first |
| `KsDistance.SkipEqual` | control_loop/main.cpp:324-327 | the inner loop stops behind the run and adds one step for each sample |
| `KsDistance.SkipAtMost` | control_loop/main.cpp:329-332 | the inner loop stops behind exactly the baseline samples at most the current one |
| `Windows.Window.Expire` | control_loop/main.cpp:455-457 | an expired sample leaves list and tree together |
| `Windows.Window.Enter` | control_loop/main.cpp:459-462 | an accepted sample enters list and tree together, so that they agree afterwards if and only if they did before |
| `Windows.Window.Tick` | control_loop/main.cpp:451-462 | after every turn the tree holds exactly the performances of the unexpired samples and the new one |
| `Windows.UnexpiredExactly` | control_loop/main.cpp:451-457 | of samples in the order of time exactly those later than the bound stay |
| `Windows.Window.ExpireAgainst` | control_loop/main.cpp:465-471 | the loop pops every expired sample and takes the baseline front out of the tree as often, as long as there is one; without a baseline it is undefined if and only if a sample has expired |
| `Windows.Window.TickAgainst` | control_loop/main.cpp:465-475 | from agreement, list and tree of the recent window agree after the turn if and only if every sample it expires has the performance of the baseline front |
| `Windows.RemovedAgreesExactly` | control_loop/main.cpp:465-471 | taking one value out as often as samples are popped leaves the performances of the rest if and only if all popped samples had that value |
| `Windows.Detector.Turn` | control_loop/main.cpp:451-475 | both windows in one turn of the control loop: the baseline stays in agreement with its tree, the recent window under exactly that condition |
| `Windows.RecentDisagrees` | control_loop/main.cpp:467-467 | three turns from the start after which the recent list and its tree disagree |
| `Decimal.CountDigits` | harvester/producer-cli/hiredis.c:193-203 | counts the decimal digits |
| `Decimal.UintLen` | harvester/producer-cli/hiutil.c:250-266 | counts the decimal digits |
| `Decimal.Itoa` | harvester/producer-cli/hiutil.c:189-236 | prints every number with its terminator, except that zero overwrites one byte only |
| `Decimal.DigitsSpell` | harvester/producer-cli/hiutil.c:215-235 | digits spell their number, without leading zero |
| `Resp.ParseReplyAppend` | harvester/producer-cli/read.c:445-525 | a decided reply or error is not changed by bytes that arrive later |
| `Resp.ParseAllSplits` | harvester/producer-cli/read.c:445-525 | cutting a stream in two changes neither its replies nor its error |
| `Resp.ChunkingIsInvisible` | harvester/producer-cli/read.c:445-525 | nor does cutting it into any number of feeds, each drained |
| `Resp.RoundTrip` | harvester/producer-cli/read.c:302-365 | a printed reply is rebuilt exactly, consuming exactly its encoding, if at most eight arrays contain each other, and is the depth error otherwise |
| `Resp.StreamRoundTrip` | harvester/producer-cli/read.c:477-525 | a stream of printed replies is read back as those replies |
| `Resp.NumberOfText` | harvester/producer-cli/read.c:148-173 | a printed number reads back |
| `Resp.NegativeCounts` | harvester/producer-cli/read.c:302-365 | an array of count -1 is nil, one of any other count below one is an array without elements, and a bulk string of negative length is nil |
| `Resp.NilArray` | harvester/producer-cli/read.c:319-328 | *-1 and $-1 read as nil |
| `Resp.MalformedCounts` | harvester/producer-cli/read.c:148-173 | a number with a byte other than a digit reads as -1, wherever it stands |
| `ReplyReader.SeekNewline` | harvester/producer-cli/read.c:120-144 | the scan finds the first line end, also with a carriage return as last byte |
| `ReplyReader.ReadLongLong` | harvester/producer-cli/read.c:148-173 | reads to the first carriage return, -1 for anything but sign and digits |
| `ReplyReader.CloseMeans` | harvester/producer-cli/read.c:190-213 | popping finished arrays and going on equals the recursive parse of what is missing |
| `ReplyReader.TracksDone` | harvester/producer-cli/read.c:215-300 | a finished item moves the meaning of the half-read reply along with the cursor, for all later bytes |
| `ReplyReader.TracksArray` | harvester/producer-cli/read.c:302-365 | so does entering an array |
| `ReplyReader.TracksType` | harvester/producer-cli/read.c:367-396 | so does reading a type byte, or it is the protocol error |
| `ReplyReader.Reader.constructor` | harvester/producer-cli/read.c:416-435 | a new reader has no pending bytes |
| `ReplyReader.Reader.SetError` | harvester/producer-cli/read.c:46-70 | an error drops buffer, tasks and reply |
| `ReplyReader.Reader.MoveToNextTask` | harvester/producer-cli/read.c:190-213 | the task stack stays a chain within nine entries and moves as the pure closing function |
| `ReplyReader.Reader.ProcessLineItem` | harvester/producer-cli/read.c:215-247 | consumes one line item or waits |
| `ReplyReader.Reader.ProcessBulkItem` | harvester/producer-cli/read.c:249-300 | consumes one bulk item whole or waits |
| `ReplyReader.Reader.ProcessMultiBulkItem` | harvester/producer-cli/read.c:302-365 | enters an array, or refuses it at depth eight |
| `ReplyReader.Reader.ProcessItem` | harvester/producer-cli/read.c:367-414 | every item makes progress, waits or fails as the recursive parser does |
| `ReplyReader.Reader.Feed` | harvester/producer-cli/read.c:445-475 | appends to the pending bytes, or is refused after an error |
| `ReplyReader.Reader.GetReply` | harvester/producer-cli/read.c:477-525 | returns exactly what a recursive-descent parser finds at the start of the pending bytes, and keeps the rest, whatever the buffer has discarded |
| `ReplyReader.Drain` | harvester/producer-cli/read.c:477-525 | taking replies until none is due gives all replies of the stream |
| `ReplyReader.FeedInChunks` | harvester/producer-cli/read.c:445-525 | feeding in pieces and draining gives the replies and the ending of the whole stream |
| `Commands.SplitNamesRecognised` | harvester/producer-cli/command.c:480-579 | DEL, MGET and MSET are recognised in any mix of letter case |
| `CommandParser.ParseCommand` | harvester/producer-cli/command.c:315-1621 | the byte-by-byte automaton equals the field-by-field meaning on every buffer |
| `CommandParser.ReadKeyCount` | harvester/producer-cli/command.c:1364-1393 | accepts exactly non-empty digit strings that are not zero |
| `CommandFormat.FormatCommandArgv` | harvester/producer-cli/hiredis.c:530-566 | fills exactly the precomputed length with the printed command and terminates it |
| `CommandFormat.BulkLength` | harvester/producer-cli/hiredis.c:206-208 | is the length of every printed argument of that many bytes |
| `CommandFormat.ParseFormatted` | harvester/producer-cli/command.c:361-1602 | every printed argument vector: accepted if name and arity are legal, out of bytes for a bare name, rejected otherwise |
| `CommandFormat.KeysExtracted` | harvester/producer-cli/command.c:361-1602 | accepted if and only if legal, and the keys extracted are byte for byte the key arguments of the class |
| `CommandFormat.CommonCommands` | harvester/producer-cli/command.c:459-1026 | GET, TTL and INCR are accepted with exactly one argument, EXPIRE and HGET with two, HSET with three, SET and LPUSH with any number from one on, in any letter case, and the first argument is the key |
| `CommandFormat.SplitCommands` | harvester/producer-cli/command.c:1155-1167 | MGET and DEL are accepted with any number of keys from one on, MSET with pairs or a lone key, and these are the keys extracted |
| `CommandFormat.NameAloneRunsOut` | harvester/producer-cli/command.c:1590-1594 | GET without a key ends as a success without keys |
| `CommandFormat.FixedArity` | harvester/producer-cli/command.c:1127-1149 | one key and a fixed number of arguments |
| `CommandFormat.VariadicArity` | harvester/producer-cli/command.c:1150-1154 | one key and any number of arguments |
| `CommandFormat.TailOfKeys` | harvester/producer-cli/command.c:1155-1159 | all arguments of MGET and DEL are keys |
| `CommandFormat.PairsArity` | harvester/producer-cli/command.c:1160-1167 | alternate arguments of MSET are keys; a lone key is accepted, an odd argument is not |
| `CommandFormat.ScriptArity` | harvester/producer-cli/command.c:1283-1419 | EVAL needs a positive key count and one key |
| `Fragment.SelectAt` | harvester/producer-cli/hircluster.c:3186-3248 | every key is in the fragment of its slot, at its rank among that slot's keys |
| `Fragment.SelectFrom` | harvester/producer-cli/hircluster.c:3186-3248 | every element of a fragment is one key of its slot: the fragments partition the keys |
| `Fragment.WrittenLength` | harvester/producer-cli/hircluster.c:3250-3397 | the bytes written are at least those reserved, and equal if and only if every empty key follows a number of one digit |
| `Fragment.EmptyKeyOverruns` | harvester/producer-cli/hiutil.c:208-212 | a fragment that writes one byte too many |
| `Fragment.FragmentIsFormat` | harvester/producer-cli/hircluster.c:3250-3397 | under exactly that condition the fragment is the printed command of its name, keys and values |
| `Fragment.FragmentParsesBack` | harvester/producer-cli/hircluster.c:3250-3397 | it fills clen bytes and parses back to the same command with the fragment's keys in order, each with its value behind it |
| `Fragment.NonEmptyKeysFit` | harvester/producer-cli/hircluster.c:3209-3222 | non-empty keys meet the condition in every fragment |
| `Fragment.CommandStands` | harvester/producer-cli/hircluster.c:3186-3248 | in a printed MGET, DEL or MSET the keys the automaton found stand where the splitter expects them |
| `Fragment.RemainLength` | harvester/producer-cli/hircluster.c:3224-3247 | the scan behind an MSET key measures exactly its value |
| `Fragment.SplitKeys` | harvester/producer-cli/hircluster.c:3186-3248 | each key joins the sub-command of its slot with the right clen; a slot out of range is an error |
| `Fragment.PrintNumber` | harvester/producer-cli/hiutil.c:189-236 | the number left in the shared buffer, stale digits included |
| `Fragment.WriteFragment` | harvester/producer-cli/hircluster.c:3250-3397 | the buffer is filled exactly with the fragment, or left behind its end if and only if some empty key follows a longer number |
| `Fragment.PreFragment` | harvester/producer-cli/hircluster.c:3148-3421 | one sub-command per slot in slot order, none if one slot has every key; an error if and only if a slot is out of range, an overrun if and only if some fragment does not fit |
| `ClusterMerge.SplitEqualsWhole` | harvester/producer-cli/hircluster.c:3672-3690 | for every key list, slot function and store, splitting, running in slot order and merging gives the reply and the store of the unsplit command |
| `ClusterMerge.SplitKeepsStore` | harvester/producer-cli/hircluster.c:3672-3690 | the final store is the same, duplicates included |
| `ClusterMerge.SplitKeepsCount` | harvester/producer-cli/hircluster.c:3455-3463 | the DEL counts of the fragments add up to the count of the whole |
| `ClusterMerge.RemovedIsLost` | harvester/producer-cli/hircluster.c:3455-3463 | a DEL count is the number of keys the store has lost |
| `ClusterMerge.GivenIsValue` | harvester/producer-cli/hircluster.c:3496-3522 | the element the merge hands to a key is the value the unsplit MGET gives it |
| `ClusterMerge.CheckReplies` | harvester/producer-cli/hircluster.c:3433-3475 | the first missing, error or misfit reply ends the merge; counts are added up |
| `ClusterMerge.TakeFromEnds` | harvester/producer-cli/hircluster.c:3496-3522 | reverse consumption hands each key the element of its rank from the end, and fails if and only if a reply is too short |
| `ClusterMerge.PostFragment` | harvester/producer-cli/hircluster.c:3423-3543 | the merged reply of each command type, or the reply or error that stops it |
| `ClusterCommand.FormattedCommand` | harvester/producer-cli/hircluster.c:3552-3690 | from bytes to reply: a printed MGET, DEL or MSET, parsed, split, each piece served from its own bytes and the replies merged, has the reply and the store of the whole bytes served at once; it leaves a buffer if and only if it has several keys and some fragment does not fit |
| `ClusterCommand.PiecesServed` | harvester/producer-cli/hircluster.c:3672-3688 | sending the bytes of the pieces runs the fragments slot by slot |
| `ClusterCommand.FragmentServed` | harvester/producer-cli/hircluster.c:3250-3397 | the bytes of a fragment are served as its keys and values |
| `ClusterCommand.CommandServed` | harvester/producer-cli/hircluster.c:3665-3670 | the bytes of a printed command are served as its keys and values |
| `Dict.PushIs` | harvester/producer-cli/dict.c:135-153 | linking a new entry changes exactly its key, and keeps every entry in the bucket of its hash |
| `Dict.CutIs` | harvester/producer-cli/dict.c:182-210 | unlinking removes exactly its key |
| `Dict.ResizeKeeps` | harvester/producer-cli/dict.c:88-132 | resizing keeps every entry, for any hash function |
| `Dict.VisitedOnce` | harvester/producer-cli/dict.c:268-286 | the entries in bucket order have distinct keys and are those of the map |
| `Dict.NextPower` | harvester/producer-cli/dict.c:306-315 | the smallest table size, a doubled initial size, that is large enough |
| `HashTable.OffBucket` | harvester/producer-cli/dict.c:106-121 | an entry whose key is not in its bucket is in no chain in memory |
| `HashTable.PushFront` | harvester/producer-cli/dict.c:114-116 | linking an entry in front of a chain leaves the memory of every chain as the table with the entry pushed |
| `HashTable.MoveChain` | harvester/producer-cli/dict.c:106-121 | relinking one old chain node by node empties it into the new table and leaves the other old chains linked |
| `HashTable.MoveAll` | harvester/producer-cli/dict.c:102-122 | when the count has run down, all entries are linked into the new table |
| `HashTable.UnlinkBehind` | harvester/producer-cli/dict.c:196-197 | unlinking through the entry before leaves the chain without the entry |
| `HashTable.Dictionary.constructor` | harvester/producer-cli/dict.c:73-86 | the empty map |
| `HashTable.Dictionary.Expand` | harvester/producer-cli/dict.c:88-132 | relinking every entry in memory, bucket by bucket, keeps the map |
| `HashTable.Dictionary.ExpandIfNeeded` | harvester/producer-cli/dict.c:295-303 | leaves room for one more entry |
| `HashTable.Dictionary.Find` | harvester/producer-cli/dict.c:243-256 | finds the entry that holds the value of the map |
| `HashTable.Dictionary.Add` | harvester/producer-cli/dict.c:135-153 | adds the key if and only if it is absent; used stays exact and at most the size |
| `HashTable.Dictionary.Replace` | harvester/producer-cli/dict.c:160-179 | sets the key, in place if it is there, and reports whether it was new |
| `HashTable.Dictionary.Delete` | harvester/producer-cli/dict.c:182-210 | removes the key if present, by unlinking its entry behind its predecessor or at the head of the chain |
| `HashTable.Iterator.Next` | harvester/producer-cli/dict.c:268-286 | returns the remaining entries one by one |
| `HashTable.VisitAll` | harvester/producer-cli/dict.c:268-286 | a full iteration returns each entry once even if returned entries are deleted |
| `Route.Router.constructor` | harvester/producer-cli/hircluster.c:1355-1356 | no route |
| `Route.Router.Update` | harvester/producer-cli/hircluster.c:1355-1468 | a new route if and only if every node is a master with proper ranges and no slot is claimed twice, and then the table has the owner of the unique range containing each slot; otherwise the old route is untouched, and the error path releases an iterator twice if and only if a slot is claimed twice or the first bad node is no master and a list was read before it |
| `Route.Collect` | harvester/producer-cli/hircluster.c:1373-1406 | the loops collect the ranges of all nodes or stop at the first bad one, with the list iterator null, held or already released |
| `Route.RangesCanOverlap` | harvester/producer-cli/hircluster.c:1412-1417 | two nodes with proper ranges and a common slot |
| `Route.FillTable` | harvester/producer-cli/hircluster.c:1409-1421 | the two loops fill the table, or find a slot claimed twice |
| `Route.SortKeeps` | harvester/producer-cli/hircluster.c:1408-1408 | sorting changes neither claims nor unique owners |
| `Route.Router.NodeByTable` | harvester/producer-cli/hircluster.c:2580-2598 | the owner of the slot, or null |
| `Route.NodeBySlot` | harvester/producer-cli/hircluster.c:2515-2577 | null before the first route; from the first range on, the binary search answers as the table; before it, it answers null or leaves the array, by the number of ranges alone; without ranges it leaves the array |
| `Route.SearchCanFall` | harvester/producer-cli/hircluster.c:2555-2561 | a route of two ranges on which it leaves the array |
| `AesField.SBoxInverse` | harvester/producer-cli/aes.c:79-114 | the inverse substitution table undoes the forward one on every byte (FIPS 197 section 5.3.2) |
| `AesField.SBoxIsDefined` | harvester/producer-cli/aes.c:79-95 | the table is the inverse in GF(2^8) followed by the affine map (FIPS 197 section 5.1.1) |
| `AesField.MixBytes` | harvester/producer-cli/aes.c:305-319 | a mixed byte is twice its byte plus three times the next plus the other two (FIPS 197 section 5.1.3) |
| `AesField.MixInverse` | harvester/producer-cli/aes.c:305-363 | inverse column mixing undoes column mixing on every column (FIPS 197 section 5.3.3) |
| `AesField.MultiplyLinear` | harvester/producer-cli/aes.c:325-342 | multiplication by any byte distributes over addition in the field |
| `AesCipher.ShiftRowsInverse` | harvester/producer-cli/aes.c:271-297 | inverse row shifting undoes row shifting |
| `AesCipher.RowByRow` | harvester/producer-cli/aes.c:271-297 | shifting is one rotation per row |
| `AesCipher.CipherInverse` | harvester/producer-cli/aes.c:410-458 | the inverse cipher undoes the cipher on every block, for every key schedule (FIPS 197 sections 5.1 and 5.3) |
| `AesCipher.AddedToZero` | harvester/producer-cli/aes.c:242-252 | round key r is the r-th block of the key schedule |
| `AesCipher.AddedExactly` | harvester/producer-cli/aes.c:242-252 | adding round key r has the same result for two schedules if and only if they agree on that block |
| `AesKnown.KnownSchedule` | harvester/producer-cli/aes.c:151-222 | the key schedule of FIPS 197 appendix A.1, byte for byte |
| `AesKnown.KnownCipher` | harvester/producer-cli/aes.c:410-433 | the cipher example of FIPS 197 appendix B |
| `AesCipher.AddRoundKeyInPlace` | harvester/producer-cli/aes.c:242-252 | in place, one block only |
| `AesCipher.SubBytesInPlace` | harvester/producer-cli/aes.c:256-266 | in place, one block only |
| `AesCipher.InvSubBytesInPlace` | harvester/producer-cli/aes.c:368-378 | in place, one block only |
| `AesCipher.ShiftRowsInPlace` | harvester/producer-cli/aes.c:271-297 | three rows rotated through one temporary shift the block |
| `AesCipher.InvShiftRowsInPlace` | harvester/producer-cli/aes.c:380-406 | likewise backwards |
| `AesCipher.MixColumnsInPlace` | harvester/producer-cli/aes.c:305-319 | the loop with its column sum mixes the block |
| `AesCipher.InvMixColumnsInPlace` | harvester/producer-cli/aes.c:347-363 | the loop unmixes the block |
| `AesCipher.CipherInPlace` | harvester/producer-cli/aes.c:410-433 | the round loop ciphers the block and nothing else |
| `AesCipher.InvCipherInPlace` | harvester/producer-cli/aes.c:436-458 | the round loop deciphers the block and nothing else |
| `AesModes.KeyExpansion` | harvester/producer-cli/aes.c:151-222 | the 44 words made in place satisfy the recurrence of FIPS 197 section 5.2 |
| `AesModes.FillTemp` | harvester/producer-cli/aes.c:167-205 | the bytes moved through one temporary, substituted and marked are RotWord, SubWord and the round constant |
| `AesModes.AppendWord` | harvester/producer-cli/aes.c:216-221 | a new word is the sum of the temporary word and the one four before it |
| `AesModes.RconIsPower` | harvester/producer-cli/aes.c:118-120 | round constants are powers of two in the field (FIPS 197 section 5.2) |
| `AesModes.CbcRoundTrip` | harvester/producer-cli/aes.c:498-527 | CBC decryption undoes encryption on every buffer of whole blocks (SP 800-38A section 6.2) |
| `AesModes.CbcBlocks` | harvester/producer-cli/aes.c:498-511 | block i of the ciphertext is the cipher of block i plus the ciphertext block before it, or plus the IV |
| `AesKnown.KnownCbc` | harvester/producer-cli/aes.c:489-511 | the first two blocks of the CBC example of SP 800-38A section F.2.1 |
| `AesModes.CbcEncryptChains` | harvester/producer-cli/aes.c:498-511 | encrypting a concatenation equals two calls chained through the stored IV |
| `AesModes.CbcDecryptChains` | harvester/producer-cli/aes.c:513-527 | so does decrypting |
| `AesModes.IncrementValue` | harvester/producer-cli/aes.c:550-560 | the carry loop adds one and wraps at the end |
| `AesModes.CounterValue` | harvester/producer-cli/aes.c:535-566 | the counter is the IV plus the number of blocks modulo 2^128 (SP 800-38A section 6.5) |
| `AesModes.CtrTwice` | harvester/producer-cli/aes.c:535-566 | CTR is its own inverse |
| `AesModes.CtrOfZeros` | harvester/producer-cli/aes.c:535-566 | the keystream is the cipher of the successive counters |
| `AesModes.CtrChains` | harvester/producer-cli/aes.c:535-566 | two CTR calls chained through the counter equal one call on the concatenation if the first ends at a block boundary |
| `AesModes.XorWithIv` | harvester/producer-cli/aes.c:489-496 | in place, with the other block possibly earlier in the same buffer |
| `AesModes.Context.constructor` | harvester/producer-cli/aes.c:229-233 | expanded key and IV |
| `AesModes.Context.CbcEncryptBuffer` | harvester/producer-cli/aes.c:498-511 | the buffer becomes its CBC encryption and the IV the last ciphertext block |
| `AesModes.Context.CbcDecryptBuffer` | harvester/producer-cli/aes.c:513-527 | the buffer becomes its CBC decryption and the IV the last ciphertext block |
| `AesModes.Context.IncrementIv` | harvester/producer-cli/aes.c:550-560 | the counter is stepped in place |
| `AesModes.Context.CtrXcryptBuffer` | harvester/producer-cli/aes.c:535-566 | every byte is combined with its keystream byte, and the counter stands after the last block |
| `MovingMax.InsertKeeps` | harvester/cmanager/cmanager.cpp:230-246 | accepting a later point keeps the deque increasing in epoch, strictly decreasing in average, and covering every point that counts |
| `MovingMax.RunKeeps` | harvester/cmanager/cmanager.cpp:195-246 | so through every run with increasing epochs |
| `MovingMax.FrontIsMaximum` | harvester/cmanager/cmanager.cpp:182-193 | the front is current, or less than 1800 epochs old and not before epoch 599; it is the maximum over all accepted points that are, and the latest to attain it |
| `MovingMax.QueueExactly` | harvester/cmanager/cmanager.cpp:230-246 | a point is in the deque if and only if it is current, or less than 1800 epochs old and not before epoch 599, and no later point reaches it |
| `MovingMax.SumTail` | harvester/cmanager/cmanager.cpp:208-211 | dropping the oldest sample corrects the sum |
| `MovingMax.SquaresExpand` | harvester/cmanager/cmanager.cpp:216-223 | the sum of squared distances is never negative, vanishes exactly when all samples are the average, and equals the usual expansion |
| `MovingMax.Controller.constructor` | harvester/cmanager/cmanager.cpp:43-46 | no samples |
| `MovingMax.Controller.Update` | harvester/cmanager/cmanager.cpp:195-246 | a finite sample is averaged over at most 600 samples and accepted; any other changes nothing |
| `MovingMax.Controller.AddSample` | harvester/cmanager/cmanager.cpp:205-211 | the last 600 samples are retained, and the running sum is their sum |
| `MovingMax.Controller.GetMax` | harvester/cmanager/cmanager.cpp:182-193 | zero before the first point, and then average and variance of a maximum over all points that are current, or less than 1800 epochs old and not before epoch 599 |
| `MovingMax.DropFront` | harvester/cmanager/cmanager.cpp:231-235 | pops points that are 1800 epochs old or from before epoch 599, up to the first that is neither |
| `MovingMax.DropBack` | harvester/cmanager/cmanager.cpp:236-239 | pops the points that are not larger, up to the last that is |

## Left out

- Paging.ReadsReturnLastWrite: a write to remote memory and to the disk queue is one step; completion order of RDMA operations, the context pool and buffer reuse are not modelled.
- Paging.BlockDevice.RequestWrite: the bitmaps are one set of pages here; `Bitmap` proves that the words represent such sets.
- Binding.StepKeepsSafe: a server evicts from a connection only after the previous exchange on it has ended; the count of a STOP is any positive number, of which `Eviction.SendStops` says which is sent; a connection is requested, accepted and told the free size in one step.
- Paging.StepKeepsTables: an eviction begins at a server only while none is under way there and its connection is up, and a server grants no slot that is being given up, as `Binding.GrantIsFresh` says.
- Eviction.EvictMem: random numbers and activity reports are parameters; a report is positive exactly for the chunks a client holds, since it is the number of recent operations plus one (framework/infiniswap_bd/is_main.c:306-314).
- DaemonSession.Session.ExpandMemory: memory measurement and its filtering are parameters.
- AvlTree.SearchTree.Insert: keys are reals in one direction of better; shared pointers are plain references.
- KsDistance.GetKsDistance: floats are reals, and an empty tree contributes no step where the code divides by zero.
- Windows.Detector.Turn: the prefetch window, which is a second `Windows.Window.Tick`, and what the detector concludes from the windows are not part of the turn.
- ReplyReader.Reader.GetReply: reply objects are values that an array takes when they are complete, not heap objects linked at creation; allocation failure, 64-bit overflow of numbers and the capacity of the buffer are not modelled.
- CommandParser.ParseCommand: 32-bit wrap-around of lengths is not modelled; result, type and keys are, the error text is not.
- Commands.SplitNamesRecognised: names beyond these and those of `CommandFormat.CommonCommands` are listed as in the source, and nothing is stated about them.
- Fragment.PreFragment: numbers of arguments and lengths of keys have at most ten digits, as 32-bit ones do; what the code does behind the end of a buffer is not modelled.
- ClusterMerge.SplitEqualsWhole: the cluster is one map store without redirections, and servers answer every fragment.
- ClusterCommand.FormattedCommand: stated for printed commands; an error reply to a sub-command, which ends the call, cannot occur there.
- HashTable.Dictionary.Expand: freeing of the old table and of deleted entries is not modelled; the mask of a power of two is the remainder by it.
- Route.Router.Update: the sort is a pure function, and assertions are compiled out as by default; parsing of the node list and connections of nodes are not modelled.
- AesModes.Context.CbcEncryptBuffer: whole blocks only, as the header demands; AES-192 and AES-256 are not modelled.
- MovingMax.Controller.Update: doubles are reals, the standard deviation is kept as its square, and epochs increase; averages that are not finite cannot occur.
- The slab allocator of the coordinator, the cluster trace simulators, network and asynchronous plumbing, redirection, the balloon driver, the latency and raw controllers, configuration and application workloads.
- RDMA verbs, kernel block-layer calls, connection setup, locking, sleeping and logging.
