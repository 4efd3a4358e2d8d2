# PerspectiveDB: version graphs, merging and replication

PerspectiveDB stores every document as an append-only graph of versions. A *tree* keeps the graphs of
many ids in one ordered key-value store; trees replicate to each other, and what a remote sends is merged
with the local versions by searching for common ancestors. This project models that core and proves what
it keeps, over every input, every interleaving and every run.

| module | what it models |
|---|---|
| `Items`, `Dag` | items, versions, ancestry in a stream of items |
| `Edges`, `Frontier`, `Meet`, `FindLcas` | the streaming common-ancestor search over two streams: edge lists, degree counters, the recursive removal, early stop, and what the reported set is |
| `Bytes`, `Keys`, `KeyBuffers`, `HeadRange` | the byte encoding of keys, the buffers filled with it, parsing, order, ranges, and the range of a prefix |
| `Store`, `Log`, `Index`, `Tree` | the ordered store, the log of a tree, its four indexes and the per-perspective slot, atomic batches |
| `Stream`, `Tail` | index-driven streams and the reader that keeps following a tree |
| `Export` | the filtered export with contracted parents |
| `Handshake`, `Replication` | the exchange of data requests, and runs of appends, connects, deliveries and disconnects |
| `ThreeWay`, `Merge` | merging documents key by key, and merging two heads |
| `Queue`, `Heads`, `Arrivals`, `LocalWrite`, `LocalRuns`, `LocalOrder` | the queue of merges that wait for confirmation, one head per id in the local tree, runs of drafts, arrivals and confirmations, and when arrivals can be merged |
| `Restart` | what a restarted merge reads again |

Code that changes things in place is modelled by classes and methods with loops (`FindLcas.Side` and
`Search`, `KeyBuffers.Buffer`, `Store`, `Tree`, `TailReader`, `Handshake`, `MergeTree`, the loops of `ThreeWay` and
`Queue`); recursion over the graph and pure choices are functions. The `Compose*` and `Get*Range` methods
of `KeyBuffers`, which trees and streams use, fill buffers with the encodings and ranges of `Keys`, about which the
results are stated.

## How the main results fit together

* **Ancestor search.** The live edges of a side are, after every step, exactly the edges on paths from the
  first vertex to an end of the stream that avoid all reported vertices (`Frontier.Exact`).
  `RemoveVertice` and the early stop keep that, so for every
  schedule of the two streams the outcome is the one set `IsMeet`: reachable from both roots by paths
  without another member. The documentation calls the result the lowest common ancestors. It is not always:
  `Meet.ReportsMoreThanLowest` is a concrete pair of graphs, and `Meet.MeetIsLowest` gives the exact condition.
  What does hold on all inputs: every lowest common ancestor is reported, the first one reported is lowest,
  all reported vertices are common ancestors, and nothing is reported iff there is none.
* **Tree store.** `Tree.Tree.Valid` says the byte-keyed store holds exactly what a ghost log calls for. Opening,
  `SaveAtomic` and `Writev` keep it, batches are all or nothing, and other trees in the same store are untouched.
  Whatever the log guarantees (unique versions, rising numbers, parents earlier and of the same id, the newest
  item is a head) is then true of the indexes, and streams read from them are slices of the log, of which a limit
  leaves the beginning.
* **Export and replication.** The export is, for every passing item in order, the flags and document the rules made of
  it on its nearest passing ancestors (`Export.ExportedAre`), and preserves ancestry among the passing items both ways.
  Over any run the receiver holds what both sets of rules make of a prefix of the sender's log, documents included
  (`Replication.ReceiverHolds`), because the last version stored is the right place to resume. However a run has gone,
  a new connection ends with everything that is to arrive iff all of it is welcome (`Replication.CatchesUp`): a delivery
  is refused iff a parent of the item was filtered out on the way or, for an item without parents, the receiver has
  something of its id. Without import rules all is welcome iff no id has two passing items without passing ancestors; a
  passing root per id is enough.
* **Merging.** With one ancestor, merging is a fast-forward iff one root is an ancestor of the other. The
  document merge is the textbook diff3 rule for one ancestor; with one ancestor per side the exact
  behaviour per key is given, and exactly when it matters which document comes first. What becomes of an item that
  arrives from a remote is told by the two histories and their documents alone (`Arrivals.Classified`): a genuine merge
  is made iff neither root is an ancestor of the other, there is one ancestor with a document on both sides, and no key
  is in conflict in either direction.
* **One head per id.** A draft is stored as the client wrote it and becomes the one head; an arrival leaves the head
  alone. A confirmation leaves one head iff it is refused, brings nothing new, or exactly one of the new items the loop takes is named by no other of
  them and the old head is named by one. Over every run from the start that condition, checked before each confirmation,
  is what one head per id amounts to (`LocalRuns.OneHeadOverRuns`). It holds by itself when each confirmation
  echoes the first waiting entry of its id, one without conflict whose history could be merged when it arrived
  (`LocalRuns.InOrderKeepsOneHead`): what queued entries are based on is kept through drafts, growing remote trees and
  other confirmations, with any number of remotes. If remotes also send parents first, agree with the local tree on
  ancestry and a version waits in one queue only, every arrival can be merged (`LocalOrder.OrderlyKeepsOneHead`).
* **Restart.** The queues are in memory only. A restart loses nothing that waits iff every item up to the one the
  slot of its remote is at is stored; over runs, iff confirmations come in the order of the remote's tree
  (`Restart.SafeThroughout`, `Restart.ConfirmedInOrder`).

Where the code does not do what is said of it, theorems say so and when it still does:

* the reported ancestors are not always the lowest ones (`Meet.MeetIsLowest`, `Meet.ReportsMoreThanLowest`);
* the loop that takes confirmed entries out of the queue (`lib/merge_tree.js:735-741`) steps over the entry after each
  one it removes; `Queue.LoopIsMeant` says for which queues it still does what its comment says;
* as a consequence, confirming a genuine merge stores the remote item without the merge and leaves two heads
  (`Queue.MergeIsMissed`, `LocalWrite.MergeLeavesTwoHeads`), against the comment at `lib/merge_tree.js:714`; so does
  confirming a fast-forward while a conflict waits before it (`LocalWrite.ForwardLeavesTwoHeads`,
  `LocalWrite.ForwardExample`), and confirming a conflict as it was queued (`LocalWrite.ConflictLeavesTwoHeads`);
* an item of a remote that is confirmed, or comes back as a repetition, before an earlier one makes a restart skip the
  earlier one (`Restart.RepeatSkips`, `Restart.ConfirmedInOrder`);
* two roots of one id in one batch are both stored, as the check at `lib/tree.js:1977-1996` compares an item with
  itself (`Log.TwoRootsAccepted`, `Log.RootsAfter`);
* a tailing reader whose stream is reopened before the last item handed over has been passed on emits items twice
  (`Tail.Again`, `Tail.HandsAgain`);
* a key that `_composeUsKey` makes cannot be parsed (`KeyBuffers.UsKeyMalformed`);
* the range of all data misses data keys composed for an id given as bytes that starts with 0xff, which no text does
  (`Keys.HighIdsMissed`); no caller asks for that range. The range of all heads is exact (`Keys.HeadKeyRangeExact`);
* the range of a prefix that runs past an id and into its versions can hold a head key that does not start with
  it (`HeadRange.PrefixRunsPast`); for prefixes of ids it is exact.

## Assumptions

* The two streams of a search have children before parents and agree on the ancestry of the versions they
  share (`Meet.Streams`). The search needs no more than that, in particular not every parent in the stream.
  `Stream.SuppliesSearch` proves the first for the streams of a tree, `Meet.SameGraphAgrees` the second for
  two parent-closed streams cut from one graph.
* A batch has its parents first, of the same id, and no new version twice (`Log.BatchFor`; `lib/tree.js:1845-1847`
  requires the order).
* Ids are the UTF-8 bytes of text without null characters (`Keys.TextId`): a head key is composed from the text of an id
  (`lib/tree.js:1676`), so an id given as other bytes would be filed under two different ids and not be found again from
  its head key (`lib/_stream_tree.js:201-203`). Insertion numbers fit `iSize` bytes, versions have `vSize` bytes (`Keys.Fits`).
* Filters and hooks are one function from items to optional items that keeps id, version, parents and
  perspective (`Export.Keeps`). Delivery on a connection is in order, with loss at a disconnect.
* For `LocalRuns.InOrderKeepsOneHead` and `LocalOrder.OrderlyKeepsOneHead` only: a version is made after its parents, in whichever tree it is first stored.
* Version numbers are given; generated ones are not known to either side yet.

## Model

| member | source | states |
|---|---|---|
| FindLcas.Side.Lr | lib/find_lcas.js:55-66 | whether a vertex is on the left, and on the right, of some live edge; the first answer is always exact, the second in every list in which edges into a vertex come before edges out of it, as the source assumes |
| FindLcas.Side.RemoveVertice | lib/find_lcas.js:186-228 | terminates, because a live edge is cleared before every recursive call; afterwards no live edge touches the vertex, both counters equal the live in- and out-edges, every live edge still continues back to the start and on to an end, and no edge on a path that avoids the reported vertices is lost; returns the number of edges removed |
| FindLcas.Side.Detach | lib/find_lcas.js:280-283 | removing a reported vertex and compacting turns the exact frontier for the reported set into the exact frontier for the set with that vertex |
| FindLcas.Search.ProcessNext | lib/find_lcas.js:260-319 | one item on one side: the invariant of a running search is kept for one more item, or the search is finished with the right set |
| FindLcas.Search.Report | lib/find_lcas.js:276-297 | a vertex reached from both roots is recorded with the items of both streams, detached on both sides, and ends the search iff a side has no live edge left; then the reported set is final |
| FindLcas.FindLCAs | lib/find_lcas.js:94-356 | for every interleaving of two topologically sorted streams that agree on ancestry, the reported versions are exactly the set `IsMeet`, none is an ancestor of a later one, and each comes with an item of either stream |
| Frontier.Included | lib/find_lcas.js:270-271 | the next item is right of a live edge, or the root, exactly when it can be reached from the root past the reported vertices |
| Frontier.OnLeft | lib/find_lcas.js:273-274 | a processed vertex is left of a live edge exactly when it lies on such a path |
| Meet.EarlyStop | lib/find_lcas.js:286-297 | stopping as soon as one edge list is empty loses nothing: the reported set is already the one for the complete streams |
| Meet.MeetUnique | lib/find_lcas.js:260-319 | there is only one set `IsMeet`, so what is reported does not depend on the interleaving |
| Meet.MeetIsCommon | lib/find_lcas.js:269-279 | every reported vertex is an ancestor of both roots, or a root itself |
| Meet.LowestReported | lib/find_lcas.js:269-279 | every lowest common ancestor is reported |
| Meet.LowestBelow | lib/find_lcas.js:269-279 | at or below every common ancestor lies a lowest one |
| Meet.MeetEmpty | lib/find_lcas.js:269-315 | nothing is reported iff the two roots have no common ancestor |
| Meet.FirstIsLowest | lib/find_lcas.js:277-277 | the vertex reported first is a lowest common ancestor |
| Meet.MeetIsLowest | lib/find_lcas.js:260-319 | the reported set is the set of lowest common ancestors iff every other common ancestor is cut off from one of the roots by the lowest ones |
| Meet.ReportsMoreThanLowest | lib/find_lcas.js:260-319 | two concrete graphs for which a common ancestor that is not lowest belongs to the reported set |
| Meet.SameGraphAgrees | lib/find_lcas.js:94-356 | two streams cut from one graph, each with all ancestors of its items, agree on ancestry |
| Bytes.WriteOrder | lib/tree.js:1617-1631 | big-endian numbers of one width compare as byte strings as they do as numbers |
| Keys.EncodeInjective | lib/tree.js:138-173 | no two keys share an encoding, whichever trees and types they belong to |
| Keys.IKeyOrder | lib/tree.js:1617-1631 | insertion-order keys compare as numbers |
| Keys.DsKeyOrder | lib/tree.js:1779-1803 | data keys of one id compare by insertion number |
| Keys.IdOrder | lib/tree.js:1675-1702 | data keys and head keys of different ids compare as the ids |
| Keys.IKeyRangeExact | lib/tree.js:344-401 | an insertion-order range holds exactly the insertion keys of its tree within the bounds, a bound of zero counting as none |
| Keys.IKeyRangeBounds | lib/tree.js:377-400 | the ends of the range are keys exactly at the bounds, so excluding a bound drops exactly that key |
| Keys.DsKeyRangeExact | lib/tree.js:529-602 | a data range with an id holds exactly the data keys of that id within the bounds; without one, exactly the data keys of its tree whose id does not start with byte 0xff |
| Keys.DsKeyRangeBounds | lib/tree.js:579-599 | with an id, excluding the lower bound drops the key there, but the upper end is no key, so excluding the upper bound drops nothing |
| Keys.HeadKeyRangeExact | lib/tree.js:484-514 | a head range with an id holds exactly the heads of that id; without one, exactly the heads of the tree, as no text starts with byte 0xff; its upper end is no key |
| Keys.HighIdsMissed | lib/tree.js:529-602 | so the range of all data misses every data key composed for a byte id that starts with 0xff |
| KeyBuffers.ParseKey | lib/tree.js:195-296 | moving an offset over the buffer finds the parts `Parse` defines, with the cases in which the source throws |
| KeyBuffers.ParseEncode | lib/tree.js:195-296 | parsing undoes the composition of every insertion-order, version, head and data key |
| KeyBuffers.EncodeParse | lib/tree.js:195-296 | what parses as such a key is the composition of what was parsed, for a head key if its id is text |
| KeyBuffers.UsKeyMalformed | lib/tree.js:278-292 | a composed slot key never parses, as the number that the parser expects was not written |
| KeyBuffers.HeadValRoundTrip | lib/tree.js:304-332 | parsing the value of a head gives back both flags and the number |
| KeyBuffers.IncrementKey | lib/tree.js:435-453 | the key plus one as a number of the same width, failing exactly when every byte is 0xff |
| HeadRange.RangeShape | lib/tree.js:435-453 | between a string and its increment lie exactly the strings it is a prefix of, and the pieces of the increment that end between the raised byte and the last |
| HeadRange.HeadPrefixRange | lib/tree.js:460-476 | the range of a prefix holds exactly the head keys of this tree that start with it, over the keys of all trees, iff it does not run past an id that is text: a null byte, then the version size with anything but a version of 0xff bytes behind it (or one less with such a version), then only 0xff bytes |
| HeadRange.IdPrefixRange | lib/tree.js:460-476 | for a prefix without null bytes the range holds exactly the head keys of this tree whose id starts with it, short keys included |
| HeadRange.PrefixRunsPast | lib/tree.js:460-476 | for every tree and id, a prefix whose range holds a head key that does not start with it: the id, a null byte, one less than the version size and 0xff bytes |
| HeadRange.GetHeadKeyPrefixRange | lib/tree.js:460-476 | the buffers filled for a prefix are that range; incrementing never fails on it |
| Log.NewestIsHead | lib/tree.js:1533-1540 | the newest item of an id has no children |
| Log.ReachesRoot | lib/tree.js:1878-2031 | every item reaches a root of its id, and if only first items are roots the id has no other |
| Log.AppendWF | lib/tree.js:1459-1568 | appending the new items of an acceptable batch, or of any prefix of it, keeps versions unique, numbers rising, and parents earlier and of the same id |
| Log.RootsAfter | lib/tree.js:1977-1996 | an accepted batch keeps one root per id iff it does not itself bring two new roots of one id |
| Log.TwoRootsAccepted | lib/tree.js:1977-1996 | two roots of one new id in one batch are both accepted, as a root is not checked against its batch |
| Store.Store.Scan | lib/_stream_tree.js:151-176 | the keys of a range in ascending order, each once |
| Index.FileItem | lib/tree.js:1524-1548 | storing the next item under its keys, after its parents are taken off the heads, keeps all indexes in step with the log |
| Index.ForeignAgrees | lib/tree.js:138-173 | writes of one tree leave every tree with another name as it was |
| Tree.Tree.NextI | lib/tree.js:1811-1834 | one more than the last number, also right after opening a store that has items |
| Tree.Tree.LastVersion | lib/tree.js:991-1025 | the version of the item inserted last |
| Tree.Tree.LastByPerspective | lib/tree.js:1039-1073 | the version in the slot of a perspective, or none |
| Tree.Tree.HeadVersions | lib/tree.js:611-650 | exactly the childless versions of an id, empty only if the id has no items |
| Tree.Tree.ValidNewItem | lib/tree.js:1859-2034 | the verdict on one item: a fault iff a version is known under another id, known iff stored for the id, valid iff it is new and connects to the tree or its batch; and which parents are missing |
| Tree.Tree.FilterItems | lib/tree.js:1466-1512 | the new items of a batch are kept in order and known items of other perspectives move their slot; it fails iff some item is neither acceptable |
| Tree.Tree.SaveAtomic | lib/tree.js:1459-1568 | all new items are stored, numbered in order, or none is; it succeeds iff every item is new and connects or repeats one of another perspective; the indexes stay in step and other trees untouched |
| Tree.Tree.Writev | lib/tree.js:1418-1457 | adjacent single items form one batch, an array its own; they are written in order up to the first that is refused |
| Tree.EmptyTree | lib/tree.js:74-127 | an empty store is in step with the empty log |
| Tree.IndexesLeadToItem | lib/tree.js:1524-1548 | version to data key to item, and number to head key, lead from every item back to it |
| Tree.HeadIndexExact | lib/tree.js:1533-1540 | the head index holds exactly the childless versions of an id, each with its flags and number |
| Tree.AllHeadsExact | lib/tree.js:684-700 | of all a store holds, for whatever tree, the range of all heads selects exactly the heads of its tree |
| Stream.ResolveVtoI | lib/tree.js:1319-1340 | the number of a version, found iff the version is stored |
| Stream.ReadStream | lib/_stream_tree.js:103-178 | a stream fails iff a bounding version is not stored and otherwise yields exactly the wanted part of the log; with a limit, the beginning of what it yields without one, as long as the limit or all there is |
| Stream.ScanIsWanted | lib/_stream_tree.js:103-178 | the keys in the range are the keys of the wanted items, in log order |
| Stream.WantedAre | lib/_stream_tree.js:103-178 | for all options, what is wanted is the items between the bounds that have the wanted id, each once, in log order or against it, cut off behind the limit |
| Stream.LimitIsPrefix | lib/_stream_tree.js:169-171 | the stream with a limit is the beginning of the stream with the same options and none, its length the smaller of the limit and the length of that; a limit of zero changes nothing |
| Stream.WantedIsSlice | lib/_stream_tree.js:103-178 | without an id it is the beginning, as far as the limit goes, of the contiguous slice of the log between the bounds, nothing if they are crossed, reversed if asked for |
| Stream.SuppliesSearch | lib/merge_tree.js:1161-1163 | the reversed stream of an id that ends at a version starts with it, is topologically sorted and has every parent of its items |
| Tail.TailReader.SetupReader | lib/tree.js:927-954 | reopening after the last item passed on; what was handed over and what the new stream yields are exactly what is wanted iff the last item handed over has been passed on by then; the reader is stuck for good iff the version asked for is unknown at the first opening |
| Tail.TailReader.Emit | lib/tree.js:958-964 | passing on the next item handed over remembers where to go on |
| Tail.TailReader.WritesKeepFollowing | lib/tree.js:909-980 | whatever is written in the meantime, and however long items wait to be passed on: as long as no reopening came too early, what was passed on is a prefix of what is wanted of the log, each item once and in order |
| Tail.Again | lib/tree.js:936-964 | a reopening goes on with exactly what is still wanted iff the last item handed over has been passed on by then |
| Tail.HandsAgain | lib/tree.js:936-964 | otherwise more items are handed over than are wanted, so some of them twice |
| Export.ConnectedAre | lib/merge_tree.js:382-425 | the recursion over parents terminates and finds exactly the passing vertices reachable through vertices that do not pass |
| Export.ParentsAreNearest | lib/merge_tree.js:382-425 | the parents an item is exported with are exactly its nearest passing ancestors |
| Export.ExportedAre | lib/merge_tree.js:427-465 | the whole export: for every passing item, in log order, the id, version, flags and document that filter and hooks made of it, without perspective and number, on its nearest passing ancestors, each named once |
| Export.ExportKeepsAncestry | lib/merge_tree.js:382-467 | of two passing items, one is an ancestor of the other in the export iff it is in the full graph |
| Export.ExportParent | lib/merge_tree.js:427-465 | the edges of the exported graph are exactly those between passing items and their nearest passing ancestors |
| Export.ExportGrows | lib/merge_tree.js:427-465 | what was exported does not change while the log grows |
| Export.ExportLinked | lib/merge_tree.js:427-465 | exported items have distinct versions, and their parents come earlier and have the same id |
| Export.ExportAccepted | lib/tree.js:1859-2034 | an empty receiving tree accepts the export item by item iff no id has two passing items of which the later descends from no passing item |
| Export.RootsPassAccepted | lib/tree.js:1859-2034 | it accepts it in particular when every root passes |
| Export.AcceptedWF | lib/tree.js:1459-1568 | what has been accepted is a well-formed log, each item appended to the one before |
| Handshake.Handshake.OnReadable | lib/remote_conn_handler.js:76-103 | a proper request is remembered as the offset to send from; anything else fails, with the reason, and writes nothing |
| Handshake.Handshake.OnLast | lib/remote_conn_handler.js:108-119 | asks for what comes after the last received version, or for everything |
| Handshake.Handshake.Completes | lib/remote_conn_handler.js:45-126 | once both events have happened without failure, in either order, it is complete: the peer's offset, exactly one request written, and not before the peer's on the side that waits; the state it calls unexpected does not occur |
| Handshake.Exchange | lib/remote_conn_handler.js:45-126 | for every mix of rules and both orders of the two events: it succeeds iff nothing is asked for or data is exported, and then exactly one request is written, for what comes after the last received version, for everything, or for nothing; otherwise it fails for that reason |
| Replication.AppendAdds | lib/tree.js:1459-1568 | an item that fits the log is added at its end, any other changes nothing |
| Replication.ConnectOpens | lib/remote_conn_handler.js:134-163 | after a connect the connection stands at the position from which on the log is what a reader passes on that starts behind the last version received; logs stay as they are |
| Replication.DisconnectCloses | lib/remote_conn_handler.js:151-158 | after a disconnect there is no connection, and logs stay as they are |
| Replication.StepKeepsInv | lib/remote_conn_handler.js:105-163 | append, connect, deliver and disconnect each keep the receiver in step with a prefix of the log of the sender, well formed and with one root per id |
| Replication.ReceiverIsPrefix | lib/remote_conn_handler.js:134-199 | over any run the receiver holds exactly what arrived from a prefix of the sender's log: no gap, no repetition, no reordering |
| Replication.ResumePoint | lib/merge_tree.js:812-830 | nothing arrives between the last received version and the point reached, so resuming behind it skips and repeats nothing |
| Replication.ReaderResumes | lib/remote_conn_handler.js:134-154 | a reader that starts after the last received version passes on exactly what comes after the resume point, and the sender always has that version |
| Replication.ImportedIsExported | lib/merge_tree.js:504-579 | without import rules the receiver holds exactly the export of that prefix |
| Replication.ReceiverHolds | lib/remote_conn_handler.js:134-199 | what the receiver holds: for each position up to the point reached, in order, what the export rules, the contraction of parents and the import rules make of the item there, or nothing where one of them drops it |
| Replication.DocumentsArrive | lib/remote_conn_handler.js:134-199 | without import rules, every item received has the flags and the document the rules of the sender gave it, and every item they pass is received |
| Replication.AcceptedIffWelcome | lib/tree.js:1859-2034 | with any export and import rules, an arriving item is accepted iff all its exported parents arrive too, and, if it has none, nothing of its id arrived before |
| Replication.Delivered | lib/remote_conn_handler.js:134-163 | a delivery moves on and stores what arrives iff the item is filtered out or welcome; otherwise it stores nothing and ends the connection |
| Replication.DeliversAll | lib/remote_conn_handler.js:134-163 | any number of deliveries on one connection reach that far, or the end of the log, iff everything on the way is welcome; else the connection ends |
| Replication.SyncedIsWelcome | lib/tree.js:1859-2034 | everything the receiver has got past was welcome |
| Replication.AllWelcome | lib/tree.js:1859-2034 | without import rules, every item is welcome iff no id has two entry points |
| Replication.Reconnects | lib/remote_conn_handler.js:134-163 | from every state of a run, a disconnect, a connect and enough deliveries end with all that is to arrive received iff all of it is welcome |
| Replication.CatchesUp | lib/remote_conn_handler.js:134-163 | after any run from an idle start, a new connection that stays up ends with all that is to arrive iff all of it is welcome, and, without import rules, with the whole export iff no id has two entry points |
| ThreeWay.Diff | lib/three_way_merge.js:67-105 | created, changed and removed keys of a document with respect to an ancestor |
| ThreeWay.ThreeWayMerge | lib/three_way_merge.js:33-143 | for any two documents and one or two ancestors: the conflicts are exactly the keys whose outcome is a conflict, and without any every key has its outcome |
| ThreeWay.OneAncestorIsDiff3 | lib/three_way_merge.js:57-142 | with one ancestor the outcome of a key is that of diff3: the changed side, equal changes, or a conflict |
| ThreeWay.OneResult | lib/three_way_merge.js:117-142 | whatever the order in which keys are visited, the merged document and the set of conflicting keys are the same |
| ThreeWay.ConflictsAreBothChanged | lib/three_way_merge.js:57-142 | with one ancestor exactly the keys changed on both sides to different values are in conflict |
| ThreeWay.MergeIdentities | lib/three_way_merge.js:57-142 | merging with an unchanged side gives the document of the other, and merging a document with itself gives the document |
| ThreeWay.MergeCommutes | lib/three_way_merge.js:57-142 | merging with one ancestor is commutative: one document, or the same keys in conflict |
| ThreeWay.AbsentFromB | lib/three_way_merge.js:57-142 | with two ancestors, a key in neither B nor its ancestor keeps the value of A and never conflicts |
| ThreeWay.AbsentFromA | lib/three_way_merge.js:57-142 | with two ancestors, a key in neither A nor its ancestor enters iff B created or changed it, and never conflicts |
| ThreeWay.ConflictsDiffer | lib/three_way_merge.js:107-114 | with two ancestors, a key conflicts although it would not with the sides swapped iff both documents and the ancestor of B agree on it and the ancestor of A lacks it |
| ThreeWay.OrderMatters | lib/three_way_merge.js:57-142 | with two ancestors, a key comes out differently with the sides swapped iff neither side changed it and they differ, or both have the value and one ancestor, equal to its side, knows it while the other lacks it |
| ThreeWay.SwappedMerges | lib/three_way_merge.js:57-142 | two conflict-free merges with the sides swapped give the same document iff no key differs unchanged on both sides |
| Merge.DoMerge | lib/merge.js:64-176 | each outcome exactly when: equal versions give back both items; if the ancestor is one of the two, the other is recreated unless keys are in conflict; otherwise it needs the ancestor to have a document, fails with exactly the keys in conflict in the first direction that has any, and else gives both sides a new item with both versions as parents, deleted iff both are, and the merge of the documents |
| Merge.MergeStreams | lib/merge.js:235-300 | with one ancestor the result is that merge of the two roots against it, and it is a fast-forward iff one root is an ancestor of the other, otherwise both results have the two roots as parents; no ancestor and several ancestors are told apart |
| Merge.SingleLcaIsRoot | lib/merge.js:235-300 | a single reported ancestor is a root iff that root is an ancestor of the other |
| Merge.OnlyTheRoot | lib/merge.js:235-300 | a root that is an ancestor of the other is all that is reported |
| Merge.ForwardTakesDocument | lib/merge.js:97-121 | a fast-forward of the item that is its own ancestor ends with exactly the other document |
| Heads.OnHead | lib/merge_tree.js:626-662 | one more item leaves one head per id iff its id is new or it names the head as a parent |
| Heads.HeadsAfter | lib/merge_tree.js:714-748 | a batch for one id leaves one head iff it brings nothing new, or exactly one new item is named by no other new item and the old head, if any, is named by one |
| Arrivals.FindTmpHead | lib/merge_tree.js:1041-1053 | the newest waiting item of an id |
| Arrivals.SortClassifies | lib/merge_tree.js:1165-1226 | when each outcome occurs, told by the two histories and their documents: Failed iff there is no single ancestor, or neither root is an ancestor and there is no document to merge against; Repeat or Forward iff a root is an ancestor of the other and no key is in conflict, or both are one version; Merged iff neither is and no key is in conflict in either direction; Conflicting otherwise; with the queued entries, their parents, the merged document and the keys in conflict |
| Arrivals.ConflictsHaveParted | lib/merge_tree.js:1170-1185 | as long as both trees hold the same documents, only histories of which neither root is an ancestor of the other are in conflict |
| Arrivals.QueuedForwards | lib/merge_tree.js:1208-1219 | the head of a queued fast-forward is an ancestor of the item in the remote tree, however far that has grown |
| LocalWrite.MergeTree.Arrive | lib/merge_tree.js:1104-1230 | an arrival never changes the local log and keeps one head; its outcome is exactly the one those histories and documents call for, and exactly that is queued; only an item that is stored already moves the slot of its perspective; the remote tree stays sound |
| LocalWrite.MergeTree.LocalHead | lib/merge_tree.js:751-772 | the head of the id, failing iff the id has more than one |
| LocalWrite.MergeTree.HandleNewLocalItem | lib/merge_tree.js:615-666 | unless it names parents or its version is known, a draft is stored at the end of the log: with the id, version, deletion flag and document the client wrote, on the head as its only parent, without conflict flag or perspective, numbered next; otherwise it is refused and nothing changes |
| LocalWrite.MergeTree.HandleMerge | lib/merge_tree.js:685-749 | a confirmation that neither was made for the current head nor names it as a parent is refused and changes nothing; otherwise exactly what the loop takes out is stored, or nothing |
| LocalWrite.MergeTree.WriteNew | lib/merge_tree.js:751-781 | the same for a draft written through the stream; once written it is the one head of its id |
| LocalWrite.MergeTree.WriteMerge | lib/merge_tree.js:685-781 | a confirmation is refused without any change if the head is neither the one it was made for nor named as a parent; otherwise what the loop takes is stored or nothing; and one head is left iff that batch goes on from the old head |
| LocalWrite.ConfirmedHeads | lib/merge_tree.js:714-748 | for every confirmation, and every queue from which the loop takes a proper batch: one head is left iff it is refused or throws, brings nothing new, or exactly one new item the loop takes is named by no other and the old head, if any, by one of them |
| LocalWrite.SafeQueueHeads | lib/merge_tree.js:714-748 | in a queue on which the loop is safe, that is a condition on the waiting items of the id up to the confirmed one, and just these leave the queue |
| LocalWrite.ForwardNamesHead | lib/merge_tree.js:690-706 | a fast-forward of the local head whose parents are all stored locally names the head among them, if versions are made after their parents |
| LocalWrite.SortedQueueIsBatched | lib/merge_tree.js:714-748 | what the loop takes from a queue that is itself in order is a proper batch |
| LocalWrite.ForwardLeavesTwoHeads | lib/merge_tree.js:700-741 | a fast-forward confirmed while an entry that does not name the head, such as a conflict with it, waits before it: the guard passes because the confirmed one names the head, the loop writes the other next to the head and steps over the confirmed one |
| LocalWrite.ConflictLeavesTwoHeads | lib/merge_tree.js:714-748 | confirming an entry made for the head whose item does not name it, as a conflict is queued, leaves two heads |
| LocalWrite.ForwardExample | lib/merge_tree.js:700-741 | a concrete log, queue and confirmation for which that happens: a conflict that the remote has resolved since |
| LocalWrite.MergeLeavesTwoHeads | lib/merge_tree.js:714-748 | confirming a genuine merge with another id behind it stores only the remote item and leaves the merge in the queue, so that one head remains iff the remote item is a child of the local head |
| LocalRuns.DraftIsStep | lib/merge_tree.js:615-667 | whatever a draft does to the local tree is a step of the runs below |
| LocalRuns.ArrivalIsStep | lib/merge_tree.js:1104-1230 | so is every arrival whose histories the search can take: the log stays and what it queues is added to the queue of its remote |
| LocalRuns.ConfirmIsStep | lib/merge_tree.js:685-749 | so is every confirmation of a proper batch |
| LocalRuns.StepKeepsHead | lib/merge_tree.js:615-781 | every draft, arrival, confirmation and growth of a remote tree keeps the logs well formed and the queues proper, and leaves one head iff, for a confirmation, the condition above holds |
| LocalRuns.OneHeadOverRuns | lib/merge_tree.js:600-781 | over every run from the start, with any number of remotes: there is one head per id all along iff every confirmation met that condition when it was made |
| LocalRuns.InOrderKeepsOneHead | lib/merge_tree.js:600-781 | over every run in which versions are made after their parents and each confirmation echoes the first waiting entry of its id, one without conflict that was queued when its history could be merged, there is one head per id all along |
| LocalRuns.StepKeeps | lib/merge_tree.js:1130-1226 | every step keeps what the queued entries of every remote are based on: no head, a parent of the item, an ancestor of it in the remote tree, or the item is stored by now |
| LocalRuns.InOrderIsBatched | lib/merge_tree.js:733-748 | the batch of such a confirmation is always a proper one |
| LocalRuns.StaleIsRefused | lib/merge_tree.js:690-706 | a confirmation made for another head, whose item does not name the head, changes neither tree nor queues |
| LocalRuns.RepeatIsStored | lib/merge_tree.js:1221-1225 | whatever the ancestor search reports, an item taken for stored already is stored, so noting it adds nothing |
| LocalOrder.InLineCanMerge | lib/merge_tree.js:1144-1165 | an arrival at a queue in which what waits of the id is new, each version once and behind its parents can be merged if the trees agree on ancestry |
| LocalOrder.KnownCanMerge | lib/merge_tree.js:1144-1165 | in a run they agree, and it can be merged, if no filter has changed the parents of what the local side has of the id; with nothing waiting the queue is in line by itself |
| LocalOrder.FilteredAgrees | lib/merge_tree.js:382-467 | they also agree if the remote tree is the filtered export of a graph of which the local side tells the parents |
| LocalOrder.StepStaysInLine | lib/merge_tree.js:615-781 | drafts, arrivals that bring parents first, and confirmations of first waiting entries keep every queue in line, and every arrival mergeable |
| LocalOrder.FirstIsWritten | lib/merge_tree.js:685-748 | a confirmation of the first waiting entry of its id that fits the head is never refused by such a tree |
| LocalOrder.OrderlyKeepsOneHead | lib/merge_tree.js:600-781 | over every run of such steps there is one head per id all along, and no entry is ever queued on an unknown base |
| Restart.RestartReads | lib/merge_tree.js:884-905 | a merge that is started again reads a remote tree exactly from behind the slot of the remote |
| Restart.SetupMerge | lib/merge_tree.js:884-905 | a reader set up from the slot in the local tree is to pass on exactly what the remote tree has behind that version, or all of it |
| Restart.SlotMoves | lib/tree.js:1541-1544 | an accepted batch leaves the slot at its last new item of the remote, or else at the last one known before, or where it was |
| Restart.SafeThroughout | lib/merge_tree.js:884-905 | over every run of batches, a restart would lose no unstored item at any time iff it would not at the start and each batch that moves the slot comes when all items before its mark are stored, or with them |
| Restart.ConfirmedInOrder | lib/merge_tree.js:884-905 | if items of a remote are confirmed one by one, a restart loses nothing at any time iff they are confirmed in the order of the remote tree, from the first on and without a gap |
| Restart.RepeatSkips | lib/merge_tree.js:1221-1225 | noting an item that came back moves the slot past items that still wait, and a restart loses those |
| Queue.TakeConfirmed | lib/merge_tree.js:733-741 | the loop as written, its index moving on after every removal, computes `Loop`, including where it reads past the end |
| Queue.LoopIsMeant | lib/merge_tree.js:733-741 | it takes out all entries of the id up to the confirmed one and no other iff no two of them are neighbours and the rounds left over meet none |
| Queue.FirstOfId | lib/merge_tree.js:733-741 | if nothing of the id waits before the confirmed entry, exactly that entry is taken |
| Queue.NeighboursGoWrong | lib/merge_tree.js:733-741 | with three neighbours of one id and the second confirmed, the first and the third are taken |
| Queue.MergeIsMissed | lib/merge_tree.js:733-741 | a genuine merge and its remote item at the front of the queue: the loop never takes the merge, and throws if nothing follows |

## Left out

- Tree.Tree.SaveAtomic: does not model the shape checks of headers before a write (`lib/invalid_header.js`), the `m` field of an item, or the hash of an item; versions are given. A batch that holds a new version twice, or a new item before its parents or with a parent of another id in the same batch, is not covered: the source requires that order and checks neither of the others.
- Tree.Tree.Writev: the same holds for each of the batches it forms.
- KeyBuffers.ParseKey: reads past the end of a buffer are a separate outcome; the source reads `undefined` there and goes on.
- KeyBuffers.ComposeIKey: stated for sizes of one to 254 bytes; the source allows at most six, for which its numbers are exact.
- Stream.ReadStream: BSON output and the filters of `createHeadReadStream` are not modelled; excluding the last version together with an id is modelled as the code behaves, that is, without effect.
- Tail.TailReader.SetupReader: timers are events; how long a reader waits is not modelled. The retry announced at `lib/tree.js:945` after an unknown version never happens, as nothing schedules it; the model stays stuck like the code.
- Merge.MergeStreams: with several reported ancestors only that outcome is stated; the recursive virtual ancestor (`lib/merge.js:251-287`) re-uses a placeholder version and reopens streams that cannot be reopened.
- LocalWrite.MergeTree.Arrive: likewise nothing is queued when several ancestors are reported; the two parents of a genuine merge are kept in the order remote, local, where the source sorts their text form; the version of a merge is given instead of hashed.
- LocalWrite.MergeTree.Arrive: what is queued is stated when the two histories are ones the ancestor search can take. They are not when the queue holds an item that is stored by now, as after another remote delivered it too, or holds one twice, as after an item queued as a parent of a waiting merge has arrived itself. In `LocalRuns` such an arrival may queue whatever any merge result leads to.
- LocalWrite.MergeTree.HandleMerge: the entries the loop takes have to be a proper batch, parents first and no new version twice; moving the meta field of a confirmation to the new head is not modelled.
- LocalWrite.MergeTree.WriteMerge: likewise for a proper batch; `LocalWrite.SortedQueueIsBatched` and `LocalRuns.InOrderIsBatched` say when it is one.
- LocalWrite.ConfirmedHeads: likewise for a proper batch.
- LocalWrite.SafeQueueHeads: likewise for a proper batch.
- LocalRuns.OneHeadOverRuns: a confirmation whose entries are not a proper batch ends the run; a remote's items may come in any order.
- LocalRuns.InOrderKeepsOneHead: says nothing of entries that were queued while the two histories could not be merged, or while the item already waited; `LocalRuns.OneHeadOverRuns` has the condition for those, and `LocalOrder.OrderlyKeepsOneHead` the runs without them.
- LocalOrder.OrderlyKeepsOneHead: that the trees agree on ancestry is asked at each arrival; `LocalOrder.KnownCanMerge` and `LocalOrder.FilteredAgrees` say when they do, and two remotes that each drop other items can disagree.
- Restart.SafeThroughout: about batches that are written; a refused batch can move slots as well, for the known items it starts with.
- Export.ConnectedParents: the parents found are kept in the order of discovery; the source takes the keys of an object, whose order can differ for version texts that look like integers.
- FindLcas.Side.RemoveVertice: the counters of a vertex without parents, which the source turns into NaN under the key "null", play no part in any decision and are left unconstrained.
- FindLcas.FindLCAs: streams are finite sequences served in any order; roots passed as options, errors of a stream and the pausing of a stream that is no longer read are not modelled.
- Handshake.Handshake.OnReadable: framing, size limits and pushing unread data back to the connection are not modelled.
- Replication.StepKeepsInv: a batch that the receiver groups in one write is delivered item by item, and a refused item ends the connection.
- The stage tree, `Tree.del`, `setConflictByVersion` and `skipValidation`, which are documented to leave the indexes inconsistent or are deprecated.
- Conflict resolution through the browser, the MongoDB adapter, process and connection management, authentication, logging and file layout.
- Equality of documents is equality of abstract values; deep equality of nested values is not modelled.
- `binsearch`, `intersect`, `diff`, `compare` and the request validators are not modelled.
