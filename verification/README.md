# RPM: ordering, headers, rich dependencies, payloads and installs

This project models six parts of the RPM library in Dafny and proves what they promise. The modules follow the
source files; objects that the C++ code updates in place are classes, loops are loops with invariants, and every
such method is tied to a specification about which the main theorems speak.

**Transaction ordering** (`lib/order.cc`, modules `Order*`). Elements are numbered as in the vector `sortInfo`, and
`OrderState.Tsort` holds their counters, relation lists and queue links. `OrderRelations` records relations,
`OrderSccSpec` and `OrderTarjan` find the dependency loops with Tarjan's algorithm on negative indices, `OrderQueue`
has the intrusive queue, `OrderDijkstra` the distances inside a loop, `OrderCollectSpec`, `OrderCollect` and
`OrderRun` the collection over outer and inner queues, and `OrderLoops` says where loops are broken. The theorem is the contract of `OrderTransaction.RpmtsOrder`:
for all sequences of same-type dependencies, cyclic or not, the new order is a permutation, restored elements come
before installs and installs before erases, what is required comes first unless both are in one loop, every loop is
one contiguous block, and inside a loop comes next what requires nothing open or else what is farthest from a
prerequirement. `OrderDeclared` says what that means for the dependencies themselves, of which some get lost.

**Rich dependencies** (`lib/rpmds.cc`, `lib/depends.cc`, `lib/rpmdb.cc`, modules `Rich*`). Trees are what the parser
reads from the text, n-ary chains as they stand. `RichSplit` rebuilds the text of the right half of a chain,
`RichEval` evaluates the halves recursively as `unsatisfiedDepend` does, and `RichMeaning` proves that this is the
truth value of the tree. `RichPrint` writes formulas as text: every legal one is read back as what it is. `RichIndex` is the index generator; its polarity is proved sound for whole transactions, and
`RichExact` says exactly when.

**Header blobs** (`lib/header.cc`, modules `Header*`). The layout is the one of the "Package File Format" section of
the Linux Standard Base Core specification. Blobs are byte arrays that are swapped in place when loaded. The theorems:
what every accepted blob looks like (`HeaderBlob`, `HeaderAccept`), what loading adds to that, that the immutable region survives all changes byte for
byte, that region-less headers make a round trip, and that `headerSizeof` is the length of what is exported.
`HeaderForced` says exactly when the offsets of a loaded blob are determined.

**Payload archives** (`lib/cpio.cc`, `lib/rpmfi.cc`, modules `Cpio*`, `Payload*`). The archive is in the new ASCII
format of cpio(5). Writer and reader are proved against the byte image of a list of members, and the iterators over
hardlink sets and the search for a file by its name in the archive on top of that. `CpioHeader` and `PayloadHeaders`
say what stands in the headers, byte by byte.

**File installs** (`lib/fsm.cc`, modules `Fsm*`). The file system is a map from names to inodes, names are strings to
which suffixes are appended, every call may fail, and atomicity is stated for the whole of `rpmPackageFilesInstall`.
`FsmNames` has the names and the effect of a run of commits as a function, `FsmCommit` what such a run leaves,
`FsmLinks` which files are links to one another, `FsmInstall` the code.

**Verification, package index, fingerprints** (`lib/rpmvs.cc`, `lib/rpmal.cc`, `lib/fprint.cc`, modules `VsVerify`,
`AlIndex`, `FpCache`). Loops over mutable tables, each proved equal to a declarative answer.

Code outside of these files is a parameter: version comparison is a relation, `stat` a partial function, the string
pool is equality of strings, the verdicts of signature and digest checks are given with each entry, and file system
calls are methods that may fail. `Common` holds what all modules share: options, bytes, slices and sorting.

## What the code does differently

- A reversed relation is looked for in the lists of the wrong element: `addSingleRelation` compares with the front of
  `tsi_q->tsi_forward_relations`, an entry "q requires p", where it records "p requires q". A relation can be lost that
  way (`OrderRelations.ReversedMergeLosesRelation`); `OrderRelations.AddRecorded` says exactly when. `RpmtsOrder` is
  therefore stated for recorded relations. The commonest case are two erased packages that require each other: the
  second requirement is lost even if only it is for a scriptlet, and the order is always that of the first
  (`OrderDeclared.ErasedPairForced`). Nothing worse happens: a dependency is respected, or inside a loop, or lost to its
  opposite (`OrderDeclared.DeclaredOrder`).
- A region entry with an offset between -16 and -1 passes the range check, which adds 16 in unsigned 64-bit
  arithmetic; its trailer then lies in the index (`HeaderBlob.NegativeRegionOffset`). All entries are clear of the
  trailer in the data area if and only if the offset is not negative (`HeaderBlob.AcceptedLayout`).
- Offsets of a loaded exact-size blob need not be the aligned running sums: an entry may lie late if the alignment of
  a later one takes the gap up (`HeaderGaps.HiddenGap`). The total of the gaps always equals the alignment padding,
  and the offsets are forced if and only if that padding is zero (`HeaderForced.ForcedBlobs`).
- A bare `(A else B)` leaves the index generator with its polarity flipped (`RichIndex.BareElseFlips`), so the index
  theorems are about dependencies where else follows if or unless.
- `rpmlib(` names are never indexed, but only for requires are they kept apart from what packages provide. A conflict
  "(rpmlib(x) or y)" is filed under y only, and a new package that provides rpmlib(x) is a conflict nobody looks at
  (`RichExact.ConflictMissed`). The index of other tags than requires is sound for every dependency that is not exposed,
  that is, where no `rpmlib(` name decides a part of the formula on its own; below with it takes one for every argument
  (`RichIndex.ConflictsIndexSound`). If no name occurs twice the index is sound exactly then (`RichExact.IndexExactly`).
  With repeated names a formula can cancel an exposed part out (`RichExact.RepeatedNameHides`), and finding that out is
  as hard as deciding whether two formulas are equivalent.
- A packaged name can be another packaged name with ".rpmsave", ".rpmorig" or ".rpmnew" appended. With "foo" to be saved
  and a packaged "foo.rpmsave" the saved file is overwritten by the next commit (`FsmCommit.SavedFileLost`), with ".rpmnew"
  a committed file is replaced (`FsmCommit.CommittedFileReplaced`), and the installation succeeds. It leaves everything in
  place if and only if no two files clash like that, but for one harmless case: a file saved under a name that it already
  has as a hard link and that its own package leaves alone (`FsmCommit.PlacedExactly`).
- The filter for `config()` provides in `rpmalAddProvides` is a bitwise `&` of two different bits and never applies
  (`AlIndex.ConfigNotSkipped`).

## Model

| member | source | states |
|---|---|---|
| `OrderTransaction.RpmtsOrder` | lib/order.cc:525-634 | For every list of dependencies among elements of one type: the new order is a permutation of the elements (the size assertion never fires), restored before installs before erases, every recorded requirement outside a loop comes first, elements that reach each other form one contiguous block, and each element of such a block has all its requirements before it, or else no remaining member has and it is the farthest of them from a prerequirer, over the recorded relations and flags. |
| `OrderTransaction.Finished` | lib/order.cc:576-626 | Restored elements followed by two runs that each respect the open requirements and keep components together make up such an order. |
| `OrderTransaction.Permutes` | lib/order.cc:624-626 | Restored elements and collected ones, each without repetition, are together all elements, each once. |
| `OrderTransaction.RequiredFirst` | lib/order.cc:584-626 | A recorded requirement whose ends do not reach each other puts the required element earlier. |
| `OrderTransaction.LoopsTogether` | lib/order.cc:584-626 | Nothing foreign stands between two elements that reach each other. |
| `OrderTransaction.PhasesUp` | lib/order.cc:576-586 | No install stands after an erase and no restored element after either. |
| `OrderLoops.FirstFarthest` | lib/order.cc:496-519 | The first element of a loop in the order has the largest distance of all its members, counted in forward relations inside the loop from a member that prerequires another, `INT_MAX` if there is no walk. |
| `OrderLoops.BrokenLoops` | lib/order.cc:488-519 | Loops as the algorithm numbers them and loops as mutual reachability are broken in the same places. |
| `OrderTransaction.CollectRestored` | lib/order.cc:576-582 | Exactly the restored elements, each once. |
| `OrderTransaction.RecordAll` | lib/order.cc:546-567 | After all dependencies the lists are the fold of single additions, mirrored and counted, and join elements of one type only. |
| `OrderTransaction.LinkedCounted` | lib/order.cc:139-147 | Mirrored lists make `tsi_count` the number of entries for an element in the whole graph, which is what Tarjan and the collection rely on. |
| `OrderRelations.AddSingleRelation` | lib/order.cc:54-150 | Dropped, merged or recorded as the types, flags and fronts of the lists say; both directions keep the same entries with the same flag sequences and the counters the list lengths, so neither `assert(0)` is reachable. |
| `OrderRelations.AddForward` | lib/order.cc:107-121 | A repeated requirement ORs its flags into both entries, any other is recorded; the lists stay mirrored. |
| `OrderRelations.AddReversed` | lib/order.cc:123-137 | The same for the reversed direction, whose test looks at the opposite relation. |
| `OrderRelations.Record` | lib/order.cc:139-147 | One entry more at the front of both lists, both counters one up, lists still mirrored. |
| `OrderRelations.PushLinked` | lib/order.cc:139-147 | Pushing a pair of entries keeps multiplicities and flag sequences of both directions equal. |
| `OrderRelations.MergeLinked` | lib/order.cc:107-137 | ORing flags into the first entry of both directions keeps them equal and changes no relation. |
| `OrderRelations.AddRecorded` | lib/order.cc:107-147 | After a request the relation is recorded if and only if it was before or nothing was merged; a forward merge happens only for a relation already recorded, a reversed one only for its opposite. |
| `OrderRelations.FlagsKept` | lib/order.cc:67-98 | Which scriptlet flags a relation keeps: those of installing or of erasing, %pre or %preun for an old style prerequisite, none for weak dependencies except ordering hints. |
| `OrderRelations.ReversedMergeLosesRelation` | lib/order.cc:123-137 | Two requests between two installs after which the second requirement is not recorded. |
| `OrderDeclared.AllKept` | lib/order.cc:107-147 | After any requests each one that counts is recorded, or on the reversed path only its opposite is. |
| `OrderDeclared.DeclaredOrder` | lib/order.cc:546-626 | In the new order every dependency is respected, or inside a loop, or it was lost to its opposite and the order is the other way round. |
| `OrderDeclared.ErasedPairForced` | lib/order.cc:68-137 | Of two erased packages that require each other the first is always erased first, though the second needs it for a scriptlet. |
| `OrderDeclared.NeededForPreFirst` | lib/order.cc:423-519 | Of two installs that require each other, the first for its %pre, the second always comes first. |
| `OrderSccSpec.Push` | lib/order.cc:267-273 | Numbering an untouched element and pushing it establishes the invariant of the relation loop. |
| `OrderSccSpec.StepFound` | lib/order.cc:277-279 | Skipping a relation into a found component keeps the invariant. |
| `OrderSccSpec.StepStack` | lib/order.cc:287-291 | Raising the low link to the index of an element on the stack keeps it. |
| `OrderSccSpec.StepEnter` | lib/order.cc:280-282 | Recursing into an untouched element is allowed: all open elements reach it. |
| `OrderSccSpec.StepLeave` | lib/order.cc:283-286 | Raising the low link to that of the finished recursion keeps the invariant. |
| `OrderSccSpec.Blacken` | lib/order.cc:294-295 | An element whose low link differs from its index stays on the stack and still reaches an open element below. |
| `OrderSccSpec.SegmentReaches` | lib/order.cc:294-306 | Every element above a root on the stack reaches the root and is reached by it. |
| `OrderSccSpec.SegmentApart` | lib/order.cc:294-306 | No element above a root and element below it reach each other. |
| `OrderSccSpec.PopExact` | lib/order.cc:294-306 | Numbering the part of the stack from the root up gives equal numbers to exactly the elements that reach each other. |
| `OrderSccSpec.Pop` | lib/order.cc:294-327 | Taking that part off the stack restores the search invariant for the caller. |
| `OrderTarjan.NumberMembers` | lib/order.cc:302-306 | The stack from the top down to the root gets the component's number, nothing else changes. |
| `OrderTarjan.CountInternal` | lib/order.cc:313-318 | The number of relation entries of a member that stay in the component. |
| `OrderTarjan.CountMembers` | lib/order.cc:308-319 | `count` becomes the number of entries that enter the component from outside. |
| `OrderTarjan.CloseScc` | lib/order.cc:302-325 | The component is numbered, counted and listed, the stack is cut at its root, and all earlier components stay right. |
| `OrderTarjan.Tarjan` | lib/order.cc:263-328 | From an untouched element: everything newly visited ends in its exact component or above the caller's stack with its low link justified; the component table stays right. |
| `OrderTarjan.DetectSCCs` | lib/order.cc:331-341 | Two different elements share an index of at least 2 if and only if they reach each other; every count is the number of entries from outside, every member list exact, and the numbers stay below the size of the array. |
| `OrderQueue.AddQ` | lib/order.cc:211-255 | The chain gains the element at the first place where the colour and `tsi_qcnt` rule stops, other links stay, and only its queued mark is set. |
| `OrderQueue.ChainInsert` | lib/order.cc:245-254 | The one or two link updates insert at the head, in the middle or at the tail of the chain. |
| `OrderQueue.QueueRule` | lib/order.cc:228-243 | A queue of one colour stays sorted by falling `tsi_qcnt`; otherwise an element goes behind all that have more waiting for them, or first among its colour where that colour has to wait. |
| `OrderDijkstra.Seed` | lib/order.cc:433-444 | A member that prerequires another member starts at 0 and is queued, one that prerequires none at `INT_MAX`. |
| `OrderDijkstra.SeedAll` | lib/order.cc:432-445 | After the loop exactly the prerequiring members are labelled 0 and queued. |
| `OrderDijkstra.Relax` | lib/order.cc:456-467 | One element off the queue: labels remain lengths of real walks, every relation of an unqueued member is settled, and the sum of the labels or the queue shrinks, so the search ends and the `+ 1` cannot overflow. |
| `OrderDijkstra.Shortest` | lib/order.cc:455-467 | With an empty queue no walk from a prerequiring member is shorter than the label at its end. |
| `OrderDijkstra.Dijkstra` | lib/order.cc:423-468 | Every label of the component is the least number of forward relations inside it from a prerequiring member, or `INT_MAX` if there is no such walk; other elements keep theirs. |
| `OrderDijkstra.LabelIs` | lib/order.cc:423-468 | Exact labels are the distances of the members. |
| `OrderDijkstra.FarLeast` | lib/order.cc:423-468 | A distance is the length of a shortest walk, or `INT_MAX` if there is none shorter. |
| `OrderCollectSpec.CountFree` | lib/order.cc:388-396 | The counter of an uncollected element is 0 if and only if all it requires is collected. |
| `OrderCollectSpec.BrokenPush` | lib/order.cc:367-421 | Appending an element that may come next in its loop keeps all loops broken rightly. |
| `OrderCollect.OrderPush` | lib/order.cc:367-421 | Appending an element whose outside requirements are all collected keeps the order right. |
| `OrderCollect.CollectTE` | lib/order.cc:367-421 | One element is appended and marked collected; counters equal what is still uncollected, and the queues hold exactly the elements and components that became free; loops stay broken rightly. |
| `OrderCollect.CollectRound` | lib/order.cc:509-518 | The round starts with the member it is given; after it only members of the component follow that have become free, and the outer queue stays right. |
| `OrderCollect.SelectBest` | lib/order.cc:496-506 | An uncollected member with the largest label, or none if all are collected. |
| `OrderCollect.BestFarthest` | lib/order.cc:496-506 | The uncollected member with the largest label is the one with the largest distance. |
| `OrderCollect.NextBest` | lib/order.cc:490-519 | When a round starts no member of the loop is free, so the farthest may come next. |
| `OrderCollect.NextInner` | lib/order.cc:509-518 | The head of the inner queue requires nothing that is not collected. |
| `OrderCollect.CollectMembers` | lib/order.cc:490-519 | Rounds go on until every member is collected, as one block, each starting with the farthest member left. |
| `OrderCollect.CollectSCC` | lib/order.cc:470-523 | A free component is appended whole and contiguously in the order that its distances and relations demand, and the outer queue continues behind it. |
| `OrderRun.ScanZeroes` | lib/order.cc:588-596 | The queue holds exactly the elements of the type without requirements. |
| `OrderRun.ScanComponents` | lib/order.cc:598-604 | Together with one member of each component nothing outside is required by, the queue stands for everything free. |
| `OrderRun.RunHead` | lib/order.cc:606-616 | Working off the head appends its element or component as a block and leaves a right queue. |
| `OrderRun.AllCollected` | lib/order.cc:606-617 | With an empty queue nothing of the type is left, since components cannot wait for each other in a circle. |
| `OrderRun.RunType` | lib/order.cc:584-617 | A run collects all elements of its type and no other, in an order that respects requirements, keeps components together and breaks loops rightly. |
| `RichLocal.NodeLocal` | lib/rpmds.cc:1309-1397 | The same text parses to the same tree wherever it stands. |
| `RichLocal.LoopTail` | lib/rpmds.cc:1336-1390 | A chain continued at another place with its first arguments left off gives the same arguments and operators without those. |
| `RichTree.NodeGood` | lib/rpmds.cc:1287-1397 | In every accepted dependency all nodes re-parse from their own text, operators combine only as the grammar allows, and below with and without only with, without and or occur. |
| `RichTree.Rebuild` | lib/rpmds.cc:1437-1480 | The rebuilt text "(B op C ...)" is shorter, is accepted whole, and parses to the node without its first argument and operator. |
| `RichPrint.WordLetters` | lib/rpmds.cc:1179-1216 | Each operator is read from its own word and no word is taken for a comparison. |
| `RichPrint.CompareSpellings` | lib/rpmds.cc:1150-1178 | All eight spellings of the five comparisons. |
| `RichPrint.NodePrints` | lib/rpmds.cc:1242-1397 | Wherever the text of a legal formula stands, the parser reads that formula there: arguments, operators, names, comparisons, versions and the end. |
| `RichPrint.ReadBack` | lib/rpmds.cc:1309-1397 | Every formula whose operators chain legally reads back from its own text. |
| `RichSplit.ParseInternal` | lib/rpmds.cc:1309-1397 | The recursive descent with callbacks reads the tree, and the callbacks are the enter, simple, operator and leave events of that tree in order. |
| `RichSplit.SplitData.Callback` | lib/rpmds.cc:1437-1480 | One event updates depth, halves, operator and chain position as the pure step says. |
| `RichSplit.SplitNode` | lib/rpmds.cc:1437-1507 | Splitting the text of an accepted node gives its first argument, its first operator and the argument or rebuilt chain to the right. |
| `RichSplit.ParseRichDep` | lib/rpmds.cc:1483-1507 | The callback object run over any text ends with the specified halves, or fails. |
| `RichEval.HalvesShort` | lib/depends.cc:735-794 | Both halves exist whenever they are used and are shorter than the whole, so evaluation ends on all texts. |
| `RichMeaning.SetMeaning` | lib/depends.cc:590-633 | For trees of with, without and or the set is the one the tree picks: unions, intersections and differences of the providers of its leaves; the unsupported branch is never taken. |
| `RichMeaning.WithMeaning` | lib/depends.cc:748-757 | Every accepted node with with or without at its top is such a tree. |
| `RichMeaning.Meaning` | lib/depends.cc:735-794 | Evaluation by splitting gives the truth value of the n-ary tree, for every context a dependency can stand in. |
| `RichMeaning.EvaluationMeaning` | lib/depends.cc:700-794 | For every accepted dependency where else follows if or unless, `unsatisfiedDepend` gives the truth value of the parsed formula. |
| `RichPrint.WrittenMeaning` | lib/depends.cc:700-794 | A written formula is satisfied if and only if it holds, each operator having its own meaning. |
| `RichIndex.NoteTree` | lib/rpmdb.cc:1981-2023 | The callbacks of a tree append exactly its keys with their polarity and leave polarity and levels as they were. |
| `RichIndex.IndexData.Callback` | lib/rpmdb.cc:1981-2023 | One event changes keys, polarity and level as the pure step says. |
| `RichIndex.IndexData.CopyInverted` | lib/rpmdb.cc:1981-2023 | The keys of the condition are appended once more with "!" toggled. |
| `RichIndex.UpdateRichDep` | lib/rpmdb.cc:2025-2054 | For every text the keys written are those the callbacks collected, none if it does not parse; where else follows if or unless they are the keys of the parsed formula. |
| `RichIndex.BareElseFlips` | lib/rpmdb.cc:1981-2023 | For a bare else the left keys are doubled and the polarity comes out flipped. |
| `RichIndex.LeafSound` | lib/depends.cc:1086-1126 | A leaf that was satisfied stays so unless a package providing its name is removed; one with an `rpmlib(` name only for requires. |
| `RichIndex.SetSound` | lib/depends.cc:590-633 | The picked set only grows if no removed package provides a positive key and no added one a negative key, and only shrinks the other way round, unless `rpmlib(` names alone can match. |
| `RichIndex.TreeSound` | lib/rpmdb.cc:1981-2023 | The same for the truth value of every tree that is not exposed, through nested conditions, else branches and sets. |
| `RichIndex.RequiresIndexSound` | lib/depends.cc:1086-1126 | If no removed package provides a key and no added package provides a "!" key, a satisfied requirement is still satisfied after the transaction, whatever names it has. |
| `RichIndex.ConflictsIndexSound` | lib/depends.cc:1086-1126 | The dual for conflicts that are not exposed: if no added package provides a key and no removed one a "!" key, no new conflict arises. |
| `RichExact.NeverMissed` | lib/rpmdb.cc:1981-2023 | For requires, and for every dependency that is not exposed, no change that the keys pass over matters. |
| `RichExact.Flipping` | lib/rpmdb.cc:1981-2023 | For an exposed dependency there are packages with which one more or less that provides nothing but `rpmlib(` names changes the truth value. |
| `RichExact.Missed` | lib/rpmdb.cc:1981-2023 | Such a package comes or goes unnoticed, and a conflict arises. |
| `RichExact.IndexExactly` | lib/rpmdb.cc:1981-2023 | For dependencies that name everything once, the index is sound if and only if they are requirements, or about the time before the transaction, or not exposed. |
| `RichExact.RepeatedNameHides` | lib/rpmdb.cc:1981-2023 | An exposed dependency with a repeated name whose index is sound all the same. |
| `RichExact.ConflictMissed` | lib/rpmdb.cc:1981-2023 | The text "(rpmlib(x) or y)" is filed under y only; a package providing rpmlib(x) makes the conflict true without touching a key. |
| `HeaderBytes.Be32OfU32` | lib/header.cc:180-186 | Bytes read as a big-endian number and written again are the same bytes. |
| `HeaderBytes.InfoOfBytes` | lib/header.cc:180-186 | An index entry reads back from its 16 bytes. |
| `HeaderBytes.BytesOfInfo` | lib/header.cc:180-186 | 16 bytes come back from the entry they are read as. |
| `HeaderBytes.AlignDiff` | lib/header.cc:393-403 | The padding is below the type's width and reaches a multiple of it. |
| `HeaderBytes.AlignLeast` | lib/header.cc:393-403 | No smaller padding does. |
| `HeaderBytes.StrLenExact` | lib/header.cc:448-476 | A length is found if and only if it ends with the last of exactly that many terminators inside the bounds. |
| `HeaderBytes.DataLengthSame` | lib/header.cc:488-533 | The length depends on type, count and the covered bytes only. |
| `HeaderBlob.StrTagLen` | lib/header.cc:448-476 | The search loop with its unsigned counter finds that length, also for count 0. |
| `HeaderBlob.DataLen` | lib/header.cc:488-533 | On-disk length by type, with the 32-bit product. |
| `HeaderBlob.CheckEntry` | lib/header.cc:313-352 | One turn accepts exactly the entries that pass all checks and yields the end of their data. |
| `HeaderBlob.HdrblobVerifyInfo` | lib/header.cc:301-362 | 0 if and only if all entries pass, else one more than the number of the first that does not. |
| `HeaderBlob.HdrblobInit` | lib/header.cc:2046-2087 | Gives the blob description if and only if lengths, region and entries are acceptable. |
| `HeaderBlob.AcceptedLayout` | lib/header.cc:301-353 | In every accepted blob all entries are in bounds, aligned, not empty and pairwise disjoint; they are clear of a trailer in the data if and only if the region offset is not negative; an exact region is the whole blob. |
| `HeaderAccept.AcceptedTypes` | lib/header.cc:201-226 | In every accepted blob with an image or immutable region each entry behind the region entry has the registered type of its tag, unless the tag is unknown, or it is a string on an i18n tag or on a script interpreter tag. |
| `HeaderAccept.TypesExactly` | lib/header.cc:301-333 | In such headers types are the only thing the registered tags decide: a blob is accepted if and only if it would be with all tags unknown and its types are right. |
| `HeaderAccept.UntypedElsewhere` | lib/header.cc:301-333 | Signature headers and headers without region are accepted whatever the registered types. |
| `HeaderAccept.AcceptedEntry` | lib/header.cc:313-353 | What each entry of an accepted blob says of itself: tag from 100, type 1 to 9, count, offset and alignment, as numbers. |
| `HeaderAccept.AcceptedSizes` | lib/header.cc:2046-2087 | An accepted blob is as long as its first eight bytes announce, within the limits, which are lower for signature headers. |
| `HeaderAccept.AcceptedTrailer` | lib/header.cc:1857-1945 | First entry and trailer of an accepted region agree on tag, type, count and the number of entries; a signature header may end with an image trailer. |
| `HeaderBlob.NegativeRegionOffset` | lib/header.cc:1857-1945 | An accepted exact-size blob whose trailer is its own index entry. |
| `HeaderSwab.SwabData` | lib/header.cc:603-628 | The conversion loop reverses each number of the stretch in place and nothing else. |
| `HeaderSwab.MirrorOk` | lib/header.cc:603-628 | Swapping is its own inverse and stays inside the stretch. |
| `HeaderSwab.SwabEntry` | lib/header.cc:561-631 | One turn checks, lists, aligns and swaps as specified, or fails where the specification does. |
| `HeaderSwab.RegionSwab` | lib/header.cc:552-636 | The whole loop on the array yields the specified bytes, sum and entries, and fails exactly where specified. |
| `HeaderPieces.SwabAllPieces` | lib/header.cc:552-636 | For disjoint pieces in bounds it succeeds, swaps every piece where it lies, sums aligned lengths and lists all entries. |
| `HeaderPieces.SwabTwice` | lib/header.cc:552-636 | Swapping a copy at another alignment-compatible place gives the first bytes back. |
| `Common.QSort` | lib/header.cc:364-391 | A permutation, ordered whenever the comparison is consistent on the entries. |
| `HeaderStore.BSearch` | lib/header.cc:882-894 | An entry with the tag, or none if there is none. |
| `HeaderStore.CopyStrings` | lib/header.cc:1438-1451 | The strings one after the other, each with its terminator. |
| `HeaderStore.StringAt` | lib/header.cc:1438-1451 | Every string of an array stands behind those before it and is followed by a terminator. |
| `HeaderStore.GrabData` | lib/header.cc:1468-1484 | A copy of the value's bytes, nothing for empty or ill-counted values. |
| `HeaderStore.Header.HeaderSort` | lib/header.cc:370-376 | Sorted by tag, the same entries. |
| `HeaderStore.Header.FindEntry` | lib/header.cc:882-907 | An entry with tag and type; found whenever all entries of the tag have the type. |
| `HeaderStore.Header.HeaderDel` | lib/header.cc:909-944 | All entries with the tag go and no other, the result says whether there were any. |
| `HeaderStore.Header.HeaderMod` | lib/header.cc:1718-1753 | One entry with the tag takes the new value and leaves its region, all others stay; it succeeds whenever the tag has that type and there is data. |
| `HeaderStore.Header.IntAddEntry` | lib/header.cc:1486-1527 | Appends one entry of its own with the value if and only if count, type and data are acceptable. |
| `HeaderStore.Header.IntAppendEntry` | lib/header.cc:1529-1563 | One entry grows by the value's bytes and count and leaves its region, all others stay; never for strings and i18n strings. |
| `HeaderStore.Header.HeaderPut` | lib/header.cc:1565-1578 | Adds an entry or extends one of the same tag and type; nothing changes on failure. |
| `HeaderImport.AcceptedDescribes` | lib/header.cc:301-353 | Every stretch of the index of an accepted blob describes disjoint, aligned pieces that swapping can follow. |
| `HeaderImport.DropReplaced` | lib/header.cc:1010-1016 | Exactly the entries with tags of dribbles go, and old file names with base names. |
| `HeaderImport.ImportLegacy` | lib/header.cc:955-973 | A blob without region loads if and only if its aligned lengths sum up to the data size; a region entry is made for it. |
| `HeaderImport.LoadRegion` | lib/header.cc:978-993 | The entries of the region with their negative offset, in front of them the region entry with the summed length. |
| `HeaderImport.ImportDribbles` | lib/header.cc:995-1025 | Dribbles are listed behind the region and replace region entries of the same tag. |
| `HeaderImport.ImportRegion` | lib/header.cc:974-1031 | A blob with region loads if and only if aligned lengths and trailer sum up to the data size. |
| `HeaderImport.HdrblobImport` | lib/header.cc:946-1051 | For every accepted blob: loading succeeds if and only if that sum is right, all data is swapped once, and the index holds exactly the region entry and the entries of the blob that are not replaced. |
| `HeaderGaps.SlotsBelow` | lib/header.cc:599-630 | In a packed layout no entry starts before its aligned running sum. |
| `HeaderGaps.PackedExactly` | lib/header.cc:599-630 | If the end is the sum, the gaps between entries add up to the alignment padding, and without padding every offset is the running sum. |
| `HeaderGaps.ForcedOffsets` | lib/header.cc:599-630 | All layouts of given lengths and types with that end have the running sums as offsets if and only if there is no padding. |
| `HeaderGaps.LoadedLayout` | lib/header.cc:946-1031 | Every exact-size region blob that is accepted and loads is packed up to its trailer, its gaps total its padding, and each offset is the running sum when there is none. |
| `HeaderGaps.HiddenGap` | lib/header.cc:946-1031 | A blob that is accepted and loads though a string does not lie at its running sum. |
| `HeaderForced.RaisedLoads` | lib/header.cc:301-353 | An entry with room before the next can be moved up by its width in the bytes of a blob: it is still accepted and still loads, with the same entries and data. |
| `HeaderForced.SlottedMovable` | lib/header.cc:599-630 | Where alignment needs padding, the entry before it has that room. |
| `HeaderForced.ForcedBlobs` | lib/header.cc:946-1031 | All exact-size blobs with given entries and lengths that are accepted and load have their offsets at the running sums if and only if there is no padding. |
| `HeaderDrips.WriteDrip` | lib/header.cc:805-841 | The data in network order at its place, everything else untouched. |
| `HeaderDrips.ExportDrip` | lib/header.cc:796-842 | Index entry, zero padding and data of one drip, everything else untouched. |
| `HeaderDrips.ExportDrips` | lib/header.cc:792-849 | All drips: the index and data bytes of the layout fill the blob exactly to its end. |
| `HeaderOrigin.RegionRestored` | lib/header.cc:758-778 | Swapping the copied region once more gives the bytes it was loaded from, and the expected size. |
| `HeaderExport.CopyExact` | lib/header.cc:763-773 | Index and data of an exact region with its trailer are copied to their new places. |
| `HeaderExport.CopyLegacy` | lib/header.cc:740-756 | A blob that had no region gets a first entry and a trailer around its own index and data. |
| `HeaderExport.ExportRegion` | lib/header.cc:732-790 | The region is written back as it was on disk, and both size checks pass. |
| `HeaderExport.Arrange` | lib/header.cc:654-655 | Sorting by offset puts the region and its entries in front and the drips behind by tag, although the comparison itself depends on where data lies. |
| `HeaderExport.Measure` | lib/header.cc:657-702 | The first pass counts the entries and the aligned data size of region and drips. |
| `HeaderExport.Compose` | lib/header.cc:704-855 | The second pass fills exactly that size; no overrun check fails. |
| `HeaderExport.DoExport` | lib/header.cc:638-861 | Succeeds if and only if entry count and data size are within limits, and yields intro, region, drip index, region data and drip data as the layout says. |
| `HeaderChanges.Run` | lib/header.cc:909-944 | Any sequence of put, append, modify and delete on ordinary tags keeps the region entry, its bytes and the shape of all entries. |
| `HeaderImmutable.ImportKept` | lib/header.cc:946-1051 | A loaded header starts out in that state. |
| `HeaderImmutable.RegionImmutable` | lib/header.cc:638-861 | Load an exact region blob, make any such changes, export: the result starts with the original index entries and its data with the original data bytes; export fails only for exceeded limits. |
| `HeaderImmutable.Unchanged` | lib/header.cc:638-861 | Without changes the export is the very blob that was loaded. |
| `HeaderImmutable.DigestKept` | lib/header.cc:191-199 | Read back, such a blob has the same region tag and lengths, and the digest is fed the same bytes. |
| `HeaderImmutable.DigestPins` | lib/header.cc:191-199 | Equal digest inputs have the same numbers of entries and bytes, the same index entries and the same data. |
| `HeaderRoundTrip.WrittenAccepted` | lib/header.cc:2046-2087 | What is exported from well-formed entries without a region passes all checks of `hdrblobInit`. |
| `HeaderRoundTrip.BackAgain` | lib/header.cc:552-636 | The data of each entry, swapped out and in again, is the same. |
| `HeaderRoundTrip.RoundTrip` | lib/header.cc:638-1051 | Export succeeds if and only if within limits; loading its result succeeds if and only if it is also not empty and not too long, and gives exactly the same tags, types, counts and data plus one region entry. |
| `HeaderRoundTrip.PutMeasured` | lib/header.cc:1486-1527 | Every value `headerPut` accepts under a legal tag is such a well-formed entry. |
| `HeaderSizeof.CountBytes` | lib/header.cc:421-439 | The loop counts region, index entries, padding and data as the export lays them out. |
| `HeaderSizeof.HeaderSizeof` | lib/header.cc:405-442 | The size of the header in tag order, with or without magic. |
| `HeaderSizeof.OneOrder` | lib/header.cc:378-391 | Entries with distinct tags have one order by tag, so sorting by tag and by offset agree on the drips. |
| `HeaderSizeof.SizeAndExport` | lib/header.cc:405-442 | For headers with one entry per tag the length that is exported is `headerSizeof`. |
| `CpioFormat.FieldNumber` | lib/cpio.cc:110-123 | A number below 2^32 reads back from its eight hexadecimal digits. |
| `CpioFormat.ClosedPrefix` | lib/cpio.cc:169-212 | A closed archive starts with every prefix of its members and the header and content of the next. |
| `CpioStream.Cpio.WritePad` | lib/cpio.cc:126-141 | Zeros up to a multiple of 4, if there is room. |
| `CpioStream.Cpio.ReadPad` | lib/cpio.cc:143-157 | The same distance is skipped, if it is there. |
| `CpioStream.Cpio.HeaderWrite` | lib/cpio.cc:214-281 | Succeeds if and only if the file before is complete, the size is within limits and there is room; the stream is then the image of one member more with no content yet. |
| `CpioHeader.HeaderNumbers` | lib/cpio.cc:214-281 | The fields as written, read at their offsets: inode, mode, owner, group, links, time, size, devices, length of the name and checksum 0. |
| `CpioHeader.MemberHeader` | lib/cpio.cc:214-281 | Every member of a closed archive has at its place the magic 070701, its thirteen numbers at the offsets of cpio(5) and its name; the trailer is called TRAILER!!!. |
| `CpioStream.Cpio.Write` | lib/cpio.cc:325-339 | What is written is appended to the last member's content, all of it if and only if the announced size and the room allow it. |
| `CpioStream.Cpio.Close` | lib/cpio.cc:449-458 | The trailer is added if and only if the last file is complete and there is room. |
| `CpioStream.Cpio.Read` | lib/cpio.cc:434-447 | The next bytes of the stream, never beyond the announced end. |
| `CpioStream.Cpio.SkipContent` | lib/cpio.cc:356-366 | Stops at the announced end, if the stream has it. |
| `CpioStream.Cpio.NewcRead` | lib/cpio.cc:398-427 | Over a written header it finds the path, the end of the content and the trailer. |
| `CpioStream.Cpio.HeaderRead` | lib/cpio.cc:342-427 | From anywhere in the content of a file of a closed archive: the next path, or the end after the last. |
| `CpioStream.NextHeader` | lib/cpio.cc:169-281 | Behind every prefix of members stands the padded header of the next, or the trailer. |
| `CpioRoundTrip.ContentAt` | lib/cpio.cc:325-339 | Every stretch of content stands at its place behind its header. |
| `CpioRoundTrip.WriteArchive` | lib/cpio.cc:169-339 | Writing succeeds if and only if sizes are within limits and the archive fits, and leaves the image of all members with trailer. |
| `CpioRoundTrip.ReadArchive` | lib/cpio.cc:342-447 | Reading arbitrary prefixes of the contents gives all paths and those prefixes in order, then the end. |
| `CpioRoundTrip.RoundTrip` | lib/cpio.cc:169-447 | Write, close and read return the same members, however much of each content is consumed, and then the end. |
| `CpioRoundTrip.HeadersAligned` | lib/cpio.cc:126-141 | Every header and every content starts at a multiple of 4. |
| `PayloadLinks.Collect` | lib/rpmfi.cc:1396-1410 | For every device and inode the ascending list of its regular files that are not ghosts, and whether any has two. |
| `PayloadLinks.BuildNLink` | lib/rpmfi.cc:1381-1436 | A file has a link set if and only if another file shares its node, and then all of them. |
| `PayloadLinks.LinksAre` | lib/rpmfi.cc:1396-1410 | The links of a file are the regular files of the payload with its device and inode number. |
| `PayloadOrder.OrderOnce` | lib/rpmfi.cc:2055-2123 | Single files in index order followed by the hardlink sets hold every file that is not a ghost exactly once. |
| `PayloadOrder.HeadIsHead` | lib/rpmfi.cc:2071-2075 | The first file of a link set is the one at which the set is written. |
| `PayloadOrder.ContentSize` | lib/rpmfi.cc:1947-1960 | The content a file has in the archive, none for all but the last of a link set, is as long as its header announces. |
| `PayloadHeaders.PayloadHeader` | lib/rpmfi.cc:798-840 | The header of a packaged file says its mode, owner, group and time, as many links as files share its node, and a size only for the last of them; absolute names are written with a dot in front unless the package has them without. |
| `PayloadWrite.NextSingle` | lib/rpmfi.cc:2079-2088 | No single file is passed over. |
| `PayloadWrite.NextHead` | lib/rpmfi.cc:2065-2076 | No link set is passed over. |
| `PayloadWrite.FirstHead` | lib/rpmfi.cc:2089-2101 | The first hardlinked file begins the first link set. |
| `PayloadWrite.Rpmfi.FindNext` | lib/rpmfi.cc:2063-2104 | The next unit of the order, or none when all are written. |
| `PayloadWrite.Rpmfi.WriteHeader` | lib/rpmfi.cc:2032-2053 | One header more, with the name and the size a file has in archives. |
| `PayloadWrite.Rpmfi.WriteSet` | lib/rpmfi.cc:2107-2115 | The headers of a link set one after the other, content only announced by the last. |
| `PayloadWrite.Rpmfi.NextFile` | lib/rpmfi.cc:2055-2123 | The written files grow by one single file or one whole link set along the order; it fails only for lack of room or excess size. |
| `PayloadWrite.Rpmfi.ArchiveNext` | lib/rpmfi.cc:2125-2145 | Stops at the next file whose content the caller has to supply, symlink targets being written on the way, or when the order is complete. |
| `PayloadWrite.WritePayload` | lib/rpmfi.cc:2032-2145 | The archive is the closed image of exactly the files of the order, and every file has the header that tells its mode, links and size. |
| `PayloadRead.ArchiveReader.AllFound` | lib/rpmfi.cc:2205-2214 | True if and only if every file but ghosts has been found. |
| `PayloadRead.ArchiveReader.Expect` | lib/rpmfi.cc:2233-2251 | Behind a header of the payload the content end that is set is the one the header announced, symlink targets are passed over. |
| `PayloadFind.CmpFn` | lib/rpmfi.cc:389-400 | Zero if and only if directory and base name make up the name. |
| `PayloadFind.FindFN` | lib/rpmfi.cc:402-440 | A file with the stripped name if there is one, by the binary search or the linear one, else none. |
| `PayloadFind.StripPath` | lib/rpmfi.cc:2045-2047 | Names written with and without prefix are stripped to the same relative name. |
| `PayloadFind.WrittenFound` | lib/rpmfi.cc:402-440 | The search for a written name ends at its file. |
| `PayloadRead.ArchiveReader.ReadNext` | lib/rpmfi.cc:2192-2258 | On a written payload: the next file of the order, and after the last the end, never a missing or unmapped file. |
| `PayloadRead.ReadPayload` | lib/rpmfi.cc:2192-2258 | The whole order with the wanted prefixes of the contents, then the end. |
| `PayloadRead.RoundTrip` | lib/rpmfi.cc:2032-2258 | Writing and reading a payload with hardlinks gives every file but ghosts once, in the order written, with its content on the last of each link set, and then the end. |
| `FsmNames.TempApart` | lib/fsm.cc:79-83 | A temporary name is no other suffixed name of any file, and belongs to one file. |
| `FsmNames.RunFrame` | lib/fsm.cc:1063-1088 | A run of commits changes a name only if one of its files writes it. |
| `FsmNames.TempWaits` | lib/fsm.cc:1063-1088 | Up to its own commit the unpacked file stays under its temporary name. |
| `FsmCommit.Undisturbed` | lib/fsm.cc:958-988 | Unpacking leaves the final names of files with temporary names alone, if no directory is backed up onto one. |
| `FsmCommit.CommitPlaces` | lib/fsm.cc:709-802 | Backup and rename leave the new file at its destination, the old one where it is kept and no temporary name, if the destination is no link to the new file already; with the names .rpmsave, .rpmorig and .rpmnew written out. |
| `FsmCommit.PlacedAt` | lib/fsm.cc:1063-1088 | Without clashes a committed file is in place and no later commit disturbs it. |
| `FsmCommit.NewClash` | lib/fsm.cc:772-802 | If one file goes to the name of another, not everything is in place after any successful run, hard links included. |
| `FsmCommit.PlacedExactly` | lib/fsm.cc:1063-1088 | After a successful run everything is in place if and only if no names clash, but for saving onto a link that is left alone. |
| `FsmCommit.SavedFileLost` | lib/fsm.cc:709-802 | "foo" and "foo.rpmsave": every commit succeeds and the saved file has no name left. |
| `FsmCommit.CommittedFileReplaced` | lib/fsm.cc:772-802 | "foo" and "foo.rpmnew": every commit succeeds and the first new file has no name left. |
| `FsmCommit.FrameKept` | lib/fsm.cc:1091-1105 | After a failed commit and cleaning up, names that no file wrote are as they were, whatever the package. |
| `FsmCommit.DoneStays` | lib/fsm.cc:1091-1105 | Without clashes the files committed before stay in place. |
| `FsmCommit.RestKept` | lib/fsm.cc:1091-1105 | Without clashes final names behind the failure are untouched, and what the failing file was to replace is there or under its backup name. |
| `FsmLinks.LeadDomain` | lib/fsm.cc:940-1057 | The files that have been unpacked are those with temporary names that the payload has brought. |
| `FsmLinks.LinkNew` | lib/fsm.cc:206-216 | A file made new shares its inode with no other. |
| `FsmLinks.LinkMore` | lib/fsm.cc:217-219 | A file linked to the first of its set shares the inode of all that are, and of no other. |
| `FsmLinks.SetLeads` | lib/fsm.cc:198-238 | In a hardlink set every file from the first to the one that brings the content is a link to the first, also if entries in between are skipped. |
| `FsmLinks.SetShares` | lib/fsm.cc:198-238 | After the whole payload all files of a set have one inode. |
| `FsmLinks.Alone` | lib/fsm.cc:198-238 | A file that is no hardlink has an inode that no other file has. |
| `FsmInstall.Installer.Mkfile` | lib/fsm.cc:198-238 | A file is created, or linked to the first of its set, as the links of the payload say; only temporary names change, and it fails only if a call fails or the name is taken. |
| `FsmInstall.Installer.MakeRoom` | lib/fsm.cc:643-698 | What is in the way of a directory or vanished file goes, and only its own names change. |
| `FsmInstall.Installer.Direct` | lib/fsm.cc:958-1022 | Directories and touched files change their own names only, and are there afterwards. |
| `FsmInstall.Installer.UnpackFile` | lib/fsm.cc:940-1057 | Processing one payload entry, successful or not, changes only names that unpacking may write; success makes the next step of links, or the directory. |
| `FsmInstall.Installer.UnpackAll` | lib/fsm.cc:939-1061 | So does the whole payload, in any order and with any early end; after success exactly its files are there and two of them are one inode if and only if the sets say so; it succeeds if no call fails. |
| `FsmInstall.Installer.BackupFile` | lib/fsm.cc:709-739 | The file in the way moves to its suffixed name if it is to be kept; otherwise nothing happens. |
| `FsmInstall.Installer.CommitFile` | lib/fsm.cc:1068-1087 | Success continues the run of commits by this file; failure leaves it before or after the backup. |
| `FsmInstall.Installer.CommitAll` | lib/fsm.cc:1063-1088 | The names are those of the run of commits, up to the end or to the first failure. |
| `FsmInstall.PreparedCommits` | lib/fsm.cc:1063-1088 | If every file was unpacked, no names clash and what is to be saved is there, every commit is possible. |
| `FsmInstall.PlacedLinks` | lib/fsm.cc:198-238 | Files in place share an inode if and only if they did under their temporary names. |
| `FsmInstall.PlacedAsked` | lib/fsm.cc:709-802 | Files in place are what their actions ask for: new at the path, the old one under the suffix of the action, or beside it. |
| `FsmInstall.Installer.RollbackFile` | lib/fsm.cc:1097-1103 | Removes the name of an uncommitted file and no other. |
| `FsmInstall.Installer.Rollback` | lib/fsm.cc:1091-1105 | Every uncommitted temporary name is gone, except where removal itself failed. |
| `FsmInstall.Installer.Install` | lib/fsm.cc:880-1118 | Success leaves everything in place exactly if no names clash, as each action asks, and the installed files are links to one another as the payload's sets say. It succeeds if no call fails, every file comes once and what is to be saved is there. If unpacking fails only names that unpacking writes have changed. If a commit fails, files before it are in place and stay, final names behind it are untouched and its own file loses nothing, if no names clash. After a failure no uncommitted temporary name is left where cleanup succeeded. |
| `VsVerify.CmpConsistent` | lib/rpmvs.cc:527-546 | The comparison orders every table. |
| `VsVerify.SortTable` | lib/rpmvs.cc:568-570 | A permutation sorted by it, signatures before digests of the same range. |
| `VsVerify.SortedMeans` | lib/rpmvs.cc:527-546 | In the sorted table the header comes before the payload, of one range signatures before digests, and stronger algorithms first. |
| `VsVerify.SameCoverage` | lib/rpmvs.cc:568-570 | What is signed, digested and needed does not depend on the order. |
| `VsVerify.StrongInTime` | lib/rpmvs.cc:575-580 | In sorted order, a digest from the header has a verified header signature before it if and only if there is one at all. |
| `VsVerify.Vs.Check` | lib/rpmvs.cc:572-591 | Each entry gets its verdict, digests from the header get signature strength if and only if the header is signed, and the covered ranges are those of the good entries. |
| `VsVerify.Vs.GetAlt` | lib/rpmvs.cc:549-557 | The first entry with another id and the same disabler. |
| `VsVerify.AltIs` | lib/rpmvs.cc:549-557 | The alternative of an entry is the first with another id that the same flag disables. |
| `VsVerify.ExcusedBy` | lib/rpmvs.cc:602-607 | Only a wrong entry is excused, and only by a good one with another id that the same flag disables. |
| `VsVerify.Vs.CollectFailed` | lib/rpmvs.cc:597-636 | A type fails if and only if one of its entries is bad; a bad digest counts unless its alternative is good. |
| `VsVerify.VerdictsMean` | lib/rpmvs.cc:624-636 | Wrong signatures and missing keys count as broken after sorting, and nothing else does. |
| `VsVerify.Vs.Verify` | lib/rpmvs.cc:559-644 | The exact failed bits; a clear signature bit at signature level means every part is covered by a good signature or a good digest of a signed header, and partial signatures fail at every level, as does a checked signature that is wrong or whose key is missing, while untrusted and absent ones do not. |
| `AlIndex.ConfigNotSkipped` | lib/rpmal.cc:153-175 | No provide is ever skipped by the config filter. |
| `AlIndex.FilesFound` | lib/rpmal.cc:124-151 | Documentation is indexed unless the transaction installs none, configuration likewise, other files always, coloured ones if the colours meet. |
| `AlIndex.NamesFound` | lib/rpmal.cc:153-194 | Provides and obsoletes are filtered by colour only. |
| `AlIndex.IndexSame` | lib/rpmal.cc:108-122 | Deleting packages and adding later ones changes no index of the first ones. |
| `AlIndex.PickIndex` | lib/rpmal.cc:269-296 | Walking an index answers every query as a scan of the live packages does. |
| `AlIndex.NotItself` | lib/rpmal.cc:363-384 | No package is found for its own conflicts and obsoletes. |
| `AlIndex.ObsoletedByName` | lib/rpmal.cc:386-402 | An obsoletes finds exactly the packages of that name whose own version it covers and that provide their name in a fitting colour. |
| `AlIndex.IndexGrows` | lib/rpmal.cc:196-220 | Extending an index by a package is the same as building it with that package. |
| `AlIndex.Al.MakeIndex` | lib/rpmal.cc:222-267 | The index of all packages in the list. |
| `AlIndex.Al.Add` | lib/rpmal.cc:196-220 | Source packages change nothing; otherwise the list grows by the package and every existing index stays the index of the list. |
| `AlIndex.Al.Del` | lib/rpmal.cc:108-122 | One package with the element, if any, loses it; every index stays valid. |
| `AlIndex.Al.SameDir` | lib/rpmal.cc:330-338 | Directories match by name or by fingerprint, whatever the cache holds. |
| `AlIndex.Al.Walk` | lib/rpmal.cc:323-340 | The live packages behind an index that answer the query. |
| `AlIndex.Al.Lookup` | lib/rpmal.cc:311-346 | The multiset of a linear scan, whether the index existed before or is made now. |
| `AlIndex.Al.AllObsoletes` | lib/rpmal.cc:269-296 | The live packages that obsolete the name, as by a scan. |
| `AlIndex.Al.AllSatisfiesDepend` | lib/rpmal.cc:298-410 | The live packages that own the file, or if there are none those that provide the name, as by a scan. |
| `FpCache.LongestFound` | lib/fprint.cc:164-199 | The specified ancestor exists and is the longest that can be looked at. |
| `FpCache.PrintUnique` | lib/fprint.cc:148-205 | There is one fingerprint only for a directory, and entry and subdirectory rejoin to it. |
| `FpCache.PrintIs` | lib/fprint.cc:148-205 | So every lookup equals the one without a cache. |
| `FpCache.Parent` | lib/fprint.cc:194-198 | The next shorter ancestor, none being passed over. |
| `FpCache.Cache.DoLookup` | lib/fprint.cc:148-205 | The fingerprint of the longest ancestor, whatever was looked up before; the cache only gains that true entry. |
| `FpCache.Cache.LookupList` | lib/fprint.cc:263-291 | Each file of the list gets the fingerprint it would get alone. |

## Left out

- OrderTransaction.RpmtsOrder: no relations between elements of different types or with restored elements, which fall outside the two runs.
- OrderTransaction.RecordAll: the same; `addRelation`'s search for the providing package and its descent into rich dependencies are not modelled, requests name both ends. Nor are `rpmteSetParent`, `depends` pointers and debug output.
- RichSplit.ParseInternal: the checks that only `rpmrichParseForTag` switches on, which reject if and unless in some contexts when packages are built; error messages.
- Rich dependencies: the dependency cache, the solver callback and the order of sorted keys (the set is what counts).
- RichMeaning.EvaluationMeaning: a bare else is an intermediate form only and not a user dependency.
- RichExact.IndexExactly: the exact condition is for dependencies without repeated names; for others it is sufficient.
- HeaderBlob.HdrblobInit: the size is known, and the blob is not read from a file.
- HeaderSwab.RegionSwab: string lengths are not taken from offsets (fast import), and where the source passes no data end the end of the buffer bounds the swap; the host is little-endian.
- HeaderImport.HdrblobImport: no fast import, and tags below 2^31.
- HeaderExport.DoExport: no dribbles that came with the blob, since their lengths include padding.
- HeaderStore.Header.HeaderSort: tags below 2^31; above, the comparison by difference is no order.
- HeaderStore.Header.FindEntry: tags below 2^31; which of several entries with one tag the binary search meets is not said, as `bsearch` does not say it.
- HeaderStore.Header.HeaderDel: tags below 2^31.
- HeaderStore.Header.HeaderMod: tags below 2^31.
- HeaderStore.Header.IntAddEntry: tags below 2^31.
- HeaderStore.Header.IntAppendEntry: tags below 2^31, and values and sums below 4 GiB, which would wrap in 32 bits.
- HeaderStore.Header.HeaderPut: tags below 2^31.
- HeaderChanges.Run: no appending of a value of type NULL, which raises the count of an entry without adding data and makes the export read past it.
- HeaderSizeof.SizeAndExport: one entry per tag, because equal tags may be laid out in either order.
- Headers: i18n strings, iterators and getters.
- PayloadRead.ArchiveReader.ReadNext: stripped headers are read but not followed.
- PayloadRead.RoundTrip: directories are absolute or empty, base names have no slash and relative names differ, as in the file lists of packages.
- Archives: sizes that wrap, the stream after a failed write, the iterators that omit hardlinks or put content first, and digests of contents.
- FsmInstall.Installer.Install: temporary names are taken to be neither in use nor packaged, as the transaction id in them is meant to ensure. That it succeeds if no call fails is said where directories are created and not moved away.
- FsmInstall.Installer.Direct: directories and touched files act on their final names by design; what is in place at the end is said of files with temporary names. A touched file that vanished is created by itself, even if it is in a hardlink set.
- Installs: creation of parent directories, contents and metadata of files, `/dev/log`, file states; plugin hooks and metadata are calls that may fail.
- VsVerify.Vs.Verify: for a callback that continues and changes nothing; which results it is called for is not modelled.
- AlIndex.Al.Lookup: the order of packages inside a multimap bucket is not said; `rpmalSatisfiesDepend`'s choice among several packages is left out.
- Fingerprints: `canonDir` (canonical directories are inputs), the abort when "/" cannot be looked at, and the symlink resolution of `fpCachePopulate`.
- The rest of RPM: I/O, Lua, scriptlets, plugins, query formats, keystores, cryptography, database backends, version comparison, relocation, locks and configuration.
