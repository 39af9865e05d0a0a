# PatternV core in Dafny

PatternV mines a call trace for repeated call-stack shapes ("patterns") and then prunes the redundant ones. A call trace is a sequence of `enter:f` / `exit:f` lines. This project models the analytical core of the JavaScript implementation and proves properties of that model:

- **Interval algebra** (`js/utils.js`). `mergeIntervals`, `squishIntervals` and `intersectSpan` work over lists of `[lo, hi)` pairs. The same containment sweep, `subInterval`, appears in both subsumption filters.
- **Discovery engine** (`js/PatternFinder.js`). `createTrace`, `findPatterns` and `processPointerList` form a recursive extend-and-partition trie over start indices. It has a cluster-collapse step and an intersect-span acceptance test.
- **Rotation collapse filter** (`js/Filters.js`). `SortedPattern.init` / `incrementIndex` and `RotateFilter.filter` / `filterR` / `calculateSpan`.
- **Subsumption filters** (`js/filters/SubPatternFilter.js`, `js/filters/PartialPatternFilter.js`). Both build readings of every frame from its split points and partition them step by step. Each clears a frame's `valid` flag when its intervals lie inside another frame's.
- **Event-tree conversion** (`js/Processor.js`). A stack machine turns the body of a pattern into nested calls, each with a start index, an end index and a depth.

Modules and files:

| file | module | what it holds |
|---|---|---|
| `Intervals.dfy` | `Intervals`, `IntervalFacts` | the interval datatype; `MergeIntervals`, `SquishIntervals`, `IntersectSpan` and `SubInterval` as loop-for-loop methods proved equal to recursive specification functions; union, canonical form, commutativity and idempotence of the merge |
| `IntersectFacts.dfy` | `IntersectFacts` | `intersectSpan` equals the double sum of pairwise overlaps; symmetry, bounds, self-intersection |
| `SquishFacts.dfy` | `SquishFacts` | what `squishIntervals` does and does not guarantee |
| `ContainFacts.dfy` | `ContainFacts` | `subInterval` on separated lists means "every interval lies inside one of the other list", i.e. point containment; reflexive, transitive |
| `Events.dfy` | `Events` | events, their trace lines, JavaScript string order, stack depth, balanced and root-wrapped traces |
| `Grouping.dfy` | `Grouping` | the partition `Map` as a list of (key, group) pairs in first-insertion order |
| `PatternFinder.dfy`, `PatternFacts.dfy` | `PatternFinder`, `PatternFacts` | the discovery engine (class `PatternFinder`, an `array` for the pointer list) and what it records |
| `Frames.dfy` | `Frames` | the frame record the filters share; the closing "keep valid frames" loop; clearing flags |
| `Filters.dfy`, `RotateFacts.dfy` | `Rotate`, `RotateFacts` | the rotation collapse filter (class `RotateFilter`) and its exactly-once and union properties |
| `SubPatternFilter.dfy`, `SubPatternFacts.dfy` | `SubPattern`, `SubPatternFacts` | the sub-pattern filter (class `SubPatternFilter`) and its clear-only, containment-only behaviour |
| `PartialPatternFilter.dfy`, `PartialPatternFacts.dfy` | `PartialPattern`, `PartialPatternFacts` | the partial-pattern filter (class `PartialPatternFilter`) and the same facts for it |
| `Processor.dfy`, `ProcessorFacts.dfy` | `Processor`, `ProcessorFacts` | the event-tree conversion (classes `Processor`, `PatternProcessor`) and the balanced-parentheses facts about it |

Every stateful operation of the source is a method of a class whose fields are the source's fields. Each such method is proved to leave its state equal to a specification function of the old state. Those functions carry the lemmas.

The pattern finder's `MIN_PATTERN_LENGTH` (4), `MAX_PATTERN_LENGTH` (200) and `INTERVAL_DROPPED` (-1) are kept as constants. The 0.75 acceptance threshold is the integer comparison `4 * intersect < 3 * span`, which is equivalent for positive spans (every pattern span is at least 4).

In two places the code does something other than what its own comments say. The model follows the code in both:

- Cluster boundary: the comment at js/PatternFinder.js:303-306 calls a cluster a group of intervals that intersect each other. The test at js/PatternFinder.js:114 is `<=`, so starts exactly one body length apart are also merged, although `[s, s+L)` and `[s+L, s+2L)` do not intersect. `PatternFacts.ClusterTouching` shows three back-to-back repeats collapsing into one interval with all three starts dropped.
- Return value of `processPointerList`: the comment at js/PatternFinder.js:174-176 says the intervals returned for the extensions are to be unioned. The pattern case returns the squished extended intervals followed by the pattern's own intervals (js/PatternFinder.js:250-253). That is a concatenation, which may hold overlapping intervals, not a squished union.

Two further points on how the code's data flows:

- Frame fields: frames recorded by the discovery engine carry only `start`, `end` and `count` (js/PatternFinder.js:26-30, 99). The filters take frames with `intervals`, `span` and `valid` from their caller.
- Rotations compared: the rotation filter keys a pattern by `trace[start + index]` only while the pattern has not completed (js/Filters.js:79-90). The line at which it completes is never compared, so a fold joins frames that agree at the first `length - 1` positions from their rotation points. `RotateFacts.FoldsRotations` states exactly that.
- Zero-length frames: the rotation filter logs "bad pattern" for them and then carries on (js/Filters.js:13-15). It does not skip them.

## Model

| member | source | states |
|---|---|---|
| Intervals.MergeIntervals | js/utils.js:5-82 | the loops compute `Merge`; an empty first list gives back the second and an empty second list gives back the first |
| Intervals.FinishTail | js/utils.js:50-79 | the two closing loops absorb intervals until the first one past the last output end, then append the rest unexamined |
| IntervalFacts.MergeUnion | js/utils.js:14-79 | on separated inputs the merge is separated (ascending, strict gaps), covers exactly the points of either input, starts at the smaller first `lo`, and is no longer in span than the two inputs together |
| IntervalFacts.SweepProps | js/utils.js:26-48 | the two-pointer phase keeps the output separated, covers the union of what was consumed, keeps the first start, and does not grow the span beyond the inputs' |
| IntervalFacts.TailProps | js/utils.js:50-79 | the closing loops keep the output separated, add exactly the points of the remaining list, keep the first start, and bound the span |
| IntervalFacts.AbsorbCovers | js/utils.js:31-46 | absorbing an interval into the last output interval (end becomes the larger end) or appending it covers exactly the old points plus the interval's |
| IntervalFacts.Canonical | js/utils.js:5-82 | two separated lists with the same points are equal, so the merge result is determined by the union alone |
| IntervalFacts.MergeCommutes | js/utils.js:14-18 | on separated inputs the argument swap is immaterial: `merge(a, b) == merge(b, a)` |
| IntervalFacts.MergeIdempotent | js/utils.js:5-82 | merging a separated list with itself returns it, and merging again with an input changes nothing |
| Intervals.SquishIntervals | js/utils.js:85-98 | the loops compute `Squish`: one interval per maximal run of neighbours with `hi >= next lo`, from the run's first `lo` to its last interval's `hi` |
| Intervals.ScanRun | js/utils.js:90-92 | the inner loop stops at the end of the run starting at `i` |
| Intervals.RunEnd | js/utils.js:90-92 | the run end is at or after `i`; it is the last index or is followed by a gap; every neighbour pair inside the run touches |
| Intervals.SquishStep | js/utils.js:87-95 | one outer pass emits exactly the next run's interval |
| SquishFacts.SquishLength | js/utils.js:85-98 | squishing never makes a list longer |
| SquishFacts.SquishSeparated | js/utils.js:85-98 | a separated list (in particular every merge result) is returned unchanged |
| SquishFacts.SquishAscending | js/utils.js:85-98 | when starts and ends both ascend, the result is separated and covers exactly the same points |
| SquishFacts.SquishDropsNested | js/utils.js:90 | comparing with the previous interval's end rather than the running maximum loses points: `[0,10),[2,3),[5,6)` squishes to `[0,3),[5,6)`, which no longer covers 4 |
| SquishFacts.RunCovers | js/utils.js:88-93 | with ascending ends, a run of touching intervals covers exactly `[first lo, last hi)` |
| Intervals.IntersectSpan | js/utils.js:101-138 | the two-pointer loop, which moves one pointer per pass, computes `IntersectLength` |
| IntersectFacts.IntersectIsSum | js/utils.js:101-138 | on separated lists the sweep equals the sum of the overlaps of every pair of intervals |
| IntersectFacts.IntersectProps | js/utils.js:101-138 | on separated lists `intersectSpan` is symmetric, lies between 0 and the smaller span, equals the span on `(A, A)`, and is 0 when either list is empty |
| IntersectFacts.SumOverlapSymmetric | js/utils.js:101-138 | the pairwise-overlap reference is symmetric |
| IntersectFacts.SumBounds | js/utils.js:101-138 | the overlaps of two separated lists add up to between 0 and the first list's span |
| IntersectFacts.SumSelf | js/utils.js:101-138 | a separated list overlaps itself in exactly its span |
| IntersectFacts.RowBound | js/utils.js:101-138 | an interval overlaps a separated list in at most its part from the list's start on |
| Intervals.SubInterval | js/filters/SubPatternFilter.js:101-125 | the loop computes `Contained`: false as soon as an interval of the first list starts before the current one of the second, true iff the first list is used up |
| ContainFacts.ContainedMeaning | js/filters/SubPatternFilter.js:101-125 | on separated lists `subInterval` holds iff every interval of the first lies inside some interval of the second |
| ContainFacts.ContainedIffCovered | js/filters/PartialPatternFilter.js:98-122 | on separated lists `subInterval` holds iff every point of the first list is a point of the second |
| ContainFacts.ContainedReflexive | js/filters/SubPatternFilter.js:101-125 | a separated list is contained in itself |
| ContainFacts.ContainedTransitive | js/filters/SubPatternFilter.js:101-125 | containment is transitive on separated lists |
| ContainFacts.ContainedIntersect | js/utils.js:101-138 | a list contained in another meets it in its whole span |
| Events.LexTotal | js/Filters.js:23 | JavaScript string `<`, modelled as lexicographic order, is a strict total order: exactly one of two different lines is smaller |
| Events.LexTransitive | js/Filters.js:23 | the line order is transitive |
| Events.LineInjective | js/Filters.js:22-23 | two events have the same trace line iff they are the same event |
| Events.EnterLinesFirst | js/Filters.js:23 | every `enter:` line sorts before every `exit:` line |
| Events.DepthConcat | js/PatternFinder.js:158-163 | the stack height gained over a concatenation is the sum of the heights |
| Events.Wrap | js/PatternFinder.js:279-285 | wrapping adds two events, and raw event k moves to index k + 1 |
| Events.WrapBalanced | js/PatternFinder.js:259-285 | wrapping a complete call stack in `enter:root` / `exit:root` gives a root-wrapped trace |
| Events.WrappedSuffix | js/PatternFinder.js:63-68 | in a wrapped trace, everything after a non-final index ends below that index's height, which is why a start at depth 0 meeting an exit must be discarded |
| Grouping.GroupByKeySpec | js/PatternFinder.js:143-170 | the partition map built by pushing pairs in order has distinct keys and non-empty groups; its keys are the keys pushed; each group holds exactly its key's values in push order; no value is lost or duplicated |
| Grouping.InsertLookup | js/PatternFinder.js:157-169 | `partition.get(k).push(v)` after an optional `set` appends v to k's group and changes no other group |
| Grouping.InsertShape | js/PatternFinder.js:157-169 | inserting keeps keys distinct and groups non-empty |
| Grouping.ValuesOfAscending | js/PatternFinder.js:145-170 | grouping keeps the relative order of values, so ascending starts stay ascending in every child list |
| PatternFinder.PatternFinder.constructor | js/PatternFinder.js:36-39 | empty trace and no frames |
| PatternFinder.PatternFinder.CreateTrace | js/PatternFinder.js:279-285 | the stored and returned trace is `enter:root`, the raw trace, then `exit:root`; recorded frames unchanged |
| PatternFinder.AllStarts | js/PatternFinder.js:71-79 | the seed list holds every index from 0 to `trace.length - 2`, ascending |
| PatternFinder.AllStartsInv | js/PatternFinder.js:71-79 | the seed list is a well-formed pointer list at offset 0 and depth 0 |
| PatternFinder.PatternFinder.FindPatterns | js/PatternFinder.js:71-79 | appends exactly the frames the recursion records for the wrapped trace, trace unchanged |
| PatternFinder.PatternFinder.ProcessPointerList | js/PatternFinder.js:81-257 | records exactly `Process(...)`'s frames and returns its intervals; the early return for short lists or offset past the maximum, the pattern case and the extension case follow the source branch for branch |
| PatternFinder.Occurrences | js/PatternFinder.js:111-130 | occurrence i is the interval `[list[i], list[i] + offset]` |
| PatternFinder.Survivors | js/PatternFinder.js:132-134 | a start is overwritten with `INTERVAL_DROPPED` exactly when it is within `offset` of a neighbour; other starts stay |
| PatternFinder.ClusterOccurrences | js/PatternFinder.js:104-137 | the cluster loop emits the squished occurrences, its span accumulator is their total length, and the array ends as `Survivors` |
| PatternFinder.ClusterVisit | js/PatternFinder.js:112-136 | one pass computes `nextInCluster`, emits at most one interval, adds its length to the span and drops the start if clustered |
| PatternFinder.ClusterAdvance | js/PatternFinder.js:112-136 | one pass keeps "emitted plus pending" equal to the squished occurrences |
| PatternFacts.ClusterCover | js/PatternFinder.js:104-137 | for ascending starts the cluster intervals are separated, cover exactly the occurrences' points and are no more than there are starts |
| PatternFacts.SurvivorEmitted | js/PatternFinder.js:117-122 | a start that survives collapse is isolated and emits its own interval `[s, s + offset]` |
| PatternFacts.ClusterTouching | js/PatternFinder.js:114 | starts exactly `offset` apart form one cluster: `[s, s+4, s+8]` at offset 4 give one interval and all three are dropped |
| PatternFacts.ClusterApart | js/PatternFinder.js:114-122 | starts one more than `offset` apart are not clustered: `[s, s+5, s+10]` at offset 4 give three intervals and no start is dropped |
| PatternFinder.PatternFinder.PartitionList | js/PatternFinder.js:142-170 | the partition loop builds `GroupByKey(Extension(...))`: dropped starts skipped, a depth-0 start whose next event is an exit discarded, the others pushed under the next event |
| PatternFinder.ExtensionSnoc | js/PatternFinder.js:145-170 | one more start appends its (next event, start) pair unless it is dropped or leaves its base frame |
| PatternFacts.ExtensionSound | js/PatternFinder.js:145-170 | every pushed pair is a kept start of the list, keyed by the event after its body, that stays inside its frame |
| PatternFacts.ExtensionComplete | js/PatternFinder.js:145-170 | every kept start that stays in its frame is pushed under the event after its body |
| PatternFacts.PartitionSound | js/PatternFinder.js:143-170 | every start in the group of event e is a kept start whose next event is e |
| PatternFacts.PartitionComplete | js/PatternFinder.js:143-170 | every kept start that stays in its frame lands in the group of the event after its body |
| PatternFinder.PartitionChildren | js/PatternFinder.js:158-166 | every child list is a well-formed pointer list at offset + 1 with depth changed by +1 on enter and -1 on exit, never negative, ascending |
| PatternFinder.ExtendGood | js/PatternFinder.js:158-163 | a good start extended by one event that keeps its height non-negative stays good |
| PatternFinder.SurvivorsMarked | js/PatternFinder.js:132-134 | cluster collapse keeps a well-formed list well-formed up to the dropped markers |
| PatternFinder.BodySnoc | js/PatternFinder.js:142-158 | extending a good start by one offset appends the event at its new end, the partition key, to its body |
| PatternFinder.KeptShare | js/PatternFinder.js:55-59 | any two kept starts of a list with a common subtrace carry the same body |
| PatternFinder.ChildShared | js/PatternFinder.js:145-169 | the starts pushed under one key share a body one event longer: the parent's common body followed by the key |
| PatternFinder.PartitionShared | js/PatternFinder.js:142-170 | every child list of a list with a common subtrace has a common subtrace one event longer |
| PatternFinder.SurvivorsShared | js/PatternFinder.js:132-134 | cluster collapse only overwrites starts with the marker, so the kept starts still share the body |
| PatternFinder.AllStartsShared | js/PatternFinder.js:71-79 | the seed list's starts share the empty body |
| PatternFinder.PatternFinder.ProcessPartition | js/PatternFinder.js:177-184 | processes every child in first-key order, appending their frames and concatenating their intervals |
| PatternFinder.PatternFinder.ExtendList | js/PatternFinder.js:142-184 | the extension loop followed by the loop over the partition records and returns `Extend(...)` |
| PatternFinder.PatternFinder.ConcludePattern | js/PatternFinder.js:186-256 | sorts and squishes the extended intervals, measures their intersection with the own intervals, pushes the frame iff `4 * intersect < 3 * span`, and returns squished-extended then own intervals |
| PatternFacts.SortByLoSpec | js/PatternFinder.js:190-192 | the sort by start orders by `lo` and is a permutation |
| PatternFacts.InsertByLoSpec | js/PatternFinder.js:190-192 | one insertion step keeps order and adds exactly one interval |
| PatternFacts.FindSound | js/PatternFinder.js:71-79 | every frame found in a wrapped trace has length between 4 and 200, lies in the trace, has a balanced body, and that body occurs after `count >= 2` ascending starts of the trace, the first its own start |
| PatternFacts.ProcessSound | js/PatternFinder.js:81-257 | every frame one call on a list with a common subtrace records is sound in that sense: its body is that subtrace extended, repeated after `count` ascending starts |
| PatternFacts.PatternFrameSound | js/PatternFinder.js:96-99 | the frame of a pattern-case list is `(list[0], list[0] + offset, list.length)` with a balanced body, and the list's starts are `count` ascending occurrences of that body |
| PatternFacts.PatternCaseFrames | js/PatternFinder.js:177-248 | the pattern case records its children's frames, then at most its own frame |
| PatternFacts.NothingExtendsRecorded | js/PatternFinder.js:246-248 | a pattern that nothing longer extends is always recorded |
| PatternFacts.CoveredRejected | js/PatternFinder.js:209-248 | a pattern whose own intervals lie inside what extends it is never recorded |
| PatternFacts.FindNothing | js/PatternFinder.js:71-86 | a trace with no events of its own yields no frames |
| Frames.At | js/filters/PartialPatternFilter.js:72 | reading the trace past its end gives `undefined` (no event), otherwise the event at that index |
| Frames.MaxLength | js/filters/PartialPatternFilter.js:63-65 | no frame's body is longer than the bound on the filters' recursion |
| Frames.KeepValidSpec | js/filters/SubPatternFilter.js:58-62 | the closing loop keeps exactly the frames whose flag is set |
| Frames.KeepValidConcat | js/filters/SubPatternFilter.js:58-62 | keeping valid frames distributes over concatenation, so input order is kept |
| Frames.KeepAllValid | js/filters/SubPatternFilter.js:58-62 | with every flag set, nothing is dropped |
| Frames.Clear | js/filters/SubPatternFilter.js:89 | clearing flags changes only the flag, and only at the named positions |
| Frames.ClearTwice | js/filters/SubPatternFilter.js:89 | clearing twice is clearing the union, and a flag is never set |
| Rotate.Init | js/Filters.js:12-37 | `orderedStart` is the split point whose following line is strictly smallest, earliest on ties, `length` when the first body line is already minimal; `index` starts there |
| Rotate.OrderedStartSpec | js/Filters.js:17-36 | the chosen point satisfies that characterisation |
| Rotate.OrderedStartUnique | js/Filters.js:17-36 | at most one point satisfies it, so the rotation point is canonical |
| Rotate.BestUpToSpec | js/Filters.js:21-34 | after scanning up to n the loop holds the best split point below n |
| Rotate.InitStep | js/Filters.js:21-34 | one pass of init's loop: the split test is "height 0", the comparison uses the line, and the height follows enter/exit |
| Rotate.Increment | js/Filters.js:39-44 | only the index changes, and it stays in 1..length |
| Rotate.IncrementRemaining | js/Filters.js:39-44 | an increment reaches the rotation point exactly when one step was left, and otherwise takes one step off |
| Rotate.IncrementCycle | js/Filters.js:39-44 | from its rotation point a pattern first returns there after exactly `length` increments |
| Rotate.RotateFilter.constructor | js/Filters.js:49-53 | trace and frames kept, nothing filtered yet |
| Rotate.RotateFilter.Filter | js/Filters.js:55-70 | builds one pattern per frame at its rotation point and pushes what `filterR` pushes for them; nothing for no frames |
| Rotate.FilterNothing | js/Filters.js:55-58 | with no frames nothing is pushed |
| Rotate.RotateFilter.FilterList | js/Filters.js:72-110 | pushes exactly the frames of `FilterR(...)`: a lone pattern's frame, else the fold of the completed patterns, then every group's result |
| Rotate.RotateFilter.SortPatterns | js/Filters.js:78-93 | after the increment, completed patterns are those back at their rotation point, in order; the rest are grouped by the trace line at their position |
| Rotate.SortStep | js/Filters.js:80-93 | one pass either completes the pattern or pushes it under its key |
| Rotate.RotateFilter.FoldCompleted | js/Filters.js:95-105 | the first completed frame gets the merge of all completed frames' intervals and the span of the result |
| Rotate.RotateFilter.FilterPartition | js/Filters.js:107-109 | filterR on every group in first-key order |
| Rotate.CalculateSpan | js/Filters.js:112-119 | the sum of the interval lengths |
| Rotate.ChildrenStaged | js/Filters.js:80-93 | every group holds patterns one step further on, so the recursion terminates |
| RotateFacts.LoneEmitted | js/Filters.js:73-76 | a single pattern's frame is pushed unchanged |
| RotateFacts.ExactlyOnce | js/Filters.js:72-110 | every input frame is pushed alone or folded into a pushed frame, exactly once |
| RotateFacts.FilterAllOnce | js/Filters.js:55-110 | over the whole filter the pushed frames and folded members are a permutation of the input frames, and no more frames are pushed than came in |
| RotateFacts.SplitFrames | js/Filters.js:80-93 | every pattern of the list either completes or goes into one group, and no frame changes |
| RotateFacts.FoldsAligned | js/Filters.js:82-105 | every fold joins patterns of one length, each back at its rotation point |
| RotateFacts.FoldedUnion | js/Filters.js:95-105 | the folded frame keeps its start and end; its intervals are separated, cover exactly the union of all folded frames' intervals, and its span is the summed length of those merged intervals |
| RotateFacts.MergeFromUnion | js/Filters.js:97-100 | merging the completed frames' intervals one by one gives a separated list covering their union |
| RotateFacts.AdvanceShift | js/Filters.js:39-44 | k increments of the incremented pattern are k + 1 increments of the pattern |
| RotateFacts.AdvanceIndex | js/Filters.js:39-44 | up to `length` increments move the index that many positions on, wrapping from the last position to the first once |
| RotateFacts.AdvanceHome | js/Filters.js:39-44 | a pattern at its rotation point is unchanged after `length` increments |
| RotateFacts.CompletedOrigin | js/Filters.js:79-85 | every completed pattern is the increment of a list pattern that came back to its rotation point |
| RotateFacts.KeyedOrigin | js/Filters.js:79-93 | every keyed pattern is the increment of a list pattern that did not complete, keyed by `trace[start + index]` |
| RotateFacts.GroupMemberOrigin | js/Filters.js:79-93 | every member of a group is such an increment and reaches the group's key |
| RotateFacts.AgreeShift | js/Filters.js:79-93 | two patterns whose increments reach the same line, and agree for n increments after that, agree for n + 1 |
| RotateFacts.HomeShift | js/Filters.js:39-44 | a pattern one step further from its rotation point than its increment arrives there at the same place |
| RotateFacts.LiftOne | js/Filters.js:79-93 | a pattern whose increment did not complete needs one more increment than that increment to come home, and comes home the same |
| RotateFacts.LiftPair | js/Filters.js:79-93 | two such patterns whose increments share a group and agree from there share the steps home and agree one increment longer |
| RotateFacts.GroupReached | js/Filters.js:79-109 | patterns reached together inside a group were reached together from the list the group came from |
| RotateFacts.CompletedOne | js/Filters.js:79-85 | a list pattern that completes in this call is one increment from home |
| RotateFacts.CompletedTogether | js/Filters.js:79-105 | two completed patterns were reached together from the list |
| RotateFacts.HeadTogether | js/Filters.js:95-105 | the fold of the completed patterns joins patterns reached together from the list |
| RotateFacts.GroupFold | js/Filters.js:107-109 | a fold pushed by the call on a group joins patterns reached together from the parent list |
| RotateFacts.FoldsTogether | js/Filters.js:72-110 | every fold filterR pushes, in any of its calls, joins patterns reached together from its list |
| RotateFacts.ChildrenTogether | js/Filters.js:107-109 | the same for every fold pushed by the calls on the partition |
| RotateFacts.GroupsTogether | js/Filters.js:107-109 | the same for the calls on the first n groups |
| RotateFacts.AgreeOneBody | js/Filters.js:79-90 | patterns at their rotation points of one length that agree for `length - 1` increments read the same trace line at each of those positions |
| RotateFacts.ReachedOneBody | js/Filters.js:55-110 | two patterns reached together from a list of patterns at their rotation points are both in that list and read one body from there |
| RotateFacts.FilteredRotations | js/Filters.js:72-110 | over a list of patterns at their rotation points, every fold joins only patterns of the list that read one body from their rotation points |
| RotateFacts.FoldsRotations | js/Filters.js:55-110 | filter folds a frame into another only when both are input patterns of one length that read the same line at each of the first `length - 1` positions from their rotation points |
| SubPattern.Increment | js/filters/SubPatternFilter.js:10-15 | only the index changes, and it stays in 1..length |
| SubPattern.IncrementRemaining | js/filters/SubPatternFilter.js:10-15 | an increment returns to the starting point exactly when one step was left |
| SubPattern.IncrementCycle | js/filters/SubPatternFilter.js:10-15 | from its starting point a reading first returns there after exactly `length` increments |
| SubPattern.SubPatternFilter.constructor | js/filters/SubPatternFilter.js:17-22 | trace kept, no frames, readings or output |
| SubPattern.SubPatternFilter.CreateRotatedPatterns | js/filters/SubPatternFilter.js:25-49 | keeps the frames and appends `Readings(...)`: one reading per split point, frame by frame |
| SubPattern.SubPatternFilter.ReadFrame | js/filters/SubPatternFilter.js:28-47 | the inner loop appends the readings of one frame in split-point order |
| SubPattern.ReadingsMeaning | js/filters/SubPatternFilter.js:25-49 | a reading is made iff position j of frame k is a split point (depth over body positions 1..j is 0); it starts at j + 1, wrapping to 1 when j is the length |
| SubPattern.ReadStep | js/filters/SubPatternFilter.js:32-37 | the depth counter follows enter/exit one body line at a time |
| SubPattern.ReadingsStaged | js/filters/SubPatternFilter.js:40-45 | every reading made starts at its starting point with a full cycle ahead |
| SubPattern.SubPatternFilter.Filter | js/filters/SubPatternFilter.js:51-63 | on the readings `createRotatedPatterns` made for the current frames: no readings, nothing changes; otherwise flags become `SubFiltered(...)` and the output gains exactly the still-valid frames in order |
| SubPattern.SubPatternFilter.PushValid | js/filters/SubPatternFilter.js:58-62 | appends exactly the frames whose flag is set, in order |
| SubPattern.SubPatternFilter.FilterR | js/filters/SubPatternFilter.js:65-97 | the flags become `Clear(old, Invalidated(...))`: what this call clears plus what its groups clear, nothing else changes |
| SubPattern.SubPatternFilter.SortPatterns | js/filters/SubPatternFilter.js:66-80 | completed readings are those back at their starting point, in order; the rest are grouped by the trace line at `start + index` |
| SubPattern.SortStep | js/filters/SubPatternFilter.js:68-80 | one pass either completes the reading or pushes it under its key |
| SubPattern.SubPatternFilter.ClearContained | js/filters/SubPatternFilter.js:82-92 | clears exactly the frames of completed readings hit by a reading of a different frame |
| SubPattern.SubPatternFilter.ClearIfContained | js/filters/SubPatternFilter.js:83-91 | clears the completed reading's frame iff some reading of a different frame has intervals containing it |
| SubPattern.SubPatternFilter.FilterPartition | js/filters/SubPatternFilter.js:94-96 | filterR on every group in first-key order |
| SubPattern.ChildrenStaged | js/filters/SubPatternFilter.js:68-80 | every group holds readings one step further on, so the recursion terminates |
| SubPattern.AdvanceShift | js/filters/SubPatternFilter.js:10-15 | advancing an incremented reading k times is advancing the reading k + 1 times |
| SubPattern.CompletedOrigin | js/filters/SubPatternFilter.js:68-72 | every completed reading is a reading of the list whose increment brought it back to its starting point |
| SubPattern.KeyedOrigin | js/filters/SubPatternFilter.js:68-79 | every reading put into the partition is a reading of the list whose increment did not bring it back, filed under the trace line it now reaches |
| SubPattern.GroupMemberOrigin | js/filters/SubPatternFilter.js:68-79 | every reading of a group is a reading of the list whose increment did not bring it back, and it reaches the group's key |
| SubPatternFacts.AgreeShift | js/filters/SubPatternFilter.js:76-96 | two readings that reach the same trace line after one increment, and agree for n increments after that, agree for n + 1 increments |
| SubPatternFacts.GroupMet | js/filters/SubPatternFilter.js:76-96 | a frame followed position by position inside a group is followed the same way in the list the group came from, one increment longer |
| SubPatternFacts.ClearedMeaning | js/filters/SubPatternFilter.js:82-92 | one call clears frame x iff a reading of x completes in it and a reading of a different frame in the list has intervals containing x's |
| SubPatternFacts.CompletedAtLength | js/filters/SubPatternFilter.js:68-73 | a reading completes in the call that makes its `length`-th increment, back at its starting point |
| SubPatternFacts.InvalidatedSound | js/filters/SubPatternFilter.js:65-97 | every frame filterR clears, at any depth, has a reading in the call's list that a reading of a different, containing frame in that list follows position by position: both reach the same trace line at each increment until the first one is back at its starting point |
| SubPatternFacts.SubFilteredSpec | js/filters/SubPatternFilter.js:51-97 | filter keeps the frames and their order, changes only flags and never sets a flag. It clears only a frame that is contained in a different frame and has a reading that a reading of that containing frame follows, trace line by trace line, over the whole rotation |
| SubPatternFacts.FilterOutput | js/filters/SubPatternFilter.js:58-62 | exactly the still-valid frames are output, and each of them is an input frame the filter did not clear |
| PartialPattern.Inner | js/filters/PartialPatternFilter.js:29-42 | partial readings of a frame are numbered on consecutively, belong to that frame with its length, are not whole, and start inside the body no later than the scan position |
| PartialPattern.FrameReadings | js/filters/PartialPatternFilter.js:24-42 | a frame's readings are numbered consecutively from the next free id |
| PartialPattern.FrameReadingsShape | js/filters/PartialPatternFilter.js:24-42 | a frame's readings all belong to it with its length; the first is the whole reading at 0, the others are partial and start strictly inside the body |
| PartialPattern.ScanStep | js/filters/PartialPatternFilter.js:30-35 | the depth counter follows enter/exit one body line at a time |
| PartialPattern.PartialsIds | js/filters/PartialPatternFilter.js:18-44 | reading ids are their places in the list, so no two readings are the same object |
| PartialPattern.PartialsStaged | js/filters/PartialPatternFilter.js:18-44 | every reading made names a frame, starts at a non-negative index and is no longer than the longest frame |
| PartialPattern.InnerMeaning | js/filters/PartialPatternFilter.js:29-42 | the scan up to position i makes a partial reading starting at s iff s is an inner split point with 1 <= s <= i |
| PartialPattern.HasConcat | js/filters/PartialPatternFilter.js:21-42 | a whole or partial reading of a frame is in two reading lists joined end to end iff it is in one of them |
| PartialPattern.InnerReadings | js/filters/PartialPatternFilter.js:29-42 | the inner scan of frame k makes no whole reading, and a partial one of frame j at s iff j is k and s is an inner split point short of the length |
| PartialPattern.FrameReadingsMeaning | js/filters/PartialPatternFilter.js:24-42 | a frame's readings hold a whole reading of frame j iff j is that frame, and a partial one at s iff s is also a split point of it |
| PartialPattern.FrameReadingsRenumbered | js/filters/PartialPatternFilter.js:24-42 | which partial readings a frame gets does not depend on the ids they are numbered from |
| PartialPattern.WholeOnlyIf | js/filters/PartialPatternFilter.js:18-27 | no whole reading names a frame past the ones scanned |
| PartialPattern.WholeIf | js/filters/PartialPatternFilter.js:18-27 | each scanned frame has a whole reading |
| PartialPattern.PartialsFrom | js/filters/PartialPatternFilter.js:18-44 | the partial readings of frame k in the full list are exactly those its own scan makes |
| PartialPattern.PartialsFrames | js/filters/PartialPatternFilter.js:18-44 | the readings of the first n frames name only those frames |
| PartialPattern.PartialsWhole | js/filters/PartialPatternFilter.js:18-27 | there is a whole reading of frame k iff k is one of the frames scanned |
| PartialPattern.PartialsMeaning | js/filters/PartialPatternFilter.js:18-44 | there is a partial reading of frame k starting at s iff k was scanned and s is an inner split point of it (body positions 1..s form a complete call stack, s short of the length) |
| PartialPattern.PartialsNewest | js/filters/PartialPatternFilter.js:21-42 | the newest frame's partial readings are exactly those of its own scan |
| PartialPattern.PartialsEarlier | js/filters/PartialPatternFilter.js:21-42 | scanning the newest frame adds no partial reading of any other frame |
| PartialPattern.PartialPatternFilter.constructor | js/filters/PartialPatternFilter.js:10-15 | trace kept, no frames, readings or output |
| PartialPattern.PartialPatternFilter.CreatePartialPatterns | js/filters/PartialPatternFilter.js:18-44 | keeps the frames and appends `Partials(...)`: per frame, the whole reading then one per inner split point |
| PartialPattern.PartialPatternFilter.ReadFrame | js/filters/PartialPatternFilter.js:21-42 | one outer pass appends that frame's readings |
| PartialPattern.PartialPatternFilter.Filter | js/filters/PartialPatternFilter.js:46-58 | on the readings `createPartialPatterns` made for the current frames on a new filter: no readings, nothing changes; otherwise flags become `PartialFiltered(...)` and the output gains exactly the still-valid frames in order |
| PartialPattern.PartialPatternFilter.PushValid | js/filters/PartialPatternFilter.js:53-57 | appends exactly the frames whose flag is set, in order |
| PartialPattern.PartialPatternFilter.FilterR | js/filters/PartialPatternFilter.js:60-94 | with offset advanced by one, the flags become `Clear(old, Invalidated(...))` |
| PartialPattern.PartialPatternFilter.SortPatterns | js/filters/PartialPatternFilter.js:64-77 | readings past their length leave, whole ones into `completed`; the rest are grouped by `trace[partialStart + offset]` |
| PartialPattern.SortStep | js/filters/PartialPatternFilter.js:64-77 | one pass completes, drops or pushes the reading under its key |
| PartialPattern.KeyedMembers | js/filters/PartialPatternFilter.js:64-77 | the partition receives exactly the readings still within their length, each under `trace[partialStart + offset]` |
| PartialPattern.CompletedMembers | js/filters/PartialPatternFilter.js:65-69 | completed readings are exactly the whole readings past their length |
| PartialPattern.ChildrenStaged | js/filters/PartialPatternFilter.js:64-77 | groups exist only while the offset is within the longest length, so the recursion terminates |
| PartialPattern.PartialPatternFilter.ClearContained | js/filters/PartialPatternFilter.js:79-89 | clears exactly the frames of completed readings hit by another reading of the list |
| PartialPattern.PartialPatternFilter.ClearIfContained | js/filters/PartialPatternFilter.js:80-88 | clears the completed reading's frame iff a reading other than itself (by identity, so possibly of the same frame) has intervals containing it |
| PartialPattern.PartialPatternFilter.FilterPartition | js/filters/PartialPatternFilter.js:91-93 | filterR on every group at the advanced offset, in first-key order |
| PartialPatternFacts.ClearedMeaning | js/filters/PartialPatternFilter.js:63-89 | at the advanced offset a call clears frame x iff a whole reading of x has run past its length and another reading of the list has intervals containing x's |
| PartialPatternFacts.Dropped | js/filters/PartialPatternFilter.js:65-69 | a partial reading past its length neither completes nor enters the partition |
| PartialPatternFacts.GroupMembers | js/filters/PartialPatternFilter.js:72-76 | every reading of every group is a reading of the list still within its length, and it reaches the group's key at that offset |
| PartialPatternFacts.InvalidatedSound | js/filters/PartialPatternFilter.js:60-94 | every frame filterR clears, at any depth, has a whole reading in the call's list. Another reading of that list, of a frame whose intervals contain its own, reaches the same trace line as it at every later offset up to its length |
| PartialPatternFacts.PartialFilteredSpec | js/filters/PartialPatternFilter.js:46-94 | filter keeps the frames and their order, changes only flags and never sets a flag. It clears only a frame whose whole reading is matched, trace line by trace line at every offset from 1 to its length, by another reading of a frame whose intervals contain its own |
| Processor.Processor.constructor | js/Processor.js:10-13 | no function names, no processors |
| Processor.Processor.CreateRawEvents | js/Processor.js:28-37 | the raw events are the split lines of `data[start+1..end]`, `end - start` of them (none for an empty frame) |
| Processor.Processor.ProcessPatternData | js/Processor.js:15-26 | appends one fresh processor whose data is the frame's count, the machine's peak depth, the number of raw events and the finished calls; the function names are unioned in |
| Processor.Processor.GetPatterns | js/Processor.js:39-47 | each processor's data, in insertion order |
| Processor.PatternProcessor.constructor | js/Processor.js:49-58 | empty set, depth 0, length 0, empty stack and no finished calls |
| Processor.PatternProcessor.ProcessRawEvents | js/Processor.js:60-93 | the state becomes `Run(old, raws)` and `patternLength` the number of raw events |
| Processor.PatternProcessor.ProcessRawEvent | js/Processor.js:65-92 | one pass: the name is added; an enter pushes a call at index i with depth stack size + 1; an exit pops the top call, sets its end to i - 1 and finishes it; an unknown kind changes no stack; the peak is raised to the stack size |
| Processor.Run | js/Processor.js:65-92 | the stack height after n events is the start height plus the enters minus the exits |
| Processor.KindsDistinct | js/Processor.js:70-84 | no raw event is both an enter and an exit |
| ProcessorFacts.RunFunctions | js/Processor.js:67 | every function name read is collected and nothing else is added |
| ProcessorFacts.RunCounts | js/Processor.js:79-83 | one finished call per exit; the stack height is the enters minus the exits |
| ProcessorFacts.RunShaped | js/Processor.js:71-91 | open calls sit at depths 1, 2, …; every finished call has an end and a depth between 1 and `maxStackDepth` |
| ProcessorFacts.RunPeak | js/Processor.js:89-91 | `maxStackDepth` is at least every stack height reached and equals one of them (or its start value) |
| ProcessorFacts.StepNested | js/Processor.js:71-83 | one step keeps every open call's start and every finished call's body balanced |
| ProcessorFacts.RunNested | js/Processor.js:60-93 | from an empty machine every finished call was entered at `startIndex` and left at `endIndex + 1`, with a balanced body in between, so `startIndex <= endIndex + 1` |
| ProcessorFacts.BalancedBody | js/Processor.js:15-26 | for a balanced frame body no exit meets an empty stack; the stack ends empty with one finished call per enter, each properly nested |
| ProcessorFacts.NoStrayExitMeaning | js/Processor.js:79-81 | the precondition says exactly that no exit is read at stack height 0 |
| ProcessorFacts.OpenedDepth | js/Processor.js:28-37 | the raw events of a body count stack height as the trace events do |

## Left out

- Trace parsing: `split(":")` and the text form of events are not modelled. Events are the datatype `Enter(name)` / `Exit(name)`, and a line is rebuilt as `"enter:" + name` or `"exit:" + name` only where lines are compared. The "Bad event" console message for an unknown kind is not modelled. An unknown kind is kept as a `RawEvent` whose kind is neither, and it changes nothing but the name set and the peak.
- The driver: the `fs.readFile` / `execute` driver (js/PatternFinder.js:331-348), console logging, js/Renderer.js, render.js and data/processor.py are not part of this model. They are I/O and drawing.
- Floating point: the 0.75 ratio is the integer comparison `4 * inter < 3 * span`. This is the same test for the positive spans that occur.
- `Array.prototype.sort` (js/PatternFinder.js:190-192) is modelled as an insertion sort by `lo`. Like `Array.prototype.sort`, which is required to be stable, it keeps intervals with equal `lo` in their input order, so the model's sorted list is the source's.
- Aliasing: `mergeIntervals` mutates `hi` on interval objects shared with its inputs (js/utils.js:21, 33, 41, 61, 76). Intervals are values here, so the later effect of that aliasing on the input lists is not captured. The returned list is.
- Frame references: frames are addressed by their place in the frame list, and a reading's object identity is its `id` (its place in the reading list). Two filter entries that are the same JavaScript object are not distinguished beyond that.
- Shared state: the filters' `trace` and frames are fields of one class. The shared-prototype trace field (js/Filters.js:60) is a plain field. Updates of `intervals` / `span` on frames shared with other stages are modelled as values the filter pushes.
- Rotate.RotateFilter.Filter: requires every frame to be non-empty and inside the trace. For a zero-length frame the source only logs, and `filterR` then need not terminate, because such a pattern never returns to its rotation point; a frame outside the trace would read `undefined`.
- SubPattern.SubPatternFilter.CreateRotatedPatterns: requires every frame's body to lie in the trace. Outside it the source would call `split` on `undefined` and throw.
- PartialPattern.PartialPatternFilter.CreatePartialPatterns: requires every scanned line to lie in the trace, for the same reason. The filter's key `trace[partialStart + offset]` is copied literally (the frame's start is not added, js/filters/PartialPatternFilter.js:72) and may read past the trace, which is modelled as `undefined`.
- SubPattern.SubPatternFilter.Filter and PartialPattern.PartialPatternFilter.Filter: each requires its readings to be exactly those its create method makes for the current frames (`Readings(trace, patternFrames, |patternFrames|)`, and `Partials(trace, patternFrames, |patternFrames|, 0)` on a new filter). Readings address frames by their place in the frame list. In the source they hold the frame objects themselves, so readings left over from an earlier create call would still point at the old frames. That case, a second create call on a filter that already holds readings, is not modelled.
- SubPatternFacts.SubFilteredSpec: proves only one direction: a cleared frame is contained in a different frame whose reading followed it through every group. The converse does not hold as it stands: if the containing frame's reading completes first, it leaves the list and the frame is not cleared. The exact condition is per call, and `SubPatternFacts.ClearedMeaning` states it: the frame's reading completes while the containing reading is still in the list. A statement over the whole recursion is not proved.
- PartialPatternFacts.PartialFilteredSpec: proves the same one direction for the partial filter.
- Events.LexLess: compares names character by character as Unicode code points. JavaScript's `<` on strings (js/Filters.js:23) compares UTF-16 code units, so the two orders can differ for names with characters outside the Basic Multilingual Plane.
- Processor.PatternProcessor.ProcessRawEvents: requires that no exit meets an empty stack. There the source's `pop()` returns `undefined` and setting its `endIndex` throws.
- Processor.Processor.ProcessPatternData: requires the frame's body to lie in the data, for the same reason as `createRawEvents`.
- Processor.PatternProcessor.constructor: `count` starts at 0; the source leaves it `undefined` until `processPatternData` sets it.
- PatternFinder.PatternFinder.FindPatterns: requires a root-wrapped, balanced trace. The source states that it assumes this; on other traces it may index past the end.
- Termination measures: the filters' recursion depth is bounded by a ghost `steps` / `bound` pair (the longest frame). That pair exists only in the proof.
