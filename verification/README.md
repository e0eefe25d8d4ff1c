# Verified model of a browser engine's core

This project models the parts of the engine whose correctness spans many functions, and proves what they are for.
Each part is stated twice: as functions on values that say what is computed, and, where the engine changes things in
place, as classes and methods with loops proved equal to those functions. The theorems are about the functions.

| part | files | main results |
|---|---|---|
| Flexible boxes (sections 9.3 and 9.7 of CSS Flexible Box Layout Level 1) | `Flex*.dfy` | on every published plan growing lines never overflow and shrinking lines never underflow, elastic lines are filled exactly, the freezing loop ends within n passes, space is divided in proportion to the items' factors, lines are the unique greedy partition and are packed and aligned as asked, replanning keeps the main axis |
| Script heap | `Arena.dfy`, `Heap*.dfy`, `Collector.dfy` | no handle is issued twice or revived; a collection keeps exactly what is reachable through the records' fields, leaves none of them dangling, and fails exactly on a reachable stale reference |
| HTML tokenizer (section 13.2.5 of the WHATWG HTML Standard) | `Tokenizer*.dfy` | chunk boundaries can be observed exactly when an incomplete token outgrows the token limit; a document that was written out is tokenized to exactly what was written |
| DOM and script batches (section 4.2.3 of the WHATWG DOM Standard) | `Dom*.dfy` | every mutation keeps a forest and is refused exactly when its result would not be one of legal shape; every script command makes exactly its own change and batches are all or nothing; the validator decides exactly the links, lists and cycles it looks at, and every reachable arena passes; snapshots are in document order |
| Object model (sections 6.1.7.3, 10.1.6.3, 10.4.2 and 10.1.2.1 of ECMA-262) | `Object*.dfy`, `Prototypes.dfy`, `Realm.dfy` | what is final stays final over any sequence of operations; prototype chains stay acyclic; truncation stops exactly at the highest fixed element |
| Scopes and statements (sections 13 to 15 of ECMA-262) | `Script*.dfy`, `EarlyErrors.dfy`, `Interpreter.dfy`, `ScopeSafety.dfy`, `Execution.dfy` | the interpreter gives an answer exactly if inference rules derive it; what the early-error checks accept, it executes without binding faults or stray completions |
| Intrinsic sizes | `Intrinsic*.dfy` | the cache answers what the uncached recursion answers; sizes have closed forms over children, words and lines; minimum never exceeds preferred exactly for styles that let no box have a negative outer size |

`dafny verify dfyconfig.toml` checks the whole project. `Outcomes.dfy`, `Ascii.dfy` and `Numbers.dfy` hold what the
parts share.

Conventions. Integers of fixed width are checked explicitly where the engine checks them. Handles are (index,
generation) pairs. In the scope part expressions are opaque: an oracle says, step by step, which bindings an
expression assigns, which functions it names, which accepted functions it calls and how it ends, so the theorems hold
for every behaviour of expressions; a fault ends the whole execution, and the theorem is that there is none. Property
values count as kept when they are the same value: strings of equal contents may come from different handles. In the
intrinsic sizes the engine's two order checks have an error of their own, so that it can be said that they never fire.

## Model

| member | source | states |
|---|---|---|
| `FlexResolve.GrowingLine` | layout/src/flex.rs:255-410 | a line with room to spare, whatever its items: every item ends at or above its hypothetical size and the line never exceeds its space, over all freezing passes and the fractional-factor rule |
| `FlexResolve.ShrinkingLine` | layout/src/flex.rs:255-410 | a line without room to spare whose sizes can be published, or on which no weight is negative: no item ends above its hypothetical size and the line never falls below its space |
| `FlexResolve.TargetsKeepTheirSign` | layout/src/flex.rs:255-410 | on every line, a resolved size is negative exactly where the hypothetical size is |
| `FlexResolve.PublishableLineKeepsBounds` | layout/src/flex.rs:479-528 | every line without a negative size, as publication demands, keeps the growing or shrinking bounds, with no condition on its inputs |
| `FlexResolve.PlainLimitsArePublishable` | layout/src/flex.rs:621-628 | items without a negative maximum make lines without negative weights or sizes, so these lines keep their bounds |
| `FlexResolve.ElasticLineIsFilled` | layout/src/flex.rs:255-410 | a growing line whose elastic items (no maximum, minimum at most the base) have factors summing to one or more is filled to the app unit |
| `FlexResolve.PassFreezesAnItem` | layout/src/flex.rs:292-404 | every pass freezes at least one more item and changes nothing about an item but its target and frozen flag |
| `FlexResolve.PassesBounded` | layout/src/flex.rs:292-308 | full passes never outnumber the items, so the iteration guard never fires |
| `FlexResolve.SharesAddUp` | layout/src/flex.rs:354-365 | the shares of a pass, taken by cumulative division, add up to exactly the space handed out |
| `FlexResolve.SharesHaveOneSign` | layout/src/flex.rs:354-365 | with non-negative weights no share has a sign other than the space handed out |
| `FlexResolve.PassTargets` | layout/src/flex.rs:333-404 | after a pass the targets sum to the tentative sizes plus the shared space plus the clamping violations |
| `FlexResolve.GrowPass` | layout/src/flex.rs:297-404 | a pass over a growing line keeps the invariant that frozen items are at or above their hypothetical size and the line fits |
| `FlexResolve.ShrinkPass` | layout/src/flex.rs:297-404 | the mirror invariant for a pass over a shrinking line |
| `FlexResolve.GrowResolves` | layout/src/flex.rs:297-404 | the invariant holds at the end of the freezing loop, with every item frozen |
| `FlexResolve.ShrinkResolves` | layout/src/flex.rs:297-404 | the mirror statement for shrinking lines |
| `FlexResolve.GrowFills` | layout/src/flex.rs:297-404 | elastic items stay flexible until the line is exactly filled |
| `FlexShares.PassIsProportional` | layout/src/flex.rs:333-365 | every pass moves each unfrozen item from its base size by its part of the space: in proportion to its grow factor, or to its shrink factor times its base size, to within one app unit; the statement uses the item's own fields |
| `FlexShares.EveryItemEnds` | layout/src/flex.rs:292-404 | every item ends at its hypothetical size, or at its proportional part of the space that some pass shares, clamped to its limits |
| `FlexShares.LinesAreDividedFairly` | layout/src/flex.rs:255-410 | so does every item of every line without negative claims, items that cannot flex at their hypothetical size |
| `FlexShares.UnclampedLine` | layout/src/flex.rs:255-410 | where no clamp bites, one pass decides the line: every flexible item has its proportional part of all the free space |
| `FlexPlacement.ClampIsNearest` | layout/src/flex.rs:621-628 | a clamped size is the nearest one within the limits and never negative by itself; of limits that cross, the minimum wins |
| `FlexResolver.FlexWorkBudget.Charge` | layout/src/flex.rs:78-88 | a charge succeeds exactly when it fits the limit, and otherwise changes nothing |
| `FlexResolver.SumItemSizes` | layout/src/flex.rs:571-579 | the loop with checked addition is the occupied extent, gaps included, or an overflow |
| `FlexResolver.RemainingFreeSpace` | layout/src/flex.rs:556-569 | the loop over frozen targets and unfrozen bases is the free space |
| `FlexResolver.SumUnfrozen` | layout/src/flex.rs:581-588 | sums factors or weights of the unfrozen items |
| `FlexResolver.Start` | layout/src/flex.rs:267-288 | resets every item in place and freezes those that cannot flex at their hypothetical size |
| `FlexResolver.ShareOut` | layout/src/flex.rs:354-365 | writes in place exactly the targets of cumulative division |
| `FlexResolver.ClampTargets` | layout/src/flex.rs:367-390 | clamps the unfrozen targets in place and records each violation and their sum |
| `FlexResolver.Settle` | layout/src/flex.rs:367-404 | clamps and freezes in place the items that the sign of the total violation selects |
| `FlexResolver.FreeToShare` | layout/src/flex.rs:333-341 | the space a pass hands out, fractional factors below one included |
| `FlexResolver.Turn` | layout/src/flex.rs:297-404 | one turn of the loop is one pass, or the end of the resolution, within a counted amount of work |
| `FlexResolver.FreezeLoop` | layout/src/flex.rs:297-404 | the loop in place reaches the resolution in at most as many passes as items and within a quadratic amount of work |
| `FlexResolver.ResolveFlexibleLengths` | layout/src/flex.rs:255-410 | the method changes the items in place to the resolved line; it fails only by overflow or when the budget cannot cover 7n²+10n |
| `FlexLines.BreaksAreGreedy` | layout/src/flex.rs:201-234 | lines are contiguous, cover the items, fit, and could not take the next item |
| `FlexLines.GreedyIsUnique` | layout/src/flex.rs:201-234 | there is only one greedy maximal partition |
| `FlexLines.BuildLines` | layout/src/flex.rs:201-253 | the loop builds that partition, or reports overflow, or a line limit that the partition really exceeds |
| `FlexLines.SurplusIsExact` | layout/src/flex.rs:435-464 | surplus cross space is handed out to the app unit |
| `FlexLines.SurplusIsFair` | layout/src/flex.rs:435-464 | every line gets the whole quotient and at most one unit more |
| `FlexLines.StretchLines` | layout/src/flex.rs:435-464 | the in-place loop hands out the surplus so that lines and gaps sum to the container |
| `FlexLines.ExtentWithGaps` | layout/src/flex.rs:611-619 | total size with the gaps between, or an overflow |
| `FlexLines.JustifyStaysInside` | layout/src/flex.rs:530-554 | with non-negative free space the initial offset and the spacing are non-negative and together fit in it |
| `FlexLines.JustifyPlaces` | layout/src/flex.rs:530-554 | where the free space goes: all after the last item, all before the first, as much before as after, or in equal spaces, to within one app unit a space |
| `FlexPlan.SortOrders` | layout/src/flex.rs:135-138 | sorting orders items by (order, source index) and is a permutation |
| `FlexPlan.OrderIsUnique` | layout/src/flex.rs:135-138 | with distinct source indices an unstable sort has one possible outcome |
| `FlexPlan.PlanPlacesEveryItem` | layout/src/flex.rs:108-195 | placements are the items in sorted order: each once, none invented |
| `FlexPlan.LineStaysInside` | layout/src/flex.rs:479-528 | on a line that leaves room, items do not overlap, start at or after zero and end at or before the line end |
| `FlexPlan.NaturalCrossIsTallest` | layout/src/flex.rs:412-434 | a line is as tall as its tallest item, or zero |
| `FlexPlan.DefiniteCrossSizeIsUsedUp` | layout/src/flex.rs:412-477 | a definite cross size that exceeds the lines is used up exactly and shrinks no line |
| `FlexPlan.ReplanningKeepsMainAxis` | layout/src/flex.rs:108-195 | changing only cross sizes repeats every line break, main size and main offset |
| `FlexPlan.ResolveCrossSizes` | layout/src/flex.rs:412-477 | the loops compute those line cross sizes, or overflow, or find the budget short of one pass over the items and two over the lines |
| `FlexPlan.CrossOffsets` | layout/src/flex.rs:466-476 | each line starts after the lines before it and their gaps |
| `FlexPlan.PlaceLine` | layout/src/flex.rs:479-528 | one line placed by running offsets equals the placement computed item by item, and is placed only if none of its sizes is negative |
| `FlexPlan.ResolveLines` | layout/src/flex.rs:150-153 | every line resolved in place equals its resolution as a value, within the work of the lines |
| `FlexPlan.PlaceAll` | layout/src/flex.rs:157-176 | all lines placed one after another |
| `FlexPlan.DefiniteMainExtent` | layout/src/flex.rs:179-195 | a definite main size is the main extent |
| `FlexPlan.SpansShareWork` | layout/src/flex.rs:150-153 | resolving the lines one by one never needs more work than one line with all the items may need, and there are at most as many lines as items |
| `FlexPlan.PublishedLinesKeepBounds` | layout/src/flex.rs:479-528 | lines of which every size can be published all keep their bounds, and no item on them was forced below zero |
| `FlexPlan.Publish` | layout/src/flex.rs:155-195 | cross sizes, placements and extents are those of the plan; it succeeds only if no resolved size is negative, and runs out of work only past three passes over the items and four over the lines |
| `FlexPlan.PlanFlexLayout` | layout/src/flex.rs:108-195 | the planner publishes exactly the plan with its extents, automatic ones included; on success every line keeps the growing or shrinking bounds and is divided in proportion to its items' claims, whatever the inputs, and an item forced below zero always means an error; it fails by overflow, by a line limit that the lines really exceed, or by a budget that cannot cover the sort, 7n²+10n and ten more passes |
| `FlexPlacement.LineIsPacked` | layout/src/flex.rs:479-554 | items of a line stand one after another at the gap and the justified share, and what is before, between and after them makes up the line |
| `FlexPlacement.ItemsAreAligned` | layout/src/flex.rs:491-518 | across its line an item has its size, or the line's if it stretches, within its limits, and stands at the start, at the end or in the middle to within one app unit |
| `FlexPlacement.StretchedFills` | layout/src/flex.rs:491-501 | an item that stretches and meets no limit fills its line |
| `FlexPlacement.LinesAreTallest` | layout/src/flex.rs:412-477 | lines are as tall as their tallest items, but for a single line in a container of definite size, or with room to share |
| `FlexPlacement.LinesStack` | layout/src/flex.rs:466-476 | lines stand below one another at the cross gap |
| `FlexPlacement.PlanPlacesLines` | layout/src/flex.rs:108-195 | every line of every plan is packed and aligned so, at its own offset, item by item |
| `Arena.InsertKeepsValid` | js/src/heap.rs:93-119 | inserting keeps the free list acyclic and equal to the set of tombstones, and the counters right |
| `Arena.SweepingKeepsValid` | js/src/heap.rs:166-196 | so does every stage of a sweep |
| `Arena.CountersAddUp` | js/src/heap.rs:198-209 | live + free + retired equals the slot count in every valid state |
| `Arena.SweepKeepsTheMarked` | js/src/heap.rs:166-196 | after a sweep a handle resolves exactly if it was marked, to the same value, and no mark is left |
| `Arena.InsertIssuesOneHandle` | js/src/heap.rs:93-119 | an insertion issues a handle never issued before and changes what no other handle means |
| `Arena.StepGoesForward` | js/src/heap.rs:93-196 | no operation takes a handle back from spent to live or from live to unissued |
| `Arena.RunGoesForward` | js/src/heap.rs:93-196 | over any sequence of operations a reclaimed handle never resolves again |
| `Arena.NoHandleIsIssuedTwice` | js/src/heap.rs:93-196 | over any sequence of operations all issued handles are distinct and new |
| `Arena.Arena.Insert` | js/src/heap.rs:93-119 | reuses the head of the free list or grows, in place |
| `Arena.Arena.Get` | js/src/heap.rs:121-130 | resolves a handle by index and generation |
| `Arena.Arena.Mark` | js/src/heap.rs:143-156 | marks in place, telling a first mark from a repeated one and from a stale handle |
| `Arena.Arena.ClearMarks` | js/src/heap.rs:158-164 | removes every mark and nothing else |
| `Arena.Arena.Sweep` | js/src/heap.rs:166-196 | the in-place loop equals the sweep as a value, and counts what it reclaims |
| `HeapRecords.PushDescriptor` | js/src/heap.rs:999-1006 | adds exactly the value or the accessors of a descriptor to the worklist |
| `HeapRecords.PushData` | js/src/heap.rs:981-997 | adds exactly the prototype, symbol keys and property references |
| `HeapRecords.PushObject` | js/src/heap.rs:928-946 | adds those and the array elements |
| `Collector.TracingMarks` | js/src/heap.rs:869-909 | marking a node and listing its references keeps the tracing invariant |
| `Collector.TracingSkips` | js/src/heap.rs:869-909 | dropping a node that is already marked keeps it |
| `Collector.MarkingMakesProgress` | js/src/heap.rs:869-909 | each mark lowers the number of unmarked records, so the worklist loop ends |
| `Collector.TracedPath` | js/src/heap.rs:869-909 | with the worklist empty every node on every path from the roots is marked |
| `Collector.TraceIsExact` | js/src/heap.rs:869-966 | a finished trace has marked exactly the reachable records, and all of them resolve |
| `Collector.SweepCollects` | js/src/heap.rs:845-867 | sweeping after a finished trace keeps exactly the reachable records with their values and leaves no mark |
| `Collector.ChildrenAreHeld` | js/src/heap.rs:911-1006 | what the tracer lists for a record is exactly what one of the record's fields holds |
| `Collector.ReachableIsRetained` | js/src/heap.rs:869-966 | a record is reachable exactly if a chain of fields leads to it from a root |
| `Collector.CollectionRetains` | js/src/heap.rs:845-1006 | after a collection every field of every record that is left resolves, every record left is a root or in a field of one that is left, and what was retained through fields is exactly what is left |
| `Collector.Heap.Mark` | js/src/heap.rs:911-966 | marks the record behind a value or environment, or reports it stale without change |
| `Collector.Heap.PushChildren` | js/src/heap.rs:911-966 | lists exactly the references a record carries |
| `Collector.Heap.Trace` | js/src/heap.rs:869-909 | marks everything reachable, or stops at a stale reference that is reachable |
| `Collector.Heap.Collect` | js/src/heap.rs:845-867 | succeeds exactly when no reachable reference is stale, and then a handle resolves iff it did and is reachable; no field of a record that is left dangles, and a handle that is neither a root nor in a field of one does not resolve; failure leaves everything but marks as it was, and no mark; the counts are by how much each arena shrank, and the totals add up |
| `TokenizerText.AdvanceSplit` | parser/src/source.rs:22-43 | positions advance piecewise unless a line break pair is cut |
| `TokenizerText.PositionsCount` | parser/src/source.rs:22-43 | a position counts every byte, every line that ended and the characters since the last line end |
| `TokenizerText.TextSplits` | parser/src/tokenizer.rs:739-807 | text emitted in two pieces cut at a safe place gives the same characters, errors and error positions |
| `TokenizerText.SafePrefixIsSafe` | parser/src/tokenizer.rs:929-945 | whatever follows, the prefix that is released ends at a safe place |
| `TokenizerText.EmitText` | parser/src/tokenizer.rs:765-807 | the cursor loop decodes exactly the text defined unit by unit |
| `Tokenizer.StepProgress` | parser/src/tokenizer.rs:185-313 | every step uses input or leaves a text mode, so draining ends |
| `Tokenizer.TagLater` | parser/src/tokenizer.rs:469-727 | a tag or doctype whose end has arrived is the same when more input follows, however long it is |
| `Tokenizer.FindEndTagExtends` | parser/src/tokenizer.rs:954-975 | an end tag once found is not moved by later input |
| `Tokenizer.ReleasedBeforeEndTag` | parser/src/tokenizer.rs:203-257 | text released from a text mode lies before any end tag that later input could complete |
| `Tokenizer.HeldBackCut` | parser/src/tokenizer.rs:203-257 | and the cut it makes is a safe one |
| `Tokenizer.StepLater` | parser/src/tokenizer.rs:203-313 | a step taken before all input has arrived reads like a step of the finished input unless a token has outgrown the limit |
| `Tokenizer.DrainLater` | parser/src/tokenizer.rs:185-313 | so does draining everything that has arrived while every token fits |
| `Tokenizer.ChunksCannotBeObserved` | parser/src/tokenizer.rs:161-313 | for every way to cut an input such that no incomplete token outgrows the limit, feeding and finishing gives the same tokens, spans, errors and error positions as the whole |
| `TokenizerLimits.ChunksShowExactlyWhenOutgrown` | parser/src/tokenizer.rs:161-365 | for every input of any length and every way to cut it, chunks cannot be told from the whole if and only if no incomplete tag, comment or doctype outgrows the limit while they arrive |
| `TokenizerLimits.AnyTwoChunkingsAgree` | parser/src/tokenizer.rs:161-313 | next to a way to cut the input that fits, another agrees with it exactly if it fits too |
| `TokenizerLimits.OutgrownIsReported` | parser/src/tokenizer.rs:315-365 | a token that outgrows the limit is given up, and the error says so |
| `TokenizerLimits.FinishClean` | parser/src/tokenizer.rs:169-201 | no step at end of input ever reports the limit |
| `TokenizerLimits.ShortInputsFit` | parser/src/tokenizer.rs:161-313 | an input no longer than the limit fits however it is cut |
| `Tokenizer.FinishUsesEverything` | parser/src/tokenizer.rs:169-201 | finishing leaves nothing pending |
| `TokenizerLimits.EveryLimitCanBeOutgrown` | parser/src/tokenizer.rs:315-339 | whatever the limit, a comment longer than it and cut before its end shows the cut |
| `Tokenizer.FindTagEnd` | parser/src/tokenizer.rs:916-927 | the loop finds the first closing bracket outside quotes |
| `Tokenizer.FindAppropriateEndTag` | parser/src/tokenizer.rs:954-975 | jumping between "</" pairs finds the first matching end tag |
| `Tokenizer.HtmlTokenizer.DrainPending` | parser/src/tokenizer.rs:185-201 | draining in place equals draining as a value |
| `Tokenizer.HtmlTokenizer.FeedChunk` | parser/src/tokenizer.rs:161-167 | feeding appends and drains, and is refused after finishing |
| `Tokenizer.HtmlTokenizer.Finish` | parser/src/tokenizer.rs:169-175 | finishing drains all input once |
| `TokenizerWriting.EncodedReads` | parser/src/tokenizer.rs:765-891 | text and attribute values written with character references are read back as they were, without errors |
| `TokenizerWriting.NumericReads` | parser/src/tokenizer.rs:809-891 | a decimal or hexadecimal reference reads as the character of its number, without errors |
| `TokenizerWriting.AttributesAreDistinct` | parser/src/tokenizer.rs:518-666 | whatever the source of a tag, no attribute name comes twice and there are never more than the limit |
| `TokenizerWriting.StartTagReads` | parser/src/tokenizer.rs:518-666 | a start tag written with any attributes of distinct names, their values in quotes of either kind or in none, is read back: its name, every attribute with its value and span, and whether it closes itself |
| `TokenizerWriting.EndTagReads` | parser/src/tokenizer.rs:469-516 | so is an end tag |
| `TokenizerWriting.DoctypeReads` | parser/src/tokenizer.rs:367-467 | and a doctype with its identifiers |
| `TokenizerRoundTrip.ElementDrains` | parser/src/tokenizer.rs:203-257 | an element whose content is text up to its own end tag, as script, style, title and textarea have, is read back whole |
| `TokenizerRoundTrip.PieceDrains` | parser/src/tokenizer.rs:185-313 | each piece of a written document, be it tag, comment, doctype or text, gives its own tokens and leaves the rest |
| `TokenizerRoundTrip.DocumentReads` | parser/src/tokenizer.rs:161-313 | a document written from tags with attributes, comments, doctypes and text, escaped where it has to be, is tokenized to exactly what was written, with its spans and without an error |
| `TokenizerRoundTrip.ChunkedDocumentReads` | parser/src/tokenizer.rs:161-313 | however it is cut into chunks that fit the limit |
| `TokenizerRoundTrip.PlaintextReads` | parser/src/tokenizer.rs:203-257 | after plaintext everything is text, whatever it contains |
| `DomForest.DetachKeepsForest` | dom/src/lib.rs:597-603 | taking a node out keeps links agreeing, one parent a node, no cycle and legal lists |
| `DomForest.AttachKeepsForest` | dom/src/lib.rs:474-524 | putting a free node under a node it is not above, in a legal list, keeps the forest |
| `DomForest.AllocateKeepsForest` | dom/src/lib.rs:384-397 | so does a new node |
| `DomForest.ContentsKeepForest` | dom/src/lib.rs:654-761 | and a change of contents that keeps the kind |
| `DomDocument.InsertKeepsForest` | dom/src/lib.rs:474-524 | every insertion leaves a forest |
| `DomDocument.ReplaceKeepsForest` | dom/src/lib.rs:527-581 | every replacement does |
| `DomDocument.RemoveKeepsForest` | dom/src/lib.rs:583-595 | every removal does |
| `DomDocument.InsertPlacesTheChild` | dom/src/lib.rs:474-524 | the child ends directly before its reference, or last; other children keep order and every other link stays |
| `DomDocument.ReplaceIndexIsOldPlace` | dom/src/lib.rs:527-581 | the adjusted index is where the old child stands once the new one is out |
| `DomDocument.ReplacePutsNewInPlaceOfOld` | dom/src/lib.rs:527-581 | the new child stands exactly where the old one stood, the old one has no parent, and no other parent link or list changes beyond the new child leaving its old place |
| `DomEffects.LegalIsShape` | dom/src/lib.rs:605-635 | the pass with two flags accepts exactly the lists with one element at most and nothing but comments before a doctype |
| `DomEffects.InsertionIsValid` | dom/src/lib.rs:474-524 | a node moves under another if and only if it is not the document, not above the other, and fits among the children that stay at its place; a cycle is reported exactly for a node above its new parent |
| `DomEffects.ReplacementIsValid` | dom/src/lib.rs:527-581 | the same for a replacement: exactly if the list with the new child in place of the old one suits the parent |
| `DomEffects.MoveMoves` | dom/src/lib.rs:474-524 | an insertion changes one list by one place, one parent link, and no other link and no contents |
| `DomEffects.RemovalRemoves` | dom/src/lib.rs:583-595 | a removal succeeds exactly for a child of that parent, closes the gap in one list, and changes nothing else |
| `DomDocument.TakeSnapshot` | dom/src/lib.rs:885-907 | snapshotting a forest cannot fail; the index is the inverse of document order and lists exactly the connected nodes |
| `DomOrder.DocumentOrder` | dom/src/lib.rs:780-788 | the explicit-stack traversal is the recursive preorder, and ends |
| `DomOrder.PreorderLists` | dom/src/lib.rs:780-788 | document order lists exactly the node and its descendants |
| `DomOrder.PreorderIsDistinct` | dom/src/lib.rs:780-788 | and none of them twice |
| `DomOrder.CollectText` | dom/src/lib.rs:818-838 | iterative text collection is recursive concatenation |
| `DomOrder.TextContent` | dom/src/lib.rs:818-838 | by node kind: none, own data, or the text of all descendants |
| `DomEffects.TextIsInDocumentOrder` | dom/src/lib.rs:818-838 | the text of nodes is the data of the text nodes in them, in document order |
| `DomOrder.IsInclusiveDescendant` | dom/src/lib.rs:637-652 | the walk up ends and meets exactly the node and its ancestors |
| `DomInvariants.ValidateDocumentChildren` | dom/src/lib.rs:605-635 | the loop accepts exactly the legal child lists of a document |
| `DomInvariants.ValidateInvariants` | dom/src/lib.rs:841-883 | accepts an arena if and only if links agree, lists are legal and no cycle exists |
| `DomInvariants.ForestIsAccepted` | dom/src/lib.rs:841-883 | so it accepts every state that mutations reach |
| `DomMutation.ValidateChildren` | dom/src/lib.rs:605-635 | the loop decides whether a child list is legal for its parent |
| `DomMutation.Document.Allocate` | dom/src/lib.rs:384-397 | appends a node with a fresh slot, or reports a full arena |
| `DomMutation.Document.InsertChildBefore` | dom/src/lib.rs:474-524 | in place, equals the insertion as a value, revision raised by one only on change; a refused insertion changes nothing |
| `DomMutation.Document.ReplaceChildWith` | dom/src/lib.rs:527-581 | the same for replacement |
| `DomMutation.Document.RemoveChildNode` | dom/src/lib.rs:583-595 | the same for removal |
| `DomScript.CheckToken` | dom/src/bindings.rs:631-658 | a creation token is accepted exactly if it is the next one and within the limit |
| `DomScript.Resolve` | dom/src/bindings.rs:660-689 | an operand resolves exactly if the node it stands for is in this document, and to that node |
| `DomScript.AccountString` | dom/src/bindings.rs:691-725 | a string is accounted exactly if it fits both limits, and errors name a limit that is exceeded |
| `DomScript.CommandGrows` | dom/src/bindings.rs:543-629 | one command keeps the forest, old identities and kinds, and takes consecutive slots in token order |
| `DomScript.ApplyCommand` | dom/src/bindings.rs:543-629 | the in-place command equals the command as a value |
| `DomScript.RunCommands` | dom/src/bindings.rs:510-529 | all commands on a working copy equal the commands one by one |
| `DomScript.ApplyScriptMutations` | dom/src/bindings.rs:469-540 | a batch leaves the document entirely as it was, or equals its commands one by one with the revision raised by exactly one; snapshotting never fails |
| `DomCommands.SetReadsBack` | dom/src/lib.rs:654-722 | a value that was set is what is read, and every other name reads as before |
| `DomCommands.RemovedReadsAbsent` | dom/src/lib.rs:691-722 | a removed name reads as absent, and every other name as before |
| `DomCommands.NamesStayApart` | dom/src/lib.rs:654-710 | setting and removing never leave a name twice |
| `DomCommands.SetAttributeSets` | dom/src/lib.rs:654-689 | setting succeeds exactly on an element under a name, gives the first attribute of the name the value or adds it last, and touches nothing else |
| `DomCommands.RemoveAttributeDrops` | dom/src/lib.rs:691-710 | removing takes out the first attribute of the name, if there is one, and touches nothing else |
| `DomCommands.SetDataSets` | dom/src/lib.rs:734-748 | data is set exactly on text and comments, is the data given, and nothing else changes |
| `DomCommands.CommandsAreFaithful` | dom/src/bindings.rs:543-725 | each of the eight commands succeeds if and only if its operands stand for nodes it may change within the limits, and then makes exactly its own change |
| `DomCommands.BatchesStep` | dom/src/bindings.rs:510-529 | a batch leads through such changes one by one, or is refused because some command cannot be taken after those before it |
| `ObjectModel.UpdatesRespectFinality` | js/src/runtime.rs:3882-4014 | an accepted update of a non-configurable property keeps configurability, enumerability, kind, accessors and, once read-only, the value |
| `ObjectModel.RefusalIsExact` | js/src/runtime.rs:3882-3973 | an update is refused exactly when it would change what is final about a non-configurable property, or add a key to a non-extensible object |
| `ObjectModel.FullUpdateIsDefinition` | js/src/runtime.rs:3882-4014 | an accepted update with every field leads to exactly that descriptor, data or accessor alike |
| `ObjectEffects.UpdatesMerge` | js/src/runtime.rs:3882-4014 | an accepted partial update merges: fields given are the descriptor's, fields of the same kind left out stay, the others have their defaults |
| `ObjectModel.IndexKeysAreNumerals` | js/src/runtime.rs:5451-5466 | a key is the array index n exactly if it is the decimal numeral of n without leading zeros and n is below 2^32-1, so the next length never overflows |
| `ObjectModel.CanonicalKeysAreDistinct` | js/src/runtime.rs:5451-5466 | different canonical keys are different indices |
| `ObjectModel.InsertKeepsOrder` | js/src/heap.rs:417-431 | the insertion order keeps listing exactly the keys, once each |
| `ObjectModel.RemoveKeepsOrder` | js/src/heap.rs:433-442 | so it does after a removal |
| `ObjectModel.TruncationStopsAtTheHighestFixed` | js/src/runtime.rs:3852-3874 | truncation ends just past the highest element that cannot be deleted and removes exactly what lies above |
| `ObjectModel.TruncateElements` | js/src/runtime.rs:3852-3874 | the descending loop is that truncation |
| `ObjectModel.LengthAssignment` | js/src/runtime.rs:3779-3874 | giving a writable length the value n succeeds exactly when every element from n on can be deleted; otherwise it stops past the highest that cannot |
| `ObjectModel.DefineKeepsShape` | js/src/runtime.rs:3623-3874 | definitions keep every element below the length, the length a uint32, the key count bounded and the order index right |
| `ObjectModel.DefineRespects` | js/src/runtime.rs:3623-3874 | definitions keep the promises about non-configurable properties and non-extensible objects |
| `ObjectModel.DeleteRespects` | js/src/runtime.rs:3491-3560 | deletions keep them |
| `ObjectModel.DeleteRemoves` | js/src/runtime.rs:3491-3560 | a deletion is accepted exactly for an absent or configurable key, which is then absent; a refused one changes nothing |
| `ObjectEffects.DefineLeavesOthers` | js/src/runtime.rs:3623-3777 | a definition leaves every other property, the prototype and extensibility as they were, but for the length of an array that gets an index past its end |
| `ObjectEffects.DefineDecides` | js/src/runtime.rs:3623-3777 | a definition is accepted exactly if the update is and no read-only length is in the way, and fails exactly at the key limit |
| `ObjectEffects.DefineKeepsOrder` | js/src/heap.rs:417-431 | a new key comes last and the order of the others never changes |
| `ObjectEffects.DeleteLeavesOthers` | js/src/runtime.rs:3491-3560 | a deletion takes one key out of the order and leaves the rest of the object alone |
| `Prototypes.FindIsNearest` | js/src/runtime.rs:3360-3388 | a lookup gives the property of the nearest object on the chain, none if the chain ends, and fails only past the chain bound |
| `Prototypes.FindProperty` | js/src/runtime.rs:3360-3388 | the loop with a visited set is that lookup; in an acyclic realm the set never fires |
| `Prototypes.SetPrototypeKeepsAcyclic` | js/src/runtime.rs:4033-4077 | changing a prototype never closes a cycle |
| `Prototypes.AcceptanceIsExact` | js/src/runtime.rs:4033-4077 | an extensible object takes a new prototype if and only if that closes no cycle and the chain stays within the bound |
| `Prototypes.WalkPrototypes` | js/src/runtime.rs:4033-4077 | the loop over the candidate chain decides that |
| `ObjectEffects.PrototypeChangesAlone` | js/src/runtime.rs:4033-4077 | an accepted change sets one prototype and nothing else; a refused one nothing at all |
| `Realm.StepKeepsRealm` | js/src/runtime.rs:3415-4077 | every define, assign, delete, prototype change, end of extensibility and allocation of any well-formed record keeps the realm valid and its promises |
| `Realm.AllocatedRecordsAreWellFormed` | js/src/heap.rs:693-719 | objects allocated with properties and arrays allocated with elements below their length are such records |
| `Realm.RunsKeepPromises` | js/src/runtime.rs:3415-4077 | over any sequence of them: no cycle, every object well formed, and everything final stays as it was |
| `Realm.FrozenObjectsStayTheSame` | js/src/runtime.rs:3415-4077 | a frozen object has the same keys, descriptors (strings by contents) and prototype after any sequence |
| `Realm.FixedLengthsStay` | js/src/runtime.rs:3703-3874 | a read-only array length never changes and no element ever lies at or past the length |
| `Realm.DefinedIsOwn` | js/src/runtime.rs:3623-3777 | an accepted definition is the own property afterwards |
| `Realm.AssignedIsFound` | js/src/runtime.rs:3415-3489 | an accepted assignment is what a lookup then finds, with the old attributes or all-true ones, and no other object changes |
| `ObjectEffects.AssignmentGoes` | js/src/runtime.rs:3415-3489 | an assignment calls the nearest property's setter, is refused by a nearest property that is read-only or has none, and otherwise stores on the object itself, over its own property or as a new one exactly if the object takes it |
| `Realm.ObjectHeap.DefineArrayLength` | js/src/runtime.rs:3779-3874 | in place, equals the definition as a value, errors included |
| `Realm.ObjectHeap.DefineOwnProperty` | js/src/runtime.rs:3623-3701 | in place, equals the definition as a value and keeps the realm promises |
| `Realm.ObjectHeap.DeleteProperty` | js/src/runtime.rs:3491-3560 | in place; the answer says whether the key is gone |
| `Realm.ObjectHeap.SetProperty` | js/src/runtime.rs:3415-3489 | in place, equals the assignment as a value; a setter is handed back to be called |
| `Realm.ObjectHeap.ChangePrototypeOf` | js/src/runtime.rs:4033-4077 | in place, equals the change as a value |
| `Realm.ObjectHeap.PreventExtensionsOf` | js/src/runtime.rs:4777-4795 | only clears extensibility |
| `ObjectEffects.InextensibleKeepsTheRest` | js/src/runtime.rs:4777-4795 | every property, their order, the kind and the prototype are what they were |
| `EarlyErrors.InsertLexicalNames` | js/src/parser.rs:1133-1145 | names are taken exactly if they are distinct and none is taken already |
| `EarlyErrors.ValidateLexicalScope` | js/src/parser.rs:1019-1052 | accepts exactly the blocks without clashes and returns exactly their hoisted names |
| `EarlyErrors.CollectStatementVarNames` | js/src/parser.rs:1054-1131 | accepts exactly the statements without clashes inside and adds exactly their hoisted names |
| `EarlyErrors.CollectForVarNames` | js/src/parser.rs:1080-1100 | the same for loop heads |
| `EarlyErrors.CollectTryVarNames` | js/src/parser.rs:1101-1120 | the same for try, catch with its parameter reserved, and finally |
| `EarlyErrors.ValidateVarScope` | js/src/parser.rs:987-1017 | accepts exactly the bodies without clashes |
| `ScriptPaths.VariablesAreDeclared` | js/src/parser.rs:1054-1131 | the parser collects a name exactly if a `var` or a loop head anywhere inside declares it |
| `ScriptPaths.ScopesAreClear` | js/src/parser.rs:1019-1131 | the scope check passes exactly if every scope inside is free of clashes |
| `ScriptPaths.NamesAreApart` | js/src/parser.rs:1133-1145 | names of a list are distinct exactly if no statement repeats one and no two share one |
| `ScriptPaths.ShapesAreLocal` | js/src/parser.rs:52-121 | the shape that the grammar gives a statement holds exactly if it holds of every place inside |
| `ScriptPaths.StatementsArePlaced` | js/src/parser.rs:281-518 | the depth counters pass exactly if every path to a loop control goes through a loop and every `return` is in a function |
| `ScriptPaths.FunctionsAreAccepted` | js/src/parser.rs:198-255 | which functions the parser lets through, place by place |
| `ScriptMachine.HoistedAllIsVarNames` | js/src/runtime.rs:1952-2019 | the names the interpreter hoists are exactly those the parser collects |
| `ScriptMachine.BodyInstantiates` | js/src/runtime.rs:2058-2237 | an accepted body fails to instantiate exactly when an existing binding is in its way; otherwise its variables are bound and its lexical names wait uninitialized |
| `ScriptMachine.BlockInstantiates` | js/src/runtime.rs:2239-2323 | an accepted block always instantiates, functions initialized and lexical names waiting |
| `ScriptBindings.ParametersAreBound` | js/src/runtime.rs:4190-4278 | a call binds each parameter to its argument, or to undefined, and fails exactly on a repeated name |
| `ScriptBindings.BodyBindings` | js/src/runtime.rs:2058-2237 | a body finds its variables at undefined or as they were, its functions at their closures, its `let`s and `const`s uninitialized and as mutable as declared, and nothing else changed |
| `ScriptBindings.BlockBindings` | js/src/runtime.rs:2239-2323 | the same for a block |
| `ScriptBindings.LoopHeadIsBound` | js/src/runtime.rs:2548-2580 | a loop head starts with exactly its names, uninitialized |
| `ScriptBindings.TurnsAreFresh` | js/src/runtime.rs:2598-2644 | the next turn runs in one new environment with copies of the turn's own bindings, and every earlier environment stays as it is |
| `ScriptDerivations.DerivationsAreSound` | js/src/runtime.rs:2024-2693 | every derivation by the rules concludes what the interpreter does |
| `ScriptDerivations.StatementsAreDerivable` | js/src/runtime.rs:2325-2693 | a derivation of an answer exists if and only if the interpreter gives it, for every statement; one rule a kind of statement, after the evaluation semantics of sections 13 to 15 of ECMA-262 |
| `ScriptDerivations.CallsAreDerivable` | js/src/runtime.rs:4190-4278 | the same for calls |
| `ScriptDerivations.BodiesAreDerivable` | js/src/runtime.rs:2024-2237 | for function bodies |
| `ScriptDerivations.ScriptsAreDerivable` | js/src/runtime.rs:1267-1287 | and for scripts |
| `ScriptDerivations.FinallyKeepsOrReplaces` | js/src/runtime.rs:2646-2693 | with a finally block that completes normally the outcome is that of the same statement without it, in the machine the block leaves; with any other it is the block's |
| `ScriptDerivations.CatchOnlyWhenThrown` | js/src/runtime.rs:2646-2693 | a catch clause changes nothing unless the block throws |
| `ScriptDerivations.TryAloneIsItsBlock` | js/src/runtime.rs:2646-2693 | with neither clause the statement is its block |
| `ScopeSafety.EvaluateSafe` | js/src/runtime.rs:2994-3095 | whatever an expression assigns and calls, no fault arises and no environment changes shape |
| `ScopeSafety.ListSafe` | js/src/runtime.rs:2042-2056 | a ready statement list reaches no fault and gives only completions that fit its place |
| `ScopeSafety.BlockSafe` | js/src/runtime.rs:2239-2323 | a block reaches none and leaves the environments around it alone |
| `ScopeSafety.ForLoopSafe` | js/src/runtime.rs:2409-2546 | neither does a loop, with a fresh environment for every turn of a let loop |
| `ScopeSafety.LexicalForSafe` | js/src/runtime.rs:2484-2644 | loop bindings are instantiated once, initialized once and always there to copy |
| `ScopeSafety.TrySafe` | js/src/runtime.rs:2646-2693 | try, catch and finally compose: an abrupt finally wins, and nothing stray passes |
| `ScopeSafety.AcceptedFunctionsRun` | js/src/runtime.rs:4190-4278 | a call of an accepted function never reaches a conflict, missing or wrong-kind variable, double initialization or escaped loop control, however its expressions behave |
| `ScopeSafety.AcceptedScriptsRun` | js/src/runtime.rs:1267-1287 | an accepted script either clashes with what is there before it starts, exactly when something is in its way, or ends without fault, stray return, break or continue |
| `Execution.ScriptContext.EvaluateExpression` | js/src/runtime.rs:2994-3095 | the loop over what an expression assigns, names and calls equals the definition |
| `Execution.ScriptContext.CallScript` | js/src/runtime.rs:4190-4278 | a call in place equals its definition |
| `Execution.ScriptContext.ExecuteVarScope` | js/src/runtime.rs:2024-2237 | so does a body |
| `Execution.ScriptContext.ExecuteStatementList` | js/src/runtime.rs:2042-2056 | a list, with the last value carried into an empty completion |
| `Execution.ScriptContext.ExecuteStatement` | js/src/runtime.rs:2325-2407 | a statement, each counted as a step |
| `Execution.ScriptContext.InitializeBindings` | js/src/runtime.rs:2582-2596 | lexical declarators in turn |
| `Execution.ScriptContext.ExecuteVariableDeclaration` | js/src/runtime.rs:2437-2454 | variable declarators in turn |
| `Execution.ScriptContext.ExecuteDoWhile` | js/src/runtime.rs:2456-2482 | the do-while loop |
| `Execution.ScriptContext.ExecuteLoop` | js/src/runtime.rs:2409-2546 | the while and for loops |
| `Execution.ScriptContext.ExecuteFor` | js/src/runtime.rs:2484-2546 | the four kinds of loop head |
| `Execution.ScriptContext.ExecuteTry` | js/src/runtime.rs:2646-2693 | try, catch and finally |
| `Execution.ScriptContext.CallAccepted` | js/src/runtime.rs:4190-4278 | a call of an accepted function in place: no fault, and every environment keeps its names and kinds |
| `IntrinsicSizes.ContentTaller` | layout/src/tree.rs:2124-2180 | an answer within a depth limit, a size or any error but the limit's own, is the answer within any larger one |
| `IntrinsicSizes.SizesAreUnique` | layout/src/tree.rs:2124-2180 | a box has at most one such answer, whatever the limit |
| `IntrinsicForms.BlockForm` | layout/src/tree.rs:2240-2266 | a block container is as wide as its widest child, minimum and preferred alike |
| `IntrinsicForms.BlockNeeds` | layout/src/tree.rs:2240-2266 | and has a size only if all its children are block level and have one |
| `IntrinsicForms.FlexForm` | layout/src/tree.rs:2268-2325 | a row prefers the sum of its items with a gap between each two; its minimum is that of the minima, or the largest if it wraps; a column is as wide as its widest item |
| `IntrinsicForms.FlexNeeds` | layout/src/tree.rs:2268-2325 | and it has a size only if all its items have one and the sums stay in range |
| `IntrinsicForms.WidthForm` | layout/src/tree.rs:2327-2391 | a definite width is the content's, or the border box's, which is never below border and padding |
| `IntrinsicForms.OuterForm` | layout/src/tree.rs:2327-2414 | an outer size is the width or else the content, nearest within the limits, plus border, padding and the margins that are not automatic |
| `IntrinsicForms.TextForm` | layout/src/tree.rs:2519-2647 | a text prefers all its words on one line with a space between each two, and where lines may break is as narrow as its widest word |
| `IntrinsicForms.PreformattedForm` | layout/src/tree.rs:2519-2577 | preformatted text is as wide as its longest line |
| `IntrinsicForms.AtomsForm` | layout/src/tree.rs:2416-2517 | a line of inline blocks prefers them side by side; where it may break it is as narrow as the widest minimum, and elsewhere as all minima side by side |
| `IntrinsicOrder.AddVisibleOrdered` | layout/src/tree.rs:2612-2647 | adding content keeps a line's minimum bounded by its preferred size, soft breaks included |
| `IntrinsicOrder.AroundOrdered` | layout/src/tree.rs:2327-2414 | constraints, border, padding and margins of a snug style keep minimum at most preferred and both non-negative |
| `IntrinsicOrder.OrderChecksNeverFire` | layout/src/tree.rs:2124-2452 | if no style lets a box have a negative outer size, minimum is at most preferred at every level of every tree, so the order checks never fire |
| `IntrinsicOrder.NonNegativeMarginsAreSnug` | layout/src/tree.rs:2327-2391 | in particular styles without negative margins are snug |
| `IntrinsicOrder.LooseStyleBreaksOrder` | layout/src/tree.rs:2416-2517 | for every style that is not snug, a line with one box of it fires the check |
| `IntrinsicOrder.SnugIsExact` | layout/src/tree.rs:2327-2517 | a style is snug if and only if no line with a box of it, however wide the content, fires the check |
| `IntrinsicCache.IntrinsicSizer.ContentSizes` | layout/src/tree.rs:2124-2165 | an answer is the uncached size; every finished entry stays one; the set of boxes in progress is unchanged even on error; an error is the budget's, a box inside itself, or the error of the uncached walk, unless that walk hits the depth limit where the cache had the answer |
| `IntrinsicCache.IntrinsicSizer.BlockSizes` | layout/src/tree.rs:2240-2266 | the loop over children agrees with the recursive widest child |
| `IntrinsicCache.IntrinsicSizer.FlexSizes` | layout/src/tree.rs:2268-2325 | the loop over flex items agrees with the recursive sum or maximum |
| `IntrinsicCache.IntrinsicSizer.OuterSizes` | layout/src/tree.rs:2327-2391 | outer sizes with the cache agree with those without |
| `IntrinsicCache.IntrinsicSizer.InlineContextSizes` | layout/src/tree.rs:2416-2452 | a line of inline content agrees |
| `IntrinsicCache.IntrinsicSizer.MeasureInlineBox` | layout/src/tree.rs:2454-2517 | one box on the line agrees |
| `IntrinsicCache.IntrinsicSizer.IntrinsicSizesOf` | layout/src/tree.rs:2920-2923 | a request from outside leaves no entry in progress, whatever its outcome; on a tree without boxes inside themselves only the budget makes it fail where the uncached walk does not |

## Left out

- ObjectModel: numbers are a uint32, a negative zero, not-a-number or anything else; arithmetic on them is not modelled, and conversion of a value to an array length is a parameter.
- Realm: properties of primitive strings, calls of getters and setters (a setter is handed back to the caller) and host-defined objects.
- EvaluateExpression: an expression is an oracle of the bindings it assigns and the functions it names and calls; how it computes values is not modelled.
- Execution: a host callback that evaluates another script in the same global environment; outer links of environments, which only expressions follow; diagnostic locations and error texts.
- EarlyErrors: which of several clashes is reported, and its position; the token-level parser, whose depth counters and statement shapes are the predicates `Placed` and `Shaped`.
- Interpreter: hoisted functions get an opaque value, and their names are always valid strings.
- Tokenizer: input is ASCII, one byte a character.
- TokenizerMarkup: the cursor loops over the bytes of a tag or doctype are recursive functions, so their updates in place are not captured.
- TokenizerRoundTrip: what is written has no attribute without a value and no malformed tag; of these the model says only what holds of every input, cut into chunks or not.
- Collector: growth failures of the allocator.
- DomMutation: links are slots of the same document; a revision counter about to overflow, on which the engine stops, is excluded by precondition.
- DomScript: strings are ASCII, so their byte length is their length.
- FlexResolver: a slice of the item vector is an array of exactly that slice, and reserving memory always succeeds.
- IntrinsicCache: work is charged once a call and once a child, not for every comparison and character; text shaping is a parameter; supported element names are one flag a box.
- Fetching, rendering, style resolution, the HTML tree builder, block and inline geometry and the lexer are not part of this model: they are input and output, tables, or depend on the platform.
