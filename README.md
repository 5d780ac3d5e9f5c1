# State-machine chart exporters, modelled in Dafny

This project models the core of a small Java library that reads a state
machine and writes it out as a diagram. There are three diagram formats: a
PlantUML state chart, a LucidChart CSV import table and an SCXML document.
The model also covers the older PlantUML exporter of the same library.

The pipeline works as follows:

1. The analysis builds one node per declared state.
2. It attaches each transition to its source node and marks the target as
   targeted.
3. It computes a memoised, cycle-guarded longest path length for each node
   (`getPathLength`).
4. It sorts the nodes (initial first, then longer path first, then by name).
5. It numbers the nodes, gives each a sanitised identifier (`generateId`)
   and a qualifier (`initial`, `orphan`, `done`, `alternate` or none).
6. It sorts each node's transitions by the same comparator, applied to
   their targets.

Each renderer turns the finished list into its format. The older exporter
works the same way, but it sorts by name only, computes no path length and
has no index.

Files and modules:

| file | module | what it holds |
|---|---|---|
| `machines.dfy` | `Machines` | the input: state names, `(source, target, event)` triples and the initial name; the qualifier enumeration; `WellFormed` |
| `decimal.dfy` | `Decimal` | `Integer.toString` on naturals and its inverse |
| `ids.dfy` | `Ids` | `generateId` (a loop over the name) and the identifier it builds |
| `graph.dfy` | `Graph` | steps 1 and 2: the state map and the transition lists (`addTransition`) |
| `comparators.dfy` | `Comparators` | `String.compareTo`, `Integer.compare` and `StateInfoBase.compare` on the keys they read |
| `sorting.dfy` | `Sorting` | `List.sort` as a stable insertion sort over keyed entries, and its laws |
| `pathlength.dfy` | `PathLength` | `getPathLength` as a recursive method on the memo array, proved against a function |
| `analysis.dfy` | `Analysis` | `analyzeStateMachine` of the current base exporter |
| `legacy.dfy` | `Legacy` | `analyzeStateMachine` of the older exporter (sort by name only) |
| `lines.dfy` | `Lines` | generic facts about lists built part by part |
| `plantuml.dfy` | `PlantUML` | the PlantUML line list and both exporters' export methods |
| `lucidchart.dfy` | `LucidChart` | the 12-field CSV rows |
| `scxml.dfy` | `SCXML` | the stream writer as a class, the event stream and the element tree |

Java object references are modelled as handles. A node's handle is the
position at which its state is declared. The nodes are a sequence indexed
by handle, and the returned `stateList` is a sequence of handles. The
memo field `pathlength`, which the recursion shares and updates in place,
is an `array<int>`. The stream writer of the SCXML exporter is a class
whose fields are the events written so far and the stack of open elements.

The model identifies a state by its name, the `toString()` of its id, and
the exporters require `Machines.WellFormed`: names are unique, the initial
state is one of the states, and every transition joins declared states. The
code checks none of these. A transition whose endpoint is missing from the
state map makes the code dereference `null`, and so does a missing initial
state in the current analysis (`StateMachineBaseExporter.java:135`). The
older analysis only compares states with `initial` by `==`
(`plantuml/StateMachineExporter.java:106`, `:128`): with no initial state
among the states it qualifies no node `initial`, and the older
`exportToPlantUML` writes no start line. A later state with the same id as
an earlier one replaces it in the state map
(`StateMachineBaseExporter.java:116`). Both stay in the node list, and the
earlier one gets no transitions and is never targeted. Two states with
different ids that print the same name are separate nodes for the code.

Two facts about the code that the model states as it is:

- The PlantUML exporters choose a transition's arrow by its position among
  its source's transitions, modulo 3: `-down->`, `-right->`, `-left->`.
  There is no direction-aware arrow choice.
- `getPathLength` stores 0 only while a node is in progress. Every final
  value is 1 or more: a node with no eligible successor gets 1, and a walk
  that reaches a node still in progress reads 0 for it.

## Model

Paths are relative to the repository root.

| member | source | states |
|---|---|---|
| Machines.QualifierName | src/main/java/com/nofacepress/statemachine/exporter/base/StateMachineBaseExporter.java:67-76 | the enum constant's `name()`, as it is printed in labels; at least four characters long |
| Machines.QualifierNameInjective | src/main/java/com/nofacepress/statemachine/exporter/base/StateMachineBaseExporter.java:67-76 | distinct qualifiers print distinct names |
| Machines.IndexOf | src/main/java/com/nofacepress/statemachine/exporter/base/StateMachineBaseExporter.java:116 | the handle the state map gives a declared name: a position holding the name, with no earlier occurrence |
| Decimal.DecimalString | src/main/java/com/nofacepress/statemachine/exporter/base/StateMachineBaseExporter.java:178 | `Integer.toString` of a natural: non-empty, all digits, no leading zero, two digits or more from 10 |
| Decimal.ParseDecimalString | src/main/java/com/nofacepress/statemachine/exporter/base/StateMachineBaseExporter.java:178 | reading the digits back gives the number |
| Decimal.DecimalStringInjective | src/main/java/com/nofacepress/statemachine/exporter/base/StateMachineBaseExporter.java:178 | distinct numbers print distinct strings |
| Ids.SanitizeChar | src/main/java/com/nofacepress/statemachine/exporter/base/StateMachineBaseExporter.java:170-175 | `[0-9A-Za-z_]` is kept, space and `-` become `_`, every other character is dropped |
| Ids.Sanitize | src/main/java/com/nofacepress/statemachine/exporter/base/StateMachineBaseExporter.java:169-176 | the sanitised name is no longer than the name and made of identifier characters only |
| Ids.IdOf | src/main/java/com/nofacepress/statemachine/exporter/base/StateMachineBaseExporter.java:166-180 | the identifier generateId builds: the sanitised name, `_`, then the decimal index |
| Ids.GenerateId | src/main/java/com/nofacepress/statemachine/exporter/base/StateMachineBaseExporter.java:166-180 | the loop over the name, then `_` and the decimal index, builds IdOf(name, index) |
| Ids.SanitizeKeepsIdChars | src/main/java/com/nofacepress/statemachine/exporter/base/StateMachineBaseExporter.java:171-172 | a name made of identifier characters is kept as it is |
| Ids.SanitizeAppend | src/main/java/com/nofacepress/statemachine/exporter/base/StateMachineBaseExporter.java:169-176 | sanitising works character by character: the sanitised concatenation is the concatenation of the sanitised parts |
| Ids.IdOfShape | src/main/java/com/nofacepress/statemachine/exporter/base/StateMachineBaseExporter.java:166-180 | the id is the sanitised name, `_`, then the decimal index; at least two characters, all in `[0-9A-Za-z_]` |
| Ids.IdOfInjective | src/main/java/com/nofacepress/statemachine/exporter/base/StateMachineBaseExporter.java:177-178 | equal ids have equal indices, whatever the names, because the digits after the last `_` are the index |
| Ids.IdOfDiffersFromName | src/main/java/com/nofacepress/statemachine/exporter/base/StateMachineBaseExporter.java:177-178 | an id is never the name it came from |
| Ids.IdOfExampleSpace | src/main/java/com/nofacepress/statemachine/exporter/base/StateMachineBaseExporter.java:173-174 | `("A B", 2)` gives `A_B_2` |
| Ids.IdOfExampleDropped | src/main/java/com/nofacepress/statemachine/exporter/base/StateMachineBaseExporter.java:171-175 | `("B!", 1)` gives `B_1` |
| Ids.IdOfExampleStateA | src/main/java/com/nofacepress/statemachine/exporter/base/StateMachineBaseExporter.java:166-180 | `("State A", 3)` gives `State_A_3` |
| Graph.AddTransition | src/main/java/com/nofacepress/statemachine/exporter/base/StateMachineBaseExporter.java:38-43 | the list grows by one transition with the given target and event at its end |
| Graph.InfoOf | src/main/java/com/nofacepress/statemachine/exporter/base/StateMachineBaseExporter.java:127-130 | a transition's stored form has the handle of its target's name and its event |
| Graph.OutEdges | src/main/java/com/nofacepress/statemachine/exporter/base/StateMachineBaseExporter.java:124-132 | the transitions that leave node h, in input order, each stored with its target's handle; every target is a node |
| Graph.BuildNodes | src/main/java/com/nofacepress/statemachine/exporter/base/StateMachineBaseExporter.java:113-121 | the states loop: one node per declared state in order, a state map from each name to its handle, and the initial node found iff the initial name is declared |
| Graph.AttachTransitions | src/main/java/com/nofacepress/statemachine/exporter/base/StateMachineBaseExporter.java:124-132 | the transitions loop: each node's list is its outgoing transitions in input order, and a node is targeted iff some transition ends at it |
| Graph.OutEdgesMembership | src/main/java/com/nofacepress/statemachine/exporter/base/StateMachineBaseExporter.java:124-132 | a transition is in node h's list iff some input transition with source h stores as it |
| Graph.OutEdgesPartition | src/main/java/com/nofacepress/statemachine/exporter/base/StateMachineBaseExporter.java:124-132 | the lists together hold exactly as many transitions as the input |
| Graph.PermutedTotal | src/main/java/com/nofacepress/statemachine/exporter/base/StateMachineBaseExporter.java:144 | summed in any order of the nodes, the list lengths give the number of transitions |
| Comparators.CompareTo | src/main/java/com/nofacepress/statemachine/exporter/base/StateMachineBaseExporter.java:62 | `String.compareTo`: the difference of the first differing characters, or else of the lengths |
| Comparators.IntegerCompare | src/main/java/com/nofacepress/statemachine/exporter/base/StateMachineBaseExporter.java:61 | `Integer.compare`: negative, zero, positive exactly when less, equal, greater |
| Comparators.CompareToAntisymmetric | src/main/java/com/nofacepress/statemachine/exporter/base/StateMachineBaseExporter.java:62 | `String.compareTo` with the arguments swapped is negated |
| Comparators.CompareToZero | src/main/java/com/nofacepress/statemachine/exporter/base/StateMachineBaseExporter.java:62 | `String.compareTo` is zero iff the strings are equal |
| Comparators.CompareToTransitive | src/main/java/com/nofacepress/statemachine/exporter/base/StateMachineBaseExporter.java:62 | `String.compareTo` is transitive on strict order |
| Comparators.CompareToLaws | src/main/java/com/nofacepress/statemachine/exporter/base/StateMachineBaseExporter.java:62 | sign antisymmetry, zero iff equal, transitivity of non-strict order |
| Comparators.Compare | src/main/java/com/nofacepress/statemachine/exporter/base/StateMachineBaseExporter.java:55-63 | `StateInfoBase.compare` on a node's handle (identity), initial flag, path length and name: 0 on the same node, the initial node first, then path length descending, then `compareTo` of the names |
| Comparators.CompareOrdersLayout | src/main/java/com/nofacepress/statemachine/exporter/base/StateMachineBaseExporter.java:55-63 | `compare(a, a) == 0`; the initial node sorts before every other node; other nodes order by path length descending, then by name; zero only on the same node |
| Comparators.CompareLaws | src/main/java/com/nofacepress/statemachine/exporter/base/StateMachineBaseExporter.java:55-63 | on the nodes of one analysis (unique names, at most one initial) compare is antisymmetric and transitive |
| Comparators.ByNameLaws | src/main/java/com/nofacepress/statemachine/plantuml/StateMachineExporter.java:123 | the name comparator of the older sort is antisymmetric and transitive |
| Comparators.LawfulSets | src/main/java/com/nofacepress/statemachine/exporter/base/StateMachineBaseExporter.java:144 | both comparators obey the laws on every set of keys of one analysis |
| Sorting.Sort | src/main/java/com/nofacepress/statemachine/exporter/base/StateMachineBaseExporter.java:144 | `List.sort` returns a permutation of its input |
| Sorting.SortSorted | src/main/java/com/nofacepress/statemachine/exporter/base/StateMachineBaseExporter.java:144 | under a lawful comparator the result is in non-decreasing order |
| Sorting.SortStable | src/main/java/com/nofacepress/statemachine/exporter/base/StateMachineBaseExporter.java:160 | elements that compare equal keep their input order |
| Sorting.SortIsTheStableSort | src/main/java/com/nofacepress/statemachine/exporter/base/StateMachineBaseExporter.java:144 | any sorted, stable permutation is the result of the sort, so the model does not depend on the sorting algorithm |
| PathLength.PathLengthOf | src/main/java/com/nofacepress/statemachine/exporter/base/StateMachineBaseExporter.java:84-100 | a cached value (including the in-progress 0) is returned unchanged; an unvisited node ends with a value of 1 or more that is greater than the value each eligible successor (other than the node itself) holds after the walk; values already written stay; the recursion terminates because each call settles one more node |
| PathLength.WalkSuccessors | src/main/java/com/nofacepress/statemachine/exporter/base/StateMachineBaseExporter.java:89-95 | the loop over the transitions skips those into the initial node; its length is at least the start value and at least every value an eligible successor returned, and it is the start value or one of those values: the running maximum |
| PathLength.GetPathLength | src/main/java/com/nofacepress/statemachine/exporter/base/StateMachineBaseExporter.java:84-100 | the recursive method on the memo array returns and leaves exactly what PathLengthOf gives for the memo it finds |
| PathLength.ComputePathLengths | src/main/java/com/nofacepress/statemachine/exporter/base/StateMachineBaseExporter.java:134-141 | the initial node first, then every node still unvisited, gives PathLengths |
| PathLength.WalkIfUnvisited | src/main/java/com/nofacepress/statemachine/exporter/base/StateMachineBaseExporter.java:138-140 | one turn of the loop: an unvisited node is walked as PathLengthOf says, any other memo is left as it is |
| PathLength.WalkRemaining | src/main/java/com/nofacepress/statemachine/exporter/base/StateMachineBaseExporter.java:137-141 | the loop over the list leaves the memo as FillFrom says |
| PathLength.FillFrom | src/main/java/com/nofacepress/statemachine/exporter/base/StateMachineBaseExporter.java:137-141 | every node before the loop's position that was not in progress has a value of 1 or more, and the chain property is kept |
| PathLength.PathLengths | src/main/java/com/nofacepress/statemachine/exporter/base/StateMachineBaseExporter.java:134-141 | after the analysis loops every node has a path length of 1 or more |
| PathLength.PathLengthsChain | src/main/java/com/nofacepress/statemachine/exporter/base/StateMachineBaseExporter.java:89-96 | every length of 2 or more is one more than the length of an eligible successor |
| PathLength.LeafLength | src/main/java/com/nofacepress/statemachine/exporter/base/StateMachineBaseExporter.java:89-96 | a node whose transitions all go into the initial node (or has none) gets exactly 1 |
| PathLength.LongerThroughSuccessor | src/main/java/com/nofacepress/statemachine/exporter/base/StateMachineBaseExporter.java:89-96 | a length of 2 or more is reached through a transition, not into the initial node, whose target has one less |
| PathLength.PathLengthBound | src/main/java/com/nofacepress/statemachine/exporter/base/StateMachineBaseExporter.java:84-100 | every path length lies between 1 and the number of nodes, even on cyclic graphs |
| Analysis.Classify | src/main/java/com/nofacepress/statemachine/exporter/base/StateMachineBaseExporter.java:150-158 | the qualifier chain: initial iff the initial node; orphan iff not targeted and no transitions; done iff targeted and no transitions; alternate iff transitions but not targeted; none otherwise |
| Analysis.InitialHandle | src/main/java/com/nofacepress/statemachine/exporter/base/StateMachineBaseExporter.java:118-120 | the initial node is the declared state with the initial name |
| Analysis.Edges | src/main/java/com/nofacepress/statemachine/exporter/base/StateMachineBaseExporter.java:124-132 | one transition list per node, each the node's outgoing transitions |
| Analysis.KeysLawful | src/main/java/com/nofacepress/statemachine/exporter/base/StateMachineBaseExporter.java:55-63 | compare obeys the laws on the keys of one analysis |
| Analysis.KeyCompareZero | src/main/java/com/nofacepress/statemachine/exporter/base/StateMachineBaseExporter.java:55-63 | two nodes compare equal iff they are the same node |
| Analysis.InitialComparesFirst | src/main/java/com/nofacepress/statemachine/exporter/base/StateMachineBaseExporter.java:57-60 | the initial node is less than every other node, and every other node greater |
| Analysis.StateOrderPermutation | src/main/java/com/nofacepress/statemachine/exporter/base/StateMachineBaseExporter.java:144 | the sorted list is a permutation of the declared nodes, each listed once |
| Analysis.StateOrderSorted | src/main/java/com/nofacepress/statemachine/exporter/base/StateMachineBaseExporter.java:144 | the sorted list is strictly increasing under compare |
| Analysis.InitialIsFirst | src/main/java/com/nofacepress/statemachine/exporter/base/StateMachineBaseExporter.java:144 | the initial node is at position 0 |
| Analysis.TransitionsPermutation | src/main/java/com/nofacepress/statemachine/exporter/base/StateMachineBaseExporter.java:160 | each node's sorted transitions are a permutation of its outgoing transitions |
| Analysis.TransitionsSorted | src/main/java/com/nofacepress/statemachine/exporter/base/StateMachineBaseExporter.java:160 | each node's transitions are in non-decreasing compare order of their targets |
| Analysis.TransitionsStable | src/main/java/com/nofacepress/statemachine/exporter/base/StateMachineBaseExporter.java:160 | the transitions to any one target keep their input order |
| Analysis.FinalNode | src/main/java/com/nofacepress/statemachine/exporter/base/StateMachineBaseExporter.java:145-160 | node h as the numbering loop leaves it at position i: index i, id generateId(name, i + 1), the qualifier of the chain, targeted, its path length and its transitions sorted by target |
| Analysis.IsAnalysisOf | src/main/java/com/nofacepress/statemachine/exporter/base/StateMachineBaseExporter.java:102-164 | what analyzeStateMachine returns: one node per state, the list in compare order, each listed node's index its position, and every node finished for its index |
| Analysis.AnalyzeStateMachine | src/main/java/com/nofacepress/statemachine/exporter/base/StateMachineBaseExporter.java:102-164 | the five steps give the nodes and list that IsAnalysisOf pins down |
| Analysis.PrepareNodes | src/main/java/com/nofacepress/statemachine/exporter/base/StateMachineBaseExporter.java:113-141 | after steps 1 to 3 each node has its name, targeted flag, path length, transitions and (only the initial) its qualifier |
| Analysis.FinishNode | src/main/java/com/nofacepress/statemachine/exporter/base/StateMachineBaseExporter.java:146-160 | one iteration of the numbering loop: index, id, qualifier and sorted transitions of the node at position i |
| Analysis.NumberNodes | src/main/java/com/nofacepress/statemachine/exporter/base/StateMachineBaseExporter.java:145-161 | the numbering loop leaves every node finished for its own position |
| Analysis.IndexIsPosition | src/main/java/com/nofacepress/statemachine/exporter/base/StateMachineBaseExporter.java:145-147 | each node's index is its position in the returned list |
| Analysis.OneInitial | src/main/java/com/nofacepress/statemachine/exporter/base/StateMachineBaseExporter.java:150-151 | exactly one node is qualified initial, it is the initial state, listed first with index 0 |
| Analysis.Qualifiers | src/main/java/com/nofacepress/statemachine/exporter/base/StateMachineBaseExporter.java:150-158 | targeted iff some transition ends at the node, and the qualifier chain of Classify over the finished node |
| Analysis.IdsUnique | src/main/java/com/nofacepress/statemachine/exporter/base/StateMachineBaseExporter.java:148 | every id is made of identifier characters, and distinct nodes have distinct ids |
| Analysis.IdIndices | src/main/java/com/nofacepress/statemachine/exporter/base/StateMachineBaseExporter.java:148 | each id is generateId of the node's name and a number, distinct for distinct nodes |
| Analysis.NodeNames | src/main/java/com/nofacepress/statemachine/exporter/base/StateMachineBaseExporter.java:115 | each node carries its state's name |
| Analysis.NodeTransitions | src/main/java/com/nofacepress/statemachine/exporter/base/StateMachineBaseExporter.java:160 | each node holds its sorted transitions, as many as it has outgoing transitions |
| Analysis.TransitionTotal | src/main/java/com/nofacepress/statemachine/exporter/base/StateMachineBaseExporter.java:124-132 | over the returned list the nodes hold exactly the input transitions' count |
| Analysis.ClosedModel | src/main/java/com/nofacepress/statemachine/exporter/base/StateMachineBaseExporter.java:145-160 | the list is a permutation of the handles and every transition target is a node |
| Analysis.SortNodesAgree | src/main/java/com/nofacepress/statemachine/exporter/base/StateMachineBaseExporter.java:144 | sorting the prepared nodes by their fields gives the order StateOrder names |
| Analysis.SortByTargetAgrees | src/main/java/com/nofacepress/statemachine/exporter/base/StateMachineBaseExporter.java:160 | sorting a node's list by its targets' fields gives SortedTransitions |
| Legacy.NameOrderPermutation | src/main/java/com/nofacepress/statemachine/plantuml/StateMachineExporter.java:123 | the older sort returns a permutation of the declared nodes |
| Legacy.NameOrderSorted | src/main/java/com/nofacepress/statemachine/plantuml/StateMachineExporter.java:123 | the older list is strictly ascending by name |
| Legacy.NameCompareZero | src/main/java/com/nofacepress/statemachine/plantuml/StateMachineExporter.java:123 | two nodes' names compare equal iff they are the same node |
| Legacy.TransitionsPermutation | src/main/java/com/nofacepress/statemachine/plantuml/StateMachineExporter.java:138 | each node's sorted transitions are a permutation of its outgoing transitions |
| Legacy.TransitionsSorted | src/main/java/com/nofacepress/statemachine/plantuml/StateMachineExporter.java:138 | each node's transitions are ascending by target name |
| Legacy.TransitionsStable | src/main/java/com/nofacepress/statemachine/plantuml/StateMachineExporter.java:138 | the transitions to any one target keep their input order |
| Legacy.FinalNode | src/main/java/com/nofacepress/statemachine/plantuml/StateMachineExporter.java:124-138 | node h as the numbering loop leaves it at position i: id generateId(name, i + 1), the qualifier of the chain, targeted, and its transitions sorted by target name |
| Legacy.IsAnalysisOf | src/main/java/com/nofacepress/statemachine/plantuml/StateMachineExporter.java:90-142 | what the older analyzeStateMachine returns: one node per state, the list in name order, each listed node finished for its position |
| Legacy.AnalyzeStateMachine | src/main/java/com/nofacepress/statemachine/plantuml/StateMachineExporter.java:90-142 | the older analysis gives the nodes and list that its IsAnalysisOf pins down |
| Legacy.PrepareNodes | src/main/java/com/nofacepress/statemachine/plantuml/StateMachineExporter.java:101-120 | after the two loops each node has its name, targeted flag and transitions, and no qualifier |
| Legacy.FinishNode | src/main/java/com/nofacepress/statemachine/plantuml/StateMachineExporter.java:125-138 | one iteration of the numbering loop: id, qualifier and transitions sorted by target name |
| Legacy.NodeAtPosition | src/main/java/com/nofacepress/statemachine/plantuml/StateMachineExporter.java:124-126 | every node is listed at a position and finished for it |
| Legacy.OneInitial | src/main/java/com/nofacepress/statemachine/plantuml/StateMachineExporter.java:128-129 | exactly one node, the initial state, is qualified initial, wherever it sorts |
| Legacy.Qualifiers | src/main/java/com/nofacepress/statemachine/plantuml/StateMachineExporter.java:128-136 | the same qualifier chain as the current version |
| Legacy.IdsUnique | src/main/java/com/nofacepress/statemachine/plantuml/StateMachineExporter.java:126 | ids are made of identifier characters and pairwise distinct |
| Legacy.IdIndices | src/main/java/com/nofacepress/statemachine/plantuml/StateMachineExporter.java:205-219 | each id is the older generateId of the node's name and a number, distinct for distinct nodes |
| Legacy.NodeTransitions | src/main/java/com/nofacepress/statemachine/plantuml/StateMachineExporter.java:138 | each node holds its transitions sorted by target name, as many as it has outgoing transitions |
| Legacy.TransitionTotal | src/main/java/com/nofacepress/statemachine/plantuml/StateMachineExporter.java:112-120 | over the returned list the nodes hold exactly the input transitions' count |
| Legacy.ClosedModel | src/main/java/com/nofacepress/statemachine/plantuml/StateMachineExporter.java:123-139 | the list is a permutation of the handles and every transition target is a node |
| PlantUML.Declaration | src/main/java/com/nofacepress/statemachine/exporter/StateMachinePlantUMLExporter.java:102-103 | `state "<name><label>" as <id><clazz>` |
| PlantUML.EdgeLine | src/main/java/com/nofacepress/statemachine/exporter/StateMachinePlantUMLExporter.java:117 | `<id> <arrows[k mod 3]> <target id> : <event>` |
| PlantUML.Document | src/main/java/com/nofacepress/statemachine/exporter/StateMachinePlantUMLExporter.java:88-122 | the whole chart: the header, the declarations, the arrow lines of each source in list order, then `@enduml` |
| PlantUML.Header | src/main/java/com/nofacepress/statemachine/exporter/StateMachinePlantUMLExporter.java:88-93 | two lines, three iff the title is set and non-empty |
| PlantUML.Label | src/main/java/com/nofacepress/statemachine/exporter/StateMachinePlantUMLExporter.java:96-101 | the label is empty iff the node has no qualifier |
| PlantUML.Clazz | src/main/java/com/nofacepress/statemachine/exporter/StateMachinePlantUMLExporter.java:97-101 | the class is empty iff the node has no qualifier |
| PlantUML.EdgeLines | src/main/java/com/nofacepress/statemachine/exporter/StateMachinePlantUMLExporter.java:115-118 | one line per transition |
| PlantUML.SourceLines | src/main/java/com/nofacepress/statemachine/exporter/StateMachinePlantUMLExporter.java:107-119 | one start line for the initial node, then one end line for a done node, or else one line per transition |
| PlantUML.Declarations | src/main/java/com/nofacepress/statemachine/exporter/StateMachinePlantUMLExporter.java:95-104 | one declaration per node |
| PlantUML.Render | src/main/java/com/nofacepress/statemachine/exporter/StateMachinePlantUMLExporter.java:88-122 | the appends produce the lines of Document |
| PlantUML.HeaderBlock | src/main/java/com/nofacepress/statemachine/exporter/StateMachinePlantUMLExporter.java:88-93 | the header appends produce Header |
| PlantUML.DeclarationLoop | src/main/java/com/nofacepress/statemachine/exporter/StateMachinePlantUMLExporter.java:95-104 | the declaration loop produces Declarations |
| PlantUML.DeclarationLine | src/main/java/com/nofacepress/statemachine/exporter/StateMachinePlantUMLExporter.java:96-103 | one iteration produces the node's declaration |
| PlantUML.ConnectionLoop | src/main/java/com/nofacepress/statemachine/exporter/StateMachinePlantUMLExporter.java:106-120 | the arrow loop produces Connections |
| PlantUML.SourceBlock | src/main/java/com/nofacepress/statemachine/exporter/StateMachinePlantUMLExporter.java:107-119 | one iteration, with the counter n, produces the node's SourceLines |
| PlantUML.ConnectionsLength | src/main/java/com/nofacepress/statemachine/exporter/StateMachinePlantUMLExporter.java:106-120 | the arrow lines number the initial nodes plus the done nodes plus the transitions of the other nodes |
| PlantUML.Frame | src/main/java/com/nofacepress/statemachine/exporter/StateMachinePlantUMLExporter.java:88-122 | the chart opens with `@startuml` and `skinparam monochrome true`, then `title t` iff the title is set, and ends with `@enduml` |
| PlantUML.Layout | src/main/java/com/nofacepress/statemachine/exporter/StateMachinePlantUMLExporter.java:88-122 | the line count, one declaration per node in list order after the header, then the arrow lines |
| PlantUML.OneStartLine | src/main/java/com/nofacepress/statemachine/exporter/StateMachinePlantUMLExporter.java:107-110 | the only line that starts with `[` is `[*] -right-> id` of the initial node |
| PlantUML.TransitionDrawn | src/main/java/com/nofacepress/statemachine/exporter/StateMachinePlantUMLExporter.java:115-118 | the k-th transition of a node that is not done is drawn with `arrows[k mod 3]` |
| PlantUML.EndDrawn | src/main/java/com/nofacepress/statemachine/exporter/StateMachinePlantUMLExporter.java:111-113 | a done node gets `id -down-> [*]` |
| PlantUML.Chart | src/main/java/com/nofacepress/statemachine/exporter/StateMachinePlantUMLExporter.java:88-122 | a drawable list gives 4 lines, plus the title line, one per node, one per done node and one per transition, with exactly one start line |
| PlantUML.ChartStart | src/main/java/com/nofacepress/statemachine/exporter/StateMachinePlantUMLExporter.java:107-110 | when the initial node is listed first, its start line comes right after the declarations |
| PlantUML.CurrentViewFacts | src/main/java/com/nofacepress/statemachine/exporter/StateMachinePlantUMLExporter.java:83 | the current analysis hands the renderer a drawable list with the initial node first and all the transitions |
| PlantUML.CurrentChart | src/main/java/com/nofacepress/statemachine/exporter/StateMachinePlantUMLExporter.java:83-122 | the current chart of a machine: 4 lines plus the title, the states, the done nodes and the transitions; one start line, for the initial node, right after the declarations |
| PlantUML.CurrentTransitionDrawn | src/main/java/com/nofacepress/statemachine/exporter/StateMachinePlantUMLExporter.java:111-118 | a done node is drawn as an end and has no transitions; every transition of another node is drawn from its id to its target's id with its event |
| PlantUML.CurrentNodeDrawn | src/main/java/com/nofacepress/statemachine/exporter/StateMachinePlantUMLExporter.java:106-119 | the lines of the node listed at position i: its end line or its transition lines |
| PlantUML.Export | src/main/java/com/nofacepress/statemachine/exporter/StateMachinePlantUMLExporter.java:81-126 | export returns the chart of the analysed machine |
| PlantUML.OlderViewFacts | src/main/java/com/nofacepress/statemachine/plantuml/StateMachineExporter.java:156 | the older analysis hands the renderer a drawable list holding all the transitions |
| PlantUML.OlderChart | src/main/java/com/nofacepress/statemachine/plantuml/StateMachineExporter.java:165-199 | the older chart has the same line count and exactly one start line, for the initial node, wherever it sorts |
| PlantUML.ExportToPlantUML | src/main/java/com/nofacepress/statemachine/plantuml/StateMachineExporter.java:153-203 | the older export returns the chart of the older analysis |
| LucidChart.StateRow | src/main/java/com/nofacepress/statemachine/exporter/StateMachineLucidChartExporter.java:110-127 | a shape row: id index + 2, `State Name`, `UML`, page `1`, the label in Text Area 1, the other fields empty |
| LucidChart.LineRow | src/main/java/com/nofacepress/statemachine/exporter/StateMachineLucidChartExporter.java:137-149 | a line row: its id, `Line`, page `1`, the source's and target's shape ids, `None`, `Arrow`, the event in Text Area 1, the other fields empty |
| LucidChart.Table | src/main/java/com/nofacepress/statemachine/exporter/StateMachineLucidChartExporter.java:77-153 | the whole table: the column names, the page row, the shape rows in list order, then the line rows numbered on from n + 2 |
| LucidChart.Print | src/main/java/com/nofacepress/statemachine/exporter/StateMachineLucidChartExporter.java:115 | a number field is written as its decimal string, a text field as itself |
| LucidChart.Fields | src/main/java/com/nofacepress/statemachine/exporter/StateMachineLucidChartExporter.java:77-152 | every row is written as exactly 12 fields |
| LucidChart.Label | src/main/java/com/nofacepress/statemachine/exporter/StateMachineLucidChartExporter.java:110-113 | the label is the name, or `name\n<q>` when the node is qualified |
| LucidChart.LineRows | src/main/java/com/nofacepress/statemachine/exporter/StateMachineLucidChartExporter.java:135-151 | one line row per transition of the source |
| LucidChart.Render | src/main/java/com/nofacepress/statemachine/exporter/StateMachineLucidChartExporter.java:77-153 | the writes produce the rows of Table |
| LucidChart.ShapeLoop | src/main/java/com/nofacepress/statemachine/exporter/StateMachineLucidChartExporter.java:109-129 | the state loop produces one shape row per node |
| LucidChart.LineLoop | src/main/java/com/nofacepress/statemachine/exporter/StateMachineLucidChartExporter.java:131-153 | the transition loops, with lineCounter starting after the shapes, produce AllLines |
| LucidChart.SourceLoop | src/main/java/com/nofacepress/statemachine/exporter/StateMachineLucidChartExporter.java:135-151 | one source's transitions produce its line rows, and the counter grows by their number |
| LucidChart.AllLinesSnoc | src/main/java/com/nofacepress/statemachine/exporter/StateMachineLucidChartExporter.java:133-153 | the line rows of one more source follow on, numbered from the lines already written |
| LucidChart.AllLinesShape | src/main/java/com/nofacepress/statemachine/exporter/StateMachineLucidChartExporter.java:137-138 | the line ids increase by exactly 1 per transition, across sources |
| LucidChart.TableShape | src/main/java/com/nofacepress/statemachine/exporter/StateMachineLucidChartExporter.java:77-153 | the column header, the page row, one shape row per node in list order, then line rows numbered by their position; 2 + n + transitions rows |
| LucidChart.TableLine | src/main/java/com/nofacepress/statemachine/exporter/StateMachineLucidChartExporter.java:137-147 | the k-th transition of source i is the line row at 2 + n + (earlier transitions) + k |
| LucidChart.PrintedIdsDistinct | src/main/java/com/nofacepress/statemachine/exporter/StateMachineLucidChartExporter.java:92-137 | in a list numbered by position, the page row and every shape and line row print pairwise distinct ids |
| LucidChart.ShapeRows | src/main/java/com/nofacepress/statemachine/exporter/StateMachineLucidChartExporter.java:115-124 | shape i has id i + 2, name `State Name` and node i's label |
| LucidChart.TableIds | src/main/java/com/nofacepress/statemachine/exporter/StateMachineLucidChartExporter.java:115-137 | every row after the page row has its position as id: shapes 2..n+1, lines from n+2 |
| LucidChart.TableLabels | src/main/java/com/nofacepress/statemachine/exporter/StateMachineLucidChartExporter.java:110-124 | row 2 + i is a shape carrying node i's label |
| LucidChart.ShapesNumbered | src/main/java/com/nofacepress/statemachine/exporter/StateMachineLucidChartExporter.java:77-153 | the header rows, ids equal to positions, labelled shapes then lines |
| LucidChart.LineBetweenShapes | src/main/java/com/nofacepress/statemachine/exporter/StateMachineLucidChartExporter.java:142-146 | a line's source and destination are the ids of its two shape rows, and its text is the event |
| LucidChart.ViewFacts | src/main/java/com/nofacepress/statemachine/exporter/StateMachineLucidChartExporter.java:72 | the analysed list has one shape per state in list order, indexed by position, and all the transitions |
| LucidChart.ModelTable | src/main/java/com/nofacepress/statemachine/exporter/StateMachineLucidChartExporter.java:72-153 | the table of a machine: 2 + states + transitions rows, the header rows, ids equal to positions, shape i labelled with the state listed at i |
| LucidChart.ModelIdsDistinct | src/main/java/com/nofacepress/statemachine/exporter/StateMachineLucidChartExporter.java:92-137 | in the table of a machine, the page, shape and line rows print pairwise distinct ids |
| LucidChart.TransitionLine | src/main/java/com/nofacepress/statemachine/exporter/StateMachineLucidChartExporter.java:133-147 | every transition of the machine is a line row joining the shape rows of its source and target, labelled with its event |
| LucidChart.NodeLine | src/main/java/com/nofacepress/statemachine/exporter/StateMachineLucidChartExporter.java:135-147 | the line of node h's k-th transition joins the two shape rows |
| LucidChart.Export | src/main/java/com/nofacepress/statemachine/exporter/StateMachineLucidChartExporter.java:69-157 | export returns the table of the analysed machine |
| SCXML.StateElement | src/main/java/com/nofacepress/statemachine/exporter/StateMachineSCXMLExporter.java:86-98 | a `state` element with attribute `id` the name, holding, for each transition in order, the text `\n    ` followed by a `transition` element with `event` and `target` |
| SCXML.Root | src/main/java/com/nofacepress/statemachine/exporter/StateMachineSCXMLExporter.java:80-101 | the `scxml` element with `xmlns`, `version` and `initial`, holding, for each node in list order, the text `\n  ` followed by its state element |
| SCXML.Stream | src/main/java/com/nofacepress/statemachine/exporter/StateMachineSCXMLExporter.java:78-103 | the writer calls of the document: start, newline, the root's events, newline, end |
| SCXML.AttributeEvents | src/main/java/com/nofacepress/statemachine/exporter/StateMachineSCXMLExporter.java:81-83 | one attribute event per attribute, in order |
| SCXML.ScanEvents | src/main/java/com/nofacepress/statemachine/exporter/StateMachineSCXMLExporter.java:78-103 | the events of an element close every element they open, leaving the open stack as it was |
| SCXML.ContentBalanced | src/main/java/com/nofacepress/statemachine/exporter/StateMachineSCXMLExporter.java:78-103 | the events of any element tree are balanced |
| SCXML.Interleave | src/main/java/com/nofacepress/statemachine/exporter/StateMachineSCXMLExporter.java:85-99 | an indent text before each child element |
| SCXML.XmlWriter.constructor | src/main/java/com/nofacepress/statemachine/exporter/StateMachineSCXMLExporter.java:75-76 | a new writer has written nothing and has no open element |
| SCXML.XmlWriter.WriteStartDocument | src/main/java/com/nofacepress/statemachine/exporter/StateMachineSCXMLExporter.java:78 | appends the document start |
| SCXML.XmlWriter.WriteCharacters | src/main/java/com/nofacepress/statemachine/exporter/StateMachineSCXMLExporter.java:79 | appends a text event |
| SCXML.XmlWriter.WriteStartElement | src/main/java/com/nofacepress/statemachine/exporter/StateMachineSCXMLExporter.java:80 | appends the start and pushes the element |
| SCXML.XmlWriter.WriteAttribute | src/main/java/com/nofacepress/statemachine/exporter/StateMachineSCXMLExporter.java:81 | appends an attribute |
| SCXML.XmlWriter.WriteEndElement | src/main/java/com/nofacepress/statemachine/exporter/StateMachineSCXMLExporter.java:95 | ends the innermost open element and pops it |
| SCXML.XmlWriter.WriteEndDocument | src/main/java/com/nofacepress/statemachine/exporter/StateMachineSCXMLExporter.java:103 | closes every element still open, then ends the document |
| SCXML.Render | src/main/java/com/nofacepress/statemachine/exporter/StateMachineSCXMLExporter.java:78-103 | the writer calls leave the stream of the document and no open element |
| SCXML.WriteOpening | src/main/java/com/nofacepress/statemachine/exporter/StateMachineSCXMLExporter.java:78-83 | the document start, a newline, the root start with its three attributes, the root left open |
| SCXML.WriteStates | src/main/java/com/nofacepress/statemachine/exporter/StateMachineSCXMLExporter.java:85-99 | the state loop writes each state element after its indent |
| SCXML.WriteState | src/main/java/com/nofacepress/statemachine/exporter/StateMachineSCXMLExporter.java:86-98 | one state: its indent and its element, the open stack as before |
| SCXML.WriteTransitions | src/main/java/com/nofacepress/statemachine/exporter/StateMachineSCXMLExporter.java:90-96 | the transition loop writes each transition element after its indent |
| SCXML.WriteTransition | src/main/java/com/nofacepress/statemachine/exporter/StateMachineSCXMLExporter.java:91-95 | one transition: its indent and its element |
| SCXML.StreamShape | src/main/java/com/nofacepress/statemachine/exporter/StateMachineSCXMLExporter.java:78-103 | the stream starts with the document, a newline and the root `scxml` with the namespace `http://www.w3.org/2005/07/scxml`, version `1.0` and the initial name; it ends by closing the root, a newline and the document end; it is balanced |
| SCXML.DocumentBalanced | src/main/java/com/nofacepress/statemachine/exporter/StateMachineSCXMLExporter.java:78-103 | a balanced body inside the document start and end stays balanced |
| SCXML.RootShape | src/main/java/com/nofacepress/statemachine/exporter/StateMachineSCXMLExporter.java:80-99 | the root `scxml` has the three attributes and, per node, the indent `\n  ` and the state element |
| SCXML.StateShape | src/main/java/com/nofacepress/statemachine/exporter/StateMachineSCXMLExporter.java:86-96 | a state element has id the node's name and, per transition, the indent `\n    ` and a childless transition element with the event and the target's name; no children iff no transitions |
| SCXML.Export | src/main/java/com/nofacepress/statemachine/exporter/StateMachineSCXMLExporter.java:70-106 | export returns the stream of the analysed machine |
| SCXML.ModelStates | src/main/java/com/nofacepress/statemachine/exporter/StateMachineSCXMLExporter.java:83-88 | one state element per state in list order, each with the state's name; the initial attribute names the state listed first |
| SCXML.ModelState | src/main/java/com/nofacepress/statemachine/exporter/StateMachineSCXMLExporter.java:85-96 | every state's element carries its name and its transitions in sorted order, each with its event and its target state's name |

## Left out

- Output goes to no `Writer`: the renderers return lines, 12-field rows and stream events. Flushing, closing, the file-name overloads and `IOException` are not modelled.
- The Spring `StateMachine`, `State`, `Transition` and trigger API: the input is a sequence of state names, a sequence of `(source, target, event)` triples and the initial name, each already converted with `toString`.
- Machines that are not `Machines.WellFormed` are excluded. The model does not capture three behaviours of the code. An undeclared transition endpoint dereferences `null`, as does a missing initial state in the current analysis. A repeated state id leaves the earlier state in the list with no transitions, because the later one replaces it in the state map. Distinct ids that print the same name are separate nodes with equal names, which the model's by-name identification cannot represent.
- Legacy.AnalyzeStateMachine, PlantUML.ExportToPlantUML: the older code accepts a machine whose initial state is not one of its states and then returns no node qualified `initial` and writes no `[*] -right->` line (plantuml/StateMachineExporter.java:106, :128, :184-186); `Machines.WellFormed` excludes that input, so the model does not describe that output. The builder of a Spring state machine always supplies an initial state among its states.
- CSV quoting and escaping by the CSV writer library are not part of this model. Fields are raw strings. A null page title is not modelled: `pageTitle` is a string.
- XML character escaping and the serialisation of stream events to text belong to the StAX writer library and are not part of this model. The model stops at the sequence of writer calls.
- SCXML.XmlWriter.WriteEndElement: requires an open element, where the StAX writer throws on an unmatched end. The rule that attributes may only follow a start tag is not modelled.
- A `null` PlantUML title is `None`; an empty title is treated as the code treats it.
- Java `int` overflow of path lengths, indices and the line counter is not modelled: the values are unbounded naturals, which is what a machine with fewer than 2^31 states sees.
- Java `char` is a UTF-16 code unit; the model's `char` ranges over Unicode scalar values. Sanitising only keeps ASCII characters, so the difference does not show in the ids. It does show in `String.compareTo`, and so in both node sorts and both transition sorts: Java compares code units, so `\uFFFF` sorts after a character above U+FFFF (whose first code unit is a surrogate from `\uD800`), while the model sorts it before. Names inside the Basic Multilingual Plane sort the same in both.
- PathLength.PathLengths: the final values are not given as one closed formula over the graph, such as the longest simple path. The in-progress sentinel `0` makes a value depend on the order of the walk, so no such formula holds on every cyclic graph. PathLengthOf states the one-walk relation (1 plus the maximum of what the successors returned), and PathLengthsChain, LeafLength, LongerThroughSuccessor and PathLengthBound state what holds of the final values.
- SCXML.ModelState: the state element of a machine's node is stated through the view list; the final element tree follows by RootShape and StateShape and is not restated as one lemma.
- The example and wiring classes (Spring configuration, handlers, the command-line exporter) are not part of this model.
