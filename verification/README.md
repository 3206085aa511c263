# Verified models of the investigation platform's core

This project models, in Dafny, the parts of the platform whose correctness is hard to see by reading
them, and proves what they promise. Verify it with `dafny verify dfyconfig.toml`. There is one group
of modules for each component:

- **Query compiler** (`Regex`, `HintText`, `LogQL`, `WordOrders`, `Queries`, `QueryMeaning`): a
  free-text hint becomes a LogQL line filter. The filter is read back, through string unquoting and a
  regular-expression parser with a match relation, and shown to pass exactly the lines that answer the
  hint. How text is lower-cased (`lower`) and how the matcher ignores case (`fold`) are parameters.
- **Blast radius** (`BlastSearch`, `BlastRadius`, `CausalGraphs`, with `Rounding`): the label-correcting
  search with its cut-off and its rounding, and (`CausalLearning`) what is learned from co-failures.
- **Evidence graph** (`EvidenceGraphs`, `EvidenceTraversals`, `TraversalOrder`, `EvidenceStore`): adjacency
  indexes, hop-bounded traversal and its order, and serialisation.
- **Execution graph** (`Events`, `ExecutionGraphs`, `GraphLayout`, `GraphBuilders`, `GraphRebuild`,
  `GraphGrowth`, `LayoutOrder`, `LayoutExample`, `Snapshots`): the graph built from an event stream, what each
  event adds to it, its layout, and the check a replay snapshot must pass.
- **Event streaming** (`EventBus`, `WSManager`, `Reconnect`, `ReconnectDelivery`, `Replay`, `ReplayProgress`):
  duplicate and history windows, the bookkeeping of handlers, reconnecting clients, and a replay task
  among its controls, both that nothing wrong happens and that what was begun gets done. A protocol is
  a state machine whose steps are what happens between two awaits; theorems quantify over all runs.
- **Operations store** (`Migrations`, `MigrationSafety`, `Writer`): schema migrations that may be
  killed between any two statements, and the bounded write queue.
- **Statistics and indexes** (`PatternStats`, `VectorIndex`, `VectorSearch`, `VectorMeaning`, `WikiIndexer`): least
  squares and correlation, the text index with its scores, and the tag, entity and link indexes.
- `Base`, `Dicts` and `Sorting` hold shared vocabulary: insertion-ordered dictionaries and a stable sort.

Where the program changes objects in place the model has a class whose methods are proved against a
function on the state's value (`State()`, `Now()`, `Remembered()`, `Registry()`); the theorems are about
that function and about all its runs.

## What turned out differently from what one might expect

- **Blast radius can run forever.** With a cycle of correlations of exactly 1.0 and a probability such as
  0.33333, which is stored as 0.3333, the queue never empties (`BlastRadius.SearchLoops`). Such a cycle is
  the only obstacle: the queue empties on every graph in which no cycle that avoids the origin has only
  correlations of 1.0 (`BlastRadius.SearchTerminates`), and recorded co-failures keep all correlations
  below 1 (`CausalGraphs.RecordedGraphsTerminate`).
- **The exactly-once window** spans 90,002 accepted events, and no more: `EventBus.ForgottenKey` is a run
  that accepts a key again 90,002 places later.
- **An abort before the replay task's first step is lost**: the task then sets its status to running.
  `Replay.AbortStops` says exactly when an abort stops the callbacks.
- **A pause right after a resume lets one more event through**, since the task that was already woken does
  not look again. `Replay.PauseHolds` says exactly when.
- **An abort in step mode during a callback leaves the replay task waiting for good**: it forgets the
  wake-up before it waits for the next step. `ReplayProgress.AbortEnds` says that in every other case the
  task ends. For the same reason a step during a callback is lost (`ReplayProgress.StepIsLost`).
- **A client that watches every investigation with `*` is sent no history**: nothing that was accepted before
  it joined (`ReconnectDelivery.WatchersGetNoHistory`), only what follows (`ReconnectDelivery.WatchersSeeAll`).
- **Registering a connection under an id still in use leaves a handler on the bus for good**
  (`WSManager.ReusedIdLeaks`); in every other run, ids used again after their disconnect included, the
  books are right (`WSManager.RunBooked`, `WSManager.NothingLeft`).
- **An edge added again between other ends breaks the adjacency lists** of the evidence graph;
  `EvidenceGraphs.AddEdgeKeeps` says exactly when they stay exact.
- **An edge of the laid-out execution graph need not lead to the right**, although the layout is described
  as a topological one: a node raised to a later level after it was visited leaves its children where they
  are. Seven events that lead there are given (`LayoutExample.LayoutMayStall`), and
  `LayoutOrder.GoesRightExactly` says for which graphs every edge leads to the right.
- **The recorded schema version can fall**, exactly when a start cannot read it and is then killed at the
  wrong moment (`MigrationSafety.VersionFalls`); the schema still converges.

## Model

| member | source | states |
|---|---|---|
| Regex.EscapeHits | oss_validation_gateway/queries.py:124-131 | An escaped text, parsed as a regular expression, matches exactly the spans that spell the text when case is ignored, whatever metacharacters it holds |
| Regex.GroupHits | oss_validation_gateway/queries.py:149-152 | A group of patterns matches exactly the spans that one of its alternatives matches |
| Regex.JoinHits | oss_validation_gateway/queries.py:220-221 | Patterns joined by `.*` match exactly the spans in which they occur one after the other without overlap |
| Regex.DotStarSpans | oss_validation_gateway/queries.py:203-205 | `.*` matches exactly the spans without a newline |
| LogQL.QuoteRoundTrip | oss_validation_gateway/queries.py:113-114 | A quoted value followed by its closing quote reads back as the value, and what follows is untouched |
| LogQL.QueryRoundTrip | oss_validation_gateway/queries.py:155-157 | The emitted text reads back as the service it was made for and the pattern it was made with |
| HintText.StripWords | oss_validation_gateway/queries.py:182-182 | Stripping a hint keeps its words, in order |
| HintText.StripMeaning | oss_validation_gateway/queries.py:105-105 | Stripping takes away white space at both ends only, and leaves none there |
| HintText.SplitWsExact | oss_validation_gateway/queries.py:182-182 | Splitting at runs of white space and dropping empty pieces gives the words |
| HintText.OrSplitMeaning | oss_validation_gateway/queries.py:68-68 | Splitting the stripped hint at the word OR gives the alternatives: the words between the ORs, where an OR at either end is an ordinary word |
| WordOrders.PermsMember | oss_validation_gateway/queries.py:220-220 | The orders tried are those of `itertools.permutations`: some word first, then an order of the others |
| WordOrders.PermsElements | oss_validation_gateway/queries.py:220-220 | Every order tried consists of the given words |
| WordOrders.SomeOrder | oss_validation_gateway/queries.py:200-225 | Some order of the patterns matches one after the other exactly if all patterns occur somewhere in the line at places that do not overlap |
| Queries.IndexSynonyms | oss_validation_gateway/queries.py:74-88 | The loops build the synonym index that `QueryMeaning.IndexSound` describes |
| Queries.HintPattern | oss_validation_gateway/queries.py:134-152 | The loop builds the pattern whose matches `QueryMeaning.WordPatternHits` describes |
| Queries.PermutePattern | oss_validation_gateway/queries.py:200-225 | The loop builds the pattern whose matches `QueryMeaning.OrderPatternSearch` describes, and refuses more than three words |
| Queries.KeywordsFromClause | oss_validation_gateway/queries.py:174-197 | The loop keeps the words that `QueryMeaning.KeywordMeanings` describes, and refuses more than three |
| Queries.RejectNot | oss_validation_gateway/queries.py:160-171 | A hint is refused exactly if one of its words is "not" in any case |
| Queries.SplunkQueryToLogQL | oss_validation_gateway/queries.py:228-276 | The translation loop computes the result that `QueryMeaning.TranslationMeaning` and `QueryMeaning.TranslationErrors` describe |
| QueryMeaning.IndexSound | oss_validation_gateway/queries.py:74-88 | A token is in the index exactly if a row has it as its hint or as a one-word synonym, and leads to the set of such a row |
| QueryMeaning.TokenUsesItsSet | oss_validation_gateway/queries.py:117-121 | When every token belongs to one row only, a token is looked up as the full set of its row, in any case |
| QueryMeaning.IndexedMeaning | oss_validation_gateway/queries.py:74-88 | Which row an indexed token leads to, said on the table: the last that has it as its hint, or if none has, the first that lists it as a one-word synonym; no other token is in the index |
| QueryMeaning.TermsMean | oss_validation_gateway/queries.py:117-121 | Looking a word up gives what the table says it means: the synonyms of that row, or just the word itself if no row has it |
| QueryMeaning.MeaningOfPhrase | oss_validation_gateway/queries.py:117-121 | When no two rows share a token, a word means a phrase exactly if the row that has the word lists the phrase, or no row has it and the phrase is the word |
| QueryMeaning.ShippedConfig | oss_validation_gateway/queries.py:60-64 | The table that is shipped satisfies what the theorems ask of a table |
| QueryMeaning.KeywordMeanings | oss_validation_gateway/queries.py:174-197 | The kept words are the clause's words without the service's name and "and", one for each distinct set of meanings, in order |
| QueryMeaning.WordPatternHits | oss_validation_gateway/queries.py:134-152 | A word's pattern matches exactly where one of its synonyms occurs |
| QueryMeaning.OrderPatternSearch | oss_validation_gateway/queries.py:200-225 | A hint's pattern is found in a line exactly if all its words occur in it, each as any of its synonyms, at places that do not overlap |
| QueryMeaning.ClausesSearch | oss_validation_gateway/queries.py:259-269 | One of the alternatives' patterns is found in a line exactly if one of the alternatives is answered by it |
| QueryMeaning.AssembledQuery | oss_validation_gateway/queries.py:270-276 | The assembled text selects the service, and its filter passes a line exactly if one of the patterns is found in it |
| QueryMeaning.TranslationMeaning | oss_validation_gateway/queries.py:228-276 | For every table, accepted hint and service: the text reads back as a query for the stripped service; its filter compiles and passes a line without a newline exactly if the line answers one of the hint's alternatives, each word taken as what the table says it means; there is no filter exactly if nothing is asked |
| QueryMeaning.TranslationErrors | oss_validation_gateway/queries.py:228-276 | Each of the four refusals happens exactly in its case: empty name, a character in the name outside the allowed ones, the word "not", more than three words in an alternative, with the count of the first such |
| BlastSearch.AfterInvariant | intelligence/causal_graph.py:104-126 | After any number of rounds every stored path is a walk from the origin that does not come back to it, with every proper prefix above 0.05, its stored probability is the rounded product and its delay the sum along it; and an edge not yet accounted for is waiting in the queue |
| BlastSearch.ProductMeaning | intelligence/causal_graph.py:109-117 | The probability of a walk is 1 at its start and is multiplied by the correlation of each further edge, and its delay grows by that edge's delay |
| BlastRadius.SettledEdge | intelligence/causal_graph.py:110-126 | At the end each edge that leaves the origin or a service whose path product exceeds 0.05 leads to a stored probability of at least the rounded product along it |
| BlastRadius.SearchTerminates | intelligence/causal_graph.py:104-126 | The queue runs empty on every graph with correlations up to 1, cycles included, in which no cycle that avoids the origin consists of correlations of 1 only |
| BlastRadius.BelowOneFades | intelligence/causal_graph.py:104-126 | That holds in particular when all correlations are below 1 |
| BlastRadius.SearchLoops | intelligence/causal_graph.py:104-126 | On the graph given, which has such a cycle, the queue never runs empty |
| BlastRadius.LoopDoesNotFade | intelligence/causal_graph.py:104-126 | The graph given is one that the condition for termination excludes |
| BlastRadius.NearOptimal | intelligence/causal_graph.py:104-126 | With the program's rounding, no walk that stays clearly above the cut-off beats the reported probability by more than 0.0001 for each edge, and what is reported is within 0.00005 of a real walk |
| BlastRadius.ExactMaximum | intelligence/causal_graph.py:104-126 | Without rounding the reported probability is the greatest product over all walks whose proper prefixes exceed 0.05, and the reported path attains it |
| BlastRadius.UpdateBounds | intelligence/causal_graph.py:176-181 | A co-failure keeps a correlation at most 0.9999, never lowers it, and leaves it rounded |
| BlastRadius.CoFailuresConverge | intelligence/causal_graph.py:176-181 | Twenty-five co-failures bring any correlation up to exactly 0.9999, where it stays |
| CausalGraphs.RecordingKeeps | intelligence/causal_graph.py:159-187 | Any sequence of recorded co-failures keeps all correlations at most 0.9999, loses no edge, and lowers none |
| CausalLearning.OneReport | intelligence/causal_graph.py:159-187 | A first co-failure gives an edge with correlation 0.1, the reported delay and a count of 1; a further one brings the correlation to 0.3 plus 0.7 of it, up to rounding, the delay to 0.3 of the reported and 0.7 of the known one, cut off towards zero, and counts one more; no other edge changes |
| CausalLearning.ReportsLearned | intelligence/causal_graph.py:159-187 | After any reports an edge exists exactly if it was known or reported; its count has grown by the number of reports about it, its correlation has been updated that often, and it carries the time of the latest |
| CausalLearning.DelayLearned | intelligence/causal_graph.py:182-185 | The learned delay stays between the smallest and the largest of the known and the reported ones |
| CausalGraphs.RecordedGraphsTerminate | intelligence/causal_graph.py:88-187 | The search therefore ends on every graph that recording co-failures leads to |
| CausalGraphs.CausalGraph.Adjacency | intelligence/causal_graph.py:99-101 | The adjacency lists hold each service's outgoing edges in order |
| CausalGraphs.CausalGraph.FollowEdges | intelligence/causal_graph.py:109-126 | The inner loop is the relaxation of all edges of one service |
| CausalGraphs.CausalGraph.Spread | intelligence/causal_graph.py:104-126 | The loop over the queue ends, with a result that has settled, on every graph without such a cycle |
| CausalGraphs.CausalGraph.GetBlastRadius | intelligence/causal_graph.py:88-157 | An unknown service affects nothing; otherwise, on every graph without such a cycle, the settled entries are reported, each once, most probable first |
| CausalGraphs.CausalGraph.RecordCoFailure | intelligence/causal_graph.py:159-187 | The stored edge becomes the one of which `CausalGraphs.RecordingKeeps` speaks, and no other changes |
| Rounding.Round4IsRounding | intelligence/causal_graph.py:121-121 | Rounding to four places keeps order, does nothing twice and errs by at most 0.00005 |
| Rounding.Round4Meaning | intelligence/causal_graph.py:121-121 | The result is the nearest ten-thousandth and, half way between two, the even one, and nothing else is |
| EvidenceGraphs.AddNodeKeeps | intelligence/evidence_graph.py:216-222 | Adding or replacing a node keeps both adjacency indexes exact |
| EvidenceGraphs.AddEdgeKeeps | intelligence/evidence_graph.py:224-238 | Adding an edge keeps both indexes exact exactly if its id is new or already names an edge between the same ends |
| EvidenceGraphs.MovedEdgeBreaks | intelligence/evidence_graph.py:224-238 | A graph built from nothing in which an edge added again with another end leaves an index stale |
| EvidenceGraphs.RoundTrip | intelligence/evidence_graph.py:351-383 | Loading a saved graph gives back its header, its nodes and edges in the same order with nothing changed but confidences and weights, which are rounded to four places, and the same adjacency lists; saving again gives the same document |
| EvidenceTraversals.NeighboursMeaning | intelligence/evidence_graph.py:309-313 | The neighbours of a node are the stored nodes one hop away in the direction and by the relationship asked for |
| EvidenceTraversals.TraversalMeaning | intelligence/evidence_graph.py:295-324 | A traversal finds, each once and nearest first, exactly the nodes other than the root within the given number of hops |
| EvidenceTraversals.WithinIsWalks | intelligence/evidence_graph.py:295-324 | Being within so many hops means that a walk of at most so many edges leads there, each with the wanted relationship if one is given |
| TraversalOrder.FollowOrder | intelligence/evidence_graph.py:269-293 | Neighbours come in the order in which their edges were added, once for each edge |
| TraversalOrder.HopOrder | intelligence/evidence_graph.py:302-324 | Each hop adds at the end the nodes met for the first time, in the order in which they are met when the nodes of the hop before are taken in order and the neighbours of each in order |
| EvidenceTraversals.TraversedDone | intelligence/evidence_graph.py:321-322 | Stopping at an empty frontier changes nothing |
| EvidenceStore.EvidenceGraph.AddNode | intelligence/evidence_graph.py:216-222 | The node is stored under its id, in place of an earlier one, nothing else is, and the id is returned; the new state is the one that `EvidenceGraphs.AddNodeKeeps` is about |
| EvidenceStore.EvidenceGraph.AddEdge | intelligence/evidence_graph.py:224-238 | An edge with a missing end is an error and changes nothing; otherwise it is stored under its id, in place of an earlier one; the new state is the one that `EvidenceGraphs.AddEdgeKeeps` is about |
| EvidenceStore.EvidenceGraph.GetOutgoing | intelligence/evidence_graph.py:269-280 | The loop gives the nodes that `EvidenceTraversals.FollowLinked` describes |
| EvidenceStore.EvidenceGraph.GetIncoming | intelligence/evidence_graph.py:282-293 | The same for incoming edges |
| EvidenceTraversals.FollowLinked | intelligence/evidence_graph.py:269-293 | Exactly the stored nodes linked by an edge with the wanted relationship are found |
| EvidenceStore.EvidenceGraph.TraverseFrom | intelligence/evidence_graph.py:295-324 | The nested loops with their early exit find what a traversal must find, in the order that `TraversalOrder.HopOrder` describes, also for a limit of zero or less and for a root that is not in the graph |
| EvidenceStore.EvidenceGraph.Load | intelligence/evidence_graph.py:366-383 | The loader's loops give the graph of the document, skipping edges without both ends |
| EvidenceStore.LoadedBuilt | intelligence/evidence_graph.py:366-383 | Any document whose edge ids determine the ends loads into a graph with exact indexes |
| ExecutionGraphs.AddEdgeOrdered | sentinel_core/models/graph.py:136-146 | An edge to a later node keeps nodes in sequence, edges forward, and the listed parents and children equal to the edges |
| ExecutionGraphs.AddNodeOrdered | sentinel_core/models/graph.py:130-134 | So does a node whose number is above all others |
| GraphLayout.FinalLevelsMeaning | agui/graph_builder.py:455-474 | On any graph the assignment ends; a node has a level exactly if a path leads to it from a root, and the level is the length of such a path |
| GraphLayout.PlacesDiffer | agui/graph_builder.py:476-486 | No two nodes that have a level are put in the same place |
| GraphLayout.LevelSpread | agui/graph_builder.py:476-486 | A node stands 200 to the right for each level; the nodes of a level stand 80 apart, the first as far above the axis as half their number times 80 |
| LayoutOrder.LevelsFollowOrder | agui/graph_builder.py:455-474 | A node's level is at least the length of every path to it whose nodes are visited one after the other, and is the length of such a path unless a node is its own child |
| LayoutOrder.GoesRightExactly | agui/graph_builder.py:445-486 | Every edge leads to a later level exactly if, for each node, the breadth-first search comes along some longest path to it in order |
| LayoutOrder.GradedGoesRight | agui/graph_builder.py:445-486 | So it does, by exactly one column, when all paths to a node have the same length |
| LayoutExample.EdgeStaysInColumn | agui/graph_builder.py:455-474 | In every graph of a certain shape an edge stays in one column, because its source was raised after it was visited |
| LayoutExample.ExampleIsRebuilt | agui/graph_builder.py:505-516 | Seven events are rebuilt into a graph of that shape |
| LayoutExample.LayoutMayStall | agui/graph_builder.py:445-486 | In the graph rebuilt from these events not every edge leads to the right |
| GraphBuilders.GraphBuilder.ProcessEvent | agui/graph_builder.py:78-141 | One event adds a placeholder for each missing number, then what its handler adds, and lays the graph out anew |
| GraphBuilders.GraphBuilder.HandleEvent | agui/graph_builder.py:143-357 | The handlers change nodes, edges, phase parents and known tool calls as `GraphGrowth.EventAdds` says |
| GraphBuilders.GraphBuilder.AttachNode | agui/graph_builder.py:418-427 | A new node gets an edge from each parent of the current phase |
| GraphBuilders.GraphBuilder.AssignLevels | agui/graph_builder.py:455-474 | The queue loop ends and assigns the levels that `GraphLayout.FinalLevelsMeaning` describes |
| GraphBuilders.GraphBuilder.SpreadLevels | agui/graph_builder.py:476-486 | Grouping by level and spreading gives every node that has a level its place, and moves no other |
| GraphRebuild.HandleSound | agui/graph_builder.py:143-357 | A handler keeps a graph ordered when the event's number is above those of all nodes |
| GraphGrowth.EventAdds | agui/graph_builder.py:143-357 | For each kind of event: which node it adds, of what kind and number, that it gets an edge from exactly the current phase parents, which nodes are the parents of what follows, and which tool call is remembered; other kinds add nothing |
| GraphGrowth.OpenToolsMeaning | agui/graph_builder.py:241-242 | After a response to a known call the parents are exactly the tool calls and placeholders without a child, in order |
| GraphGrowth.GapsAdd | agui/graph_builder.py:429-443 | Each missing number gets a placeholder with an edge from exactly the current phase parents |
| GraphGrowth.ProcessAdds | agui/graph_builder.py:78-141 | An event first fills the gap before it and is then handled |
| GraphGrowth.RebuiltNodes | agui/graph_builder.py:505-516 | For any events the rebuilt graph has a node for each event whose kind is shown, a placeholder for each missing number, and no others |
| GraphRebuild.RebuiltIsAcyclic | agui/graph_builder.py:505-516 | Rebuilt from events with different numbers, in whatever order they are given, every edge leads from a smaller to a larger number and no walk comes back |
| GraphRebuild.RebuiltIsLaidOut | agui/graph_builder.py:445-486 | In such a graph every node has a place, no two the same one, in a column that is the length of a path from a root |
| GraphRebuild.RebuiltGaps | agui/graph_builder.py:78-86 | For any events at all, the graph counts each of them, and its gaps are exactly the missing numbers, ascending and each once |
| GraphRebuild.RebuildFromEvents | agui/graph_builder.py:505-516 | The loop over the sorted events builds the graph that these theorems are about |
| Snapshots.Validate | agui/replay_engine.py:170-223 | Each problem is reported exactly in its case, and a snapshot is valid exactly if there is none, which is what the theorems below call accepted |
| Snapshots.NoGapsIffComplete | agui/replay_engine.py:194-199 | No gap is found exactly if the numbers are 0 up to one less than the number of events, each once |
| Snapshots.BuiltSnapshotValid | agui/replay_engine.py:143-168 | A snapshot built from events validates exactly if they are complete and include a start |
| Snapshots.ValidSnapshotRebuilds | agui/replay_engine.py:170-223 | A valid snapshot rebuilds without gap or cycle, laid out, with every event counted, and is replayed as number 0, 1, 2 and so on |
| Snapshots.ChainHashBinds | agui/replay_engine.py:99-104 | With keys of one length and a hash without collisions, a matching chain hash means the same keys in the same order |
| Events.InOrderKeeps | agui/replay_engine.py:102-102 | Sorting by sequence number loses and adds no event |
| Sorting.SortStable | agui/replay_engine.py:102-102 | Elements with the same key keep their order when sorted |
| EventBus.FeedWindows | agui/event_bus.py:170-197 | Over every run: the seen keys are the keys of the latest accepted events, at most 100,000; each history is exactly the last 10,000 accepted events of its investigation; and no key occurs twice among 90,002 consecutive accepted events |
| EventBus.NothingLost | agui/event_bus.py:170-176 | In every run an event that is not accepted repeats the key of one that was |
| EventBus.ForgottenKey | agui/event_bus.py:178-183 | That number cannot be improved: a run that accepts one key twice, 90,002 places apart |
| EventBus.InProcessEventBus.BeginEvent | agui/event_bus.py:170-208 | A known key changes nothing; a new one is remembered, recorded in its history, and handed to the subscribers there are |
| EventBus.InProcessEventBus.GetHistory | agui/event_bus.py:139-146 | The buffered events of the investigation from the given number on, in order |
| EventBus.SinceMeaning | agui/event_bus.py:139-146 | What is read from a history are exactly its events from the given number on, in their order and as often as they are there |
| EventBus.InProcessEventBus.Subscribe | agui/event_bus.py:124-131 | The handler is added to its investigation and to no other |
| EventBus.InProcessEventBus.Unsubscribe | agui/event_bus.py:133-137 | One occurrence of the handler is removed, if there is one |
| WSManager.RegisterKeeps | agui/ws_manager.py:106-117 | Registering a connection keeps the books right exactly if its id is not in use |
| WSManager.MoveMeaning | agui/ws_manager.py:239-254 | A client that asks for another investigation is afterwards served there and nowhere else, an empty name changes nothing, and all others stay as they were |
| WSManager.RunBooked | agui/ws_manager.py:113-153 | After any run of connects, moves, deliveries and repeated disconnects: each live connection has exactly one handler on the bus, the recorded one, under its current investigation, and there are no others, exactly if no connection was registered under an id still in use |
| WSManager.NothingLeft | agui/ws_manager.py:143-153 | After its disconnect a connection has no handler on the bus, and disconnecting again changes nothing |
| WSManager.ReusedIdLeaks | agui/ws_manager.py:113-117 | A run in which a second connection under an id in use leaves a handler behind that no disconnect removes |
| WSManager.Manager.BeginConnect | agui/ws_manager.py:106-117 | Connecting registers the connection and subscribes a new handler for it |
| WSManager.Manager.Disconnect | agui/ws_manager.py:143-153 | Disconnecting removes the connection and its recorded handler |
| WSManager.Manager.SubscribeMessage | agui/ws_manager.py:239-254 | A client that moves gets a new handler under the new investigation and loses the old one |
| WSManager.Manager.RecordDelivery | agui/ws_manager.py:200-209 | A delivery raises the connection's last number to that of a later event, counts the message, and touches no other connection |
| Reconnect.ReachSound | agui/ws_manager.py:113-206 | What every step of connecting, dispatching, moving and leaving keeps: nothing owed to a connection that stays is lost between history and live delivery |
| Reconnect.NoGap | agui/ws_manager.py:113-135 | In every interleaving, once connect is done and the dispatcher is between events, a connection that stays has been handed every accepted event from the number it asked for on, unless the event had left the history window when the history was read |
| ReconnectDelivery.GapsClose | agui/ws_manager.py:113-135 | From every state of every run, once its own connect and the dispatcher have finished what they began, and they do, a connection that stays has been handed all it is owed |
| ReconnectDelivery.HandedOnlyWanted | agui/ws_manager.py:113-206 | In every run a connection that stays is handed accepted events of its own investigation only, unless it asked for all |
| ReconnectDelivery.WatchersSeeAll | agui/event_bus.py:198-212 | Between events, a connection that asked for all has been handed every event accepted since it joined |
| ReconnectDelivery.WatchersGetNoHistory | agui/ws_manager.py:125-135 | As long as no event belongs to an investigation of that name, such a connection has no history read for it |
| ReconnectDelivery.CountsAreRight | agui/ws_manager.py:200-209 | In every run the messages counted for a live connection are as many as the events it was handed, and its last number is the largest among theirs and the one it asked from |
| Replay.ReplaySession.RunReplay | agui/replay_engine.py:279-320 | Each stretch of the loop from one await to the next takes the session exactly one move of the task further in the runs that `Replay.ReplaySafe` quantifies over |
| Replay.ReplaySession.Pause | agui/replay_engine.py:344-350 | Only a running session is paused |
| Replay.ReplaySession.Resume | agui/replay_engine.py:352-358 | Only a paused session is resumed, and its waiting task is woken |
| Replay.ReplaySession.Step | agui/replay_engine.py:360-366 | Only a session in step mode is stepped, and its waiting task is woken, as `ReplayProgress.StepsStart` needs |
| Replay.ReplaySession.Abort | agui/replay_engine.py:368-375 | The session is aborted and its task is woken, whatever it waits for |
| Replay.RunConsistent | agui/replay_engine.py:279-375 | What holds at every moment of every run: how far the task is, what it has started, and what its status and its two event objects may be |
| Replay.ReplaySafe | agui/replay_engine.py:279-320 | In every run the callbacks started are the first `current_step` events in sequence order, a session completes only when all have been started, and step mode starts at most one more than calls of step |
| Replay.AbortStops | agui/replay_engine.py:368-375 | No callback starts after an abort exactly if the task had begun or there are no events |
| Replay.PauseHolds | agui/replay_engine.py:344-350 | Between a pause and the next resume at most one callback starts, and none exactly if the task was not already past its wait |
| Replay.PauseTooLate | agui/replay_engine.py:344-358 | A session of two events, paused, resumed and paused again, in which a callback follows the pause |
| Replay.ReplayCompletes | agui/replay_engine.py:279-320 | A replay that nobody touches completes, with every event delivered |
| ReplayProgress.StepsStart | agui/replay_engine.py:279-366 | In step mode, when nobody pauses or aborts, so many calls of step, each while the task waits, leave one callback more started, at most one for each event; the session is complete exactly after as many calls as there are events |
| ReplayProgress.StepIsLost | agui/replay_engine.py:299-366 | A call of step during a callback starts nothing |
| ReplayProgress.ResumedCompletes | agui/replay_engine.py:279-358 | Whatever happened before, a paused session in live or fast mode that is resumed and left alone completes, with every event delivered |
| ReplayProgress.AbortEnds | agui/replay_engine.py:279-375 | Once it has begun, an aborted task ends exactly unless it is aborted in step mode during a callback |
| Migrations.OpsDatabase.EnsureSchema | database/ops_persistence.py:359-361 | The base statements run in order until one fails |
| Migrations.OpsDatabase.RunMigrations | database/ops_persistence.py:404-425 | The pending migrations run in order, each followed by its version, until a statement fails; a duplicate column is no failure |
| Migrations.OpsDatabase.Startup | database/ops_persistence.py:323-345 | A start is the base schema and then the pending migrations |
| MigrationSafety.RecordedMeansApplied | database/ops_persistence.py:396-425 | After any history of starts, each killed anywhere, a recorded version means that every table, column and index of the base schema and of the migrations up to it is there |
| MigrationSafety.CompleteMeansApplied | database/ops_persistence.py:323-425 | A complete start that succeeds, whatever came before, leaves the base schema and all migrations up to its version, no other table or index, and that version recorded |
| MigrationSafety.Converges | database/ops_persistence.py:404-425 | After any such history, also of earlier versions of the program, one complete start leaves the database exactly as a first start that was never interrupted |
| MigrationSafety.VersionFalls | database/ops_persistence.py:383-394 | A start can lower the recorded version exactly if it could not read it and a version above 2 was recorded |
| MigrationSafety.VersionHasFallen | database/ops_persistence.py:383-425 | Two starts after which version 2 is recorded where 3 was before |
| Writer.OpsWriter.Enqueue | database/ops_persistence.py:459-472 | An item is accepted, or dropped and counted when the queue is full, and nothing happens before the start, as `Writer.SubmissionMeaning` says |
| Writer.OpsWriter.Stop | database/ops_persistence.py:347-350 | The pill goes into the queue as soon as there is room |
| Writer.OpsWriter.WriterTurn | database/ops_persistence.py:429-445 | One turn of the loop takes at most one thing out of the queue and hands over a batch when it is full, when time is up, or at the pill |
| Writer.WriterConserves | database/ops_persistence.py:429-472 | In every run the accepted items are those handed over, then the current batch, then the queue, in order; calls while ready are accepted or dropped; and no batch is empty or above the limit |
| Writer.SubmissionMeaning | database/ops_persistence.py:459-472 | In every run a submission while ready goes to the end of the queue exactly if there is no limit or fewer things are queued than the limit; otherwise it is counted as dropped and the queue stays as it was; before the start nothing happens |
| Writer.StopMeaning | database/ops_persistence.py:347-350 | In every run a stop puts a pill at the end of the queue exactly if there is room |
| Writer.TurnMeaning | database/ops_persistence.py:429-445 | In every run a turn hands the current batch over exactly when the queue is empty until the wait is over, when it meets the pill, or when the item it takes fills the batch |
| Writer.WriterDrains | database/ops_persistence.py:429-445 | Not told to stop, the writer has handed everything over after one turn for each queued item and one more |
| Writer.AllHandedOver | database/ops_persistence.py:429-472 | So after any run without a stop, left to itself, it hands over all that was accepted, in order |
| Writer.ExitedWriter | database/ops_persistence.py:434-437 | When the writer has exited, exactly what was accepted before the first pill has been handed over, once and in order, and the rest is still queued |
| Writer.WriterExits | database/ops_persistence.py:429-445 | Once told to stop the writer exits after one turn for each item ahead of the pill and one more |
| PatternStats.LeastSquares | intelligence/pattern_detector.py:403-429 | No line has a smaller squared error than the one with the computed slope through the means, and no other has as small a one unless all times are the same |
| PatternStats.CauchySchwarz | intelligence/pattern_detector.py:417-419 | The square of the covariation is at most the product of the variations |
| PatternStats.RSquaredIsExplained | intelligence/pattern_detector.py:425-429 | For every series the clamp never changes r-squared, and the least squared error is the remaining share of the variation |
| PatternStats.PearsonMeaning | intelligence/pattern_detector.py:432-448 | The clamp never changes the coefficient, its square is the share that a line explains, and it is 0 when a series does not vary or fewer than four points are common |
| VectorIndex.TfMeaning | sentinel_wiki/vector_index.py:42-50 | The frequencies are those of exactly the tokens that occur, each its share of all, and positive |
| VectorIndex.WikiVectorIndex.BuildTfByLoop | sentinel_wiki/vector_index.py:42-50 | The counting loop computes these frequencies |
| VectorIndex.WikiVectorIndex.IndexTokens | sentinel_wiki/vector_index.py:90-106 | Indexing takes the note's old tokens out of the document frequencies and puts its new ones in |
| VectorIndex.WikiVectorIndex.Remove | sentinel_wiki/vector_index.py:108-116 | Removing takes the note and its tokens out; an unknown note changes nothing |
| VectorIndex.ListedPositive | sentinel_wiki/vector_index.py:98-100 | The guard against going below zero never acts |
| VectorIndex.RunSound | sentinel_wiki/vector_index.py:90-116 | After any run each document frequency is the number of notes that hold the token, and there are no entries of zero |
| VectorIndex.RunsAgree | sentinel_wiki/vector_index.py:90-116 | Two runs after which the notes have the same latest texts leave the same frequencies, so the index equals one rebuilt from scratch |
| VectorSearch.IdfAtLeastOne | sentinel_wiki/vector_index.py:171-180 | Every inverse document frequency is at least 1 |
| VectorMeaning.RarerWeighsMore | sentinel_wiki/vector_index.py:171-180 | A token that fewer notes hold weighs at least as much, and with a strictly increasing logarithm more exactly if fewer hold it; one that all hold weighs 1 |
| VectorMeaning.WeightsMeaning | sentinel_wiki/vector_index.py:171-180 | A token's weight is its share of the text times one more than the logarithm of the notes plus one over its holders plus one |
| VectorMeaning.CosineSymmetric | sentinel_wiki/vector_index.py:53-62 | The score does not depend on which of the two vectors is the query, although the sum runs over the entries of one |
| VectorMeaning.ScoreMeaning | sentinel_wiki/vector_index.py:118-143 | After any run a note scores above 0 exactly if its text shares a token with the query |
| VectorSearch.CosineInRange | sentinel_wiki/vector_index.py:53-62 | Scores of vectors without negative entries lie between 0 and 1 |
| VectorSearch.OwnTextScoresOne | sentinel_wiki/vector_index.py:118-143 | An indexed note scores 1 against its own text, unless it has no tokens |
| VectorSearch.SearchMeaning | sentinel_wiki/vector_index.py:118-143 | Results come best first and name no note twice; each is an indexed note that scores at least the minimum, with its score rounded; and such a note is left out only if as many results as asked for score no less |
| VectorMeaning.SearchCount | sentinel_wiki/vector_index.py:118-143 | There are as many results as notes that score high enough, at most as many as asked for; a negative number leaves out so many at the end |
| VectorSearch.OwnTextIsFound | sentinel_wiki/vector_index.py:118-143 | Searching for the text of an indexed note puts a full score first, and the note itself is among the results when as many are asked for as there are notes |
| VectorSearch.Search | sentinel_wiki/vector_index.py:118-143 | The loop over the notes computes these results |
| WikiIndexer.NameIndex.Upsert | sentinel_wiki/indexer.py:113-124 | The in-place loops leave the note listed as `WikiIndexer.NamesAreLatest` says |
| WikiIndexer.LinkIndex.Upsert | sentinel_wiki/indexer.py:139-158 | The in-place loops leave the links as `WikiIndexer.LinksAreSymmetric` says |
| WikiIndexer.NamesAreLatest | sentinel_wiki/indexer.py:86-124 | After any run a note is listed under a tag or entity exactly once if the last list given for it held that name, and otherwise not at all |
| WikiIndexer.LinksAreSymmetric | sentinel_wiki/indexer.py:139-158 | After any run the outbound links are the last list given, and a note is among another's inbound links exactly once if it links to it, itself included, and otherwise not at all |

## Left out

- BlastRadius.SearchTerminates: one direction only; on a graph with a cycle of correlations of 1 it depends on how the probabilities that reach the cycle are rounded whether the queue runs empty, and `SearchLoops` gives a graph on which it does not.
- CausalGraphs.CausalGraph.GetBlastRadius: asks that no cycle that avoids the origin has only correlations of 1, without which it need not return; the severity label, the swallowed exceptions and the saved file are not modelled, and arithmetic is exact decimal arithmetic rather than binary floating point.
- CausalGraphs.CausalGraph.Spread: asks the same of the graph, for the same reason.
- BlastRadius.NearOptimal: walks that come within the accumulated rounding of the cut-off may be missed by the program too, so nothing is said about them.
- QueryMeaning.TranslationMeaning: how `lower` and case-insensitive matching treat characters are parameters; lines that contain a newline are excluded, since `.` does not match one.
- EventBus.FeedWindows: the queues before the dispatcher and the storage backend are not modelled; any event may be the next one to be processed.
- Reconnect.NoGap: says nothing about order or about how often an event is delivered; delivery on reconnect is at least once.
- Replay.ReplaySafe: speeds, delays, the session table and its eviction are not modelled; a callback is an event that starts, and its failure is not modelled.
- MigrationSafety.Converges: the statements themselves are parameters (creating tables and indexes if they do not exist, adding columns); quarantine of a corrupt file, the retention clean-up and name clashes between tables and indexes are not modelled.
- Writer.WriterConserves: one writer thread, and a hand-over is the end of an item's way; what the database does with a batch is not modelled.
- EvidenceGraphs.RoundTrip: a node's and an edge's fields that are only copied are one text field; defaults for keys missing from a document are not modelled, since saving writes every key.
- GraphRebuild.RebuiltIsAcyclic: node and edge ids are values that carry their parts rather than formatted strings, workers' names are taken to be in lower case already, and statuses, labels, durations and metadata are not modelled.
- GraphBuilders.GraphBuilder.HandleEvent: does not model the statuses, durations, error texts, labels and metadata that handlers set on nodes, nor the flag that the graph is complete; none of them decides which nodes, edges or places there are.
- Migrations.OpsDatabase.Startup: does not model the integrity check and quarantine before the schema, nor the retention clean-up and the start of the writer after it.
- PatternStats.LeastSquares: exact real arithmetic; the square root is any function that has its defining property.
- VectorSearch.IdfAtLeastOne: the logarithm is any function that does not decrease and is 0 at 1.
- VectorIndex.RunSound: splitting a text into tokens is a parameter, and the file the index is kept in is not modelled.
- WikiIndexer.NamesAreLatest: an entity's pattern and receipt lists, which ingestion does not touch, and the files are not modelled.
- Metric and golden-signal queries, topology and health updates of the causal graph, timelines and look-ups of the evidence graph, role-based redaction, heartbeats as clocks, knowledge retrieval, and everything over HTTP: easy, or outside the logic modelled here.
