# Content-generation workflow: graph engine, state reducer and node builders

This project models the LangGraph-style workflow at the heart of a product
content generator. A product record goes through seven agent nodes in turn:
data parser, question generator, answer generator, FAQ page, product page,
comparison page and persistence. The nodes share one state record. The model
covers the following:

- **State and reducer** (`AgentState`). The state record, the partial update a
  node returns, and `reduceState`. The reducer appends to the four
  accumulating sequences, merges `memory` with the update's keys winning,
  and replaces every other field the update carries. `createInitialState`
  builds the empty start record.
- **Graph engine** (`Graph`). `CustomStateGraph` is a class whose builder
  methods update its four registries. Its `Invoke` method is the bounded
  driver loop of `compile().invoke`, proved equal to the pure specification
  `Run`. `Run` is built from `Step` (one node plus routing), `Loop` and
  `Truncate` (the ceiling diagnostic). Node functions are `State -> Outcome`:
  a returned update, or a raised error. Decision functions are
  `State -> Decision`.
- **Workflow** (`Workflow`). The two routing functions, the seven-node wiring
  `createContentGenerationGraph`, and what a run of that wiring can do.
- **Node update builders** (`AnswerGenerator`, `FaqTemplate`,
  `ProductTemplate`, `ComparisonTemplate`). Each node builds its partial
  update from the state and the outcomes of its model calls. A model call is
  `Reply<T> = Ok(value, tokens) | Fail(message)`.
  - The answer generator's per-question loop is a method with a loop
    invariant.
  - The FAQ node's category grouping is proved a permutation that keeps the
    order within each category.
  - The product node's fallback page relies on JavaScript `split`/`join`,
    modelled in `Strings`.
  - The comparison node's competitor-id check is proved to accept exactly
    the strings shaped like a UUID (section 3 of RFC 4122): 36 characters,
    8-4-4-4-12 hexadecimal digits in either case.

Each node returns `errors: [...state.errors, entry]` (and the same for
`agentLogs`), and the reducer appends that again. After a merge, the earlier
entries therefore appear twice. The model keeps this behaviour as written,
and `AgentState.ReturningWholeSequenceDuplicates` states it.

## Model

| member | source | states |
|---|---|---|
| AgentState.ReduceLaws | lib/langgraph/state.ts:56-68 | the four accumulating sequences become old ++ (update's entries or nothing); memory is the old map overridden by the update's keys; every other field takes the update's value when present and keeps its value otherwise |
| AgentState.ReduceExtends | lib/langgraph/state.ts:61-66 | a merge never shortens an accumulating sequence (the old one is a prefix of the new one) and never removes a memory key |
| AgentState.ReduceEmpty | lib/langgraph/state.ts:56-68 | merging the update that carries no key returns the state unchanged |
| AgentState.ReduceThen | lib/langgraph/state.ts:56-68 | merging two updates one after the other equals merging their composition once |
| AgentState.ReturningWholeSequenceDuplicates | lib/langgraph/state.ts:63-64 | an update carrying old ++ [x] in errors and agentLogs leaves old ++ old ++ [x] after the merge |
| AgentState.CreateInitialState | lib/langgraph/state.ts:73-95 | generationId equals executionId; the sequences and memory are empty; retryCount is 0; the product, the pages and the competitor are null; the three generate flags are true |
| AgentState.InitialStateAccumulates | lib/langgraph/state.ts:61-64 | from the initial state, the errors after a series of merges are exactly the concatenation of what the updates contributed, and the answer count is the sum of theirs |
| Graph.Loop | lib/langgraph/graph.ts:57-100 | the driver loop's trace has one entry per iteration and at most 20; the loop stops only when the node is empty, END or the ceiling is reached; it throws only for an unregistered node, naming that node as the last trace entry |
| Graph.Run | lib/langgraph/graph.ts:48-115 | invoke throws "No entry point set" before any node exactly when no entry point is set; a finished run has at most 20 iterations, ends at END or an empty node unless it used all 20, and then ends with the ceiling error |
| Graph.TruncationExactlyAtCeiling | lib/langgraph/graph.ts:102-107 | the ceiling error is appended exactly when the loop used all 20 iterations, even when the 20th node routed to END, and nothing else changes |
| Graph.NodeFaultStopsRun | lib/langgraph/graph.ts:93-99 | a node that raises appends exactly one `Node "X" failed: …` error, ends the run, and is the last trace entry; no other field changes |
| Graph.DecisionFaultStopsRun | lib/langgraph/graph.ts:80-99 | a decision function that raises ends the run after the node's update was merged, with exactly one failure error appended |
| Graph.UnknownNodeAborts | lib/langgraph/graph.ts:67-70 | reaching an unregistered node name throws out of invoke with `Node "X" not found`, uncaught by the per-node handler |
| Graph.ConditionalEdgeTakesPrecedence | lib/langgraph/graph.ts:80-88 | with a conditional edge registered, adding or removing the node's direct edge does not change where it routes |
| Graph.DecisionKeyFallback | lib/langgraph/graph.ts:82-83 | a decision key with a missing or empty table entry is used as the next node's name |
| Graph.DirectEdgeRouting | lib/langgraph/graph.ts:87-88 | without a conditional edge the next node is the direct edge's target, or END when there is none or it is the empty string |
| Graph.LoopExtends | lib/langgraph/graph.ts:61-100 | every state the loop finishes with keeps the starting state's sequences as prefixes and its memory keys |
| Graph.RunExtends | lib/langgraph/graph.ts:48-115 | a finished run's final state extends the initial state |
| Graph.SelfLoopTruncates | lib/langgraph/graph.ts:59-107 | a node whose edge leads back to itself runs exactly 20 times and the run ends with the ceiling error |
| Graph.StepAdvances | lib/langgraph/graph.ts:61-100 | one turn of the loop hands the rest of the run to the loop from the chosen next node |
| Graph.CustomStateGraph.constructor | lib/langgraph/graph.ts:19-23 | a new builder has no nodes, edges or conditional edges and no entry point |
| Graph.CustomStateGraph.AddNode | lib/langgraph/graph.ts:25-28 | binds the name to the function, replacing an earlier binding, and changes nothing else |
| Graph.CustomStateGraph.SetEntryPoint | lib/langgraph/graph.ts:30-33 | replaces the entry point and changes nothing else |
| Graph.CustomStateGraph.AddEdge | lib/langgraph/graph.ts:35-38 | sets the direct edge out of a node, replacing an earlier one, and changes nothing else |
| Graph.CustomStateGraph.AddConditionalEdges | lib/langgraph/graph.ts:40-43 | sets the decision function and table out of a node, replacing earlier ones, and changes nothing else |
| Graph.CustomStateGraph.Invoke | lib/langgraph/graph.ts:45-116 | the driver loop returns exactly `Run` of the current registries: at most 20 iterations, and a final state that extends the initial one |
| Workflow.RouteAfterDataParser | lib/langgraph/graph.ts:122-137 | continues to questionGenerator exactly when the retries are not exhausted (errors present and retryCount at least 3) and a product was parsed; otherwise END |
| Workflow.RouteAfterAnswers | lib/langgraph/graph.ts:139-154 | continues to faqTemplate exactly when the retries are not exhausted and there are answers; otherwise END |
| Workflow.CreateContentGenerationGraph | lib/langgraph/graph.ts:156-194 | the builder it returns holds the seven nodes, the entry point dataParser, the two conditional edges and the five direct edges |
| Workflow.WiredIsWiring | lib/langgraph/graph.ts:156-194 | the graphs with exactly the seven nodes, the five direct edges, the two conditional edges and the entry point dataParser are exactly those the wiring builds |
| Workflow.PipelineNamesRun | lib/langgraph/graph.ts:162-168 | no pipeline node name is empty or END, so the loop runs each one it reaches |
| Workflow.DirectEdgesFollowPipeline | lib/langgraph/graph.ts:179-190 | every node other than dataParser and answerGenerator has no conditional edge, and its direct edge leads to the next pipeline node, or to END after persistence |
| Workflow.RoutedStep | lib/langgraph/graph.ts:174-185 | dataParser and answerGenerator move on to their one successor or to END, whatever the node and its decision do |
| Workflow.PipelineStep | lib/langgraph/graph.ts:156-194 | from any pipeline node the wired graph moves to the next pipeline node or to END |
| Workflow.TailFrom | lib/langgraph/graph.ts:186-190 | from any node after the answer routing, nodes that never raise lead the run through the rest of the pipeline to END after persistence |
| Workflow.TailStep | lib/langgraph/graph.ts:186-190 | a returning node after the answer routing merges its update and moves along its direct edge |
| Workflow.TailAdvance | lib/langgraph/graph.ts:186-190 | after the answer routing, one turn of the loop hands the run to the next pipeline node, or finishes it at END after persistence |
| Workflow.PipelineLoop | lib/langgraph/graph.ts:156-194 | from any node of the pipeline, the wired graph visits a further stretch of the pipeline in order and stops at END |
| Workflow.WiredRun | lib/langgraph/graph.ts:156-194 | whatever the nodes do, a run of the wired graph finishes without throwing, starts at dataParser, visits a prefix of the seven-node pipeline and never reaches the ceiling |
| Workflow.NoProductEndsAfterParser | lib/langgraph/graph.ts:128-136 | a data parser that leaves no parsed product ends the run after one node |
| Workflow.ExhaustedRetriesEndAfterAnswers | lib/langgraph/graph.ts:145-147 | with errors recorded and retryCount at least 3, the run ends after the answer generator and no page is built |
| Workflow.TailRunsToCompletion | lib/langgraph/graph.ts:186-190 | once routed to faqTemplate, the four remaining nodes run in order to END unless one of them raises |
| Workflow.NoQuestionsEndAfterAnswers | lib/langgraph/graph.ts:139-154 | with the answer node of this model, a run reaching answerGenerator with no questions and no answers ends right after it, with the no-questions error last and retryCount raised by one |
| Workflow.TemplatesAlwaysComplete | lib/langgraph/graph.ts:186-190 | with the three template nodes of this model, which catch their own failures, a run that reaches faqTemplate visits the whole pipeline when persistence does not raise |
| AnswerGenerator.AnswerGeneratorNode | lib/langgraph/agents/answer-generator-node.ts:8-131 | the node's loop over the questions returns exactly the update specified by `AnswerGeneratorUpdate` |
| AnswerGenerator.KeptExactly | lib/langgraph/agents/answer-generator-node.ts:28-75 | a question is answered exactly when its text and category are non-empty and its call succeeded; the answered positions increase |
| AnswerGenerator.AnswersOfKept | lib/langgraph/agents/answer-generator-node.ts:28-71 | the answers are those of the answered positions, in question order, each with its question's text and category |
| AnswerGenerator.TokensOfKept | lib/langgraph/agents/answer-generator-node.ts:52-66 | the token total is the sum over the answered positions of their calls' tokens |
| AnswerGenerator.AnsweredAreKept | lib/langgraph/agents/answer-generator-node.ts:28-71 | the answers are those of the answered positions, in question order, each with its question's text and category; the token total counts successful calls only |
| AnswerGenerator.InvalidQuestionsNotAsked | lib/langgraph/agents/answer-generator-node.ts:29-32 | the replies for invalid questions are never consulted |
| AnswerGenerator.SuccessfulCallIsKept | lib/langgraph/agents/answer-generator-node.ts:51-75 | a valid question whose call succeeded is answered however the other calls went |
| AnswerGenerator.NoQuestionsFails | lib/langgraph/agents/answer-generator-node.ts:20-22 | with no questions the node takes the error path and raises retryCount by one |
| AnswerGenerator.FailureUpdate | lib/langgraph/agents/answer-generator-node.ts:110-129 | the error path sets answers to [], appends the prefixed error and one zero-token error log carrying the message, and raises retryCount by one |
| AnswerGenerator.SuccessIsSuccessUpdate | lib/langgraph/agents/answer-generator-node.ts:20-109 | an update without errors comes from a non-empty question list whose pass produced at least one answer, and is the success update built from that pass |
| AnswerGenerator.SuccessAnswers | lib/langgraph/agents/answer-generator-node.ts:28-78 | a successful update holds one answer per answered question, at least one, in question order, each from a valid question whose call succeeded |
| AnswerGenerator.SuccessBookkeeping | lib/langgraph/agents/answer-generator-node.ts:80-109 | a successful update logs the answered calls' tokens, keeps every memory key with answersGenerated equal to the answer count, and leaves retryCount alone |
| AnswerGenerator.SuccessShape | lib/langgraph/agents/answer-generator-node.ts:78-109 | a successful update has at least one answer, all from valid questions whose calls succeeded, in order; it logs the successful calls' tokens and keeps every memory key, with answersGenerated equal to the answer count |
| AnswerGenerator.AverageLength | lib/langgraph/agents/answer-generator-node.ts:84-85 | the average answer length rounded half up |
| FaqTemplate.DistinctSpec | lib/langgraph/agents/faq-template-node.ts:17 | the categories are those of the answers, each once, ordered by first appearance |
| FaqTemplate.GroupedIsPermutation | lib/langgraph/agents/faq-template-node.ts:18-19 | regrouping the answers by category is a permutation of them |
| FaqTemplate.GroupedKeepsCategoryOrder | lib/langgraph/agents/faq-template-node.ts:18-19 | within each category the grouped answers keep their original order |
| FaqTemplate.SelectionSpec | lib/langgraph/agents/faq-template-node.ts:17-21 | the selection has min(10, number of answers) elements, all taken from the answers, and is a prefix of the category grouping; its categories come in order of their first appearance among the answers |
| FaqTemplate.InCategoryOnly | lib/langgraph/agents/faq-template-node.ts:19 | the answers filtered for a category all have that category |
| FaqTemplate.GroupedBlocks | lib/langgraph/agents/faq-template-node.ts:18-19 | concatenating the per-category filters over a list of distinct categories gives answers of those categories only, in blocks that follow the list's order |
| FaqTemplate.GroupedInFirstAppearanceOrder | lib/langgraph/agents/faq-template-node.ts:17-19 | in the grouping, the category blocks come in the order in which each category first appears among the answers |
| FaqTemplate.PendingFaq | lib/langgraph/agents/faq-template-node.ts:25-33 | the page without answers lists the first ten questions (at most), each with the fixed pending answer |
| FaqTemplate.FallbackFaq | lib/langgraph/agents/faq-template-node.ts:89-97 | the fallback page lists the first ten answers (at most), copied as they are |
| FaqTemplate.FaqUpdateShape | lib/langgraph/agents/faq-template-node.ts:23-117 | every path sets faqPage and appends one success log. With no answers the model is not consulted and no errors key is set. A failed call appends exactly one fallback error. Both fallbacks log 0 tokens |
| Strings.JoinSplit | lib/langgraph/agents/product-template-node.ts:85-86 | joining the pieces of a split with the separator gives back the string |
| Strings.SplitPiecesFree | lib/langgraph/agents/product-template-node.ts:85-86 | no piece of a split contains the separator |
| Strings.SplitHead | lib/langgraph/agents/product-template-node.ts:85-86 | the first piece is the text before the first separator, and the remaining pieces are the split of the text after it |
| ProductTemplate.FirstPieceBeforeColon | lib/langgraph/agents/product-template-node.ts:85 | the first piece is the text before the first colon |
| ProductTemplate.SecondPieceBetweenColons | lib/langgraph/agents/product-template-node.ts:86 | a second piece exists exactly when there is a colon, and it is the text between the first and the second colon |
| ProductTemplate.Feature | lib/langgraph/agents/product-template-node.ts:84-87 | the title is the text before the first colon, or the whole benefit when that is empty; the description is the text between the first two colons, or the whole benefit when that is empty or missing |
| ProductTemplate.ProductFallback | lib/langgraph/agents/product-template-node.ts:79-107 | min(4, number of benefits) features in benefit order; one ingredient entry per key ingredient, in order; steps, side effects, title and price default exactly when the field is empty or the product missing |
| ProductTemplate.ProductUpdateShape | lib/langgraph/agents/product-template-node.ts:62-127 | every path sets productPage and appends one success log. Only the fallback path appends an error, and its log costs 0 tokens |
| ComparisonTemplate.UuidPatternIsShape | lib/langgraph/agents/comparison-template-node.ts:52 | the 8-4-4-4-12 pattern matches exactly the 36-character strings with dashes at 8, 13, 18 and 23 and hex digits of either case elsewhere |
| ComparisonTemplate.ReservedMarkerNeverUuid | lib/langgraph/agents/comparison-template-node.ts:51-52 | an id containing "comp-" never has the UUID shape, so that test is subsumed by the pattern |
| ComparisonTemplate.KeepsExactlyUuids | lib/langgraph/agents/comparison-template-node.ts:49-55 | the node keeps the competitor id exactly when it has the UUID shape |
| ComparisonTemplate.NormalizedCompetitor | lib/langgraph/agents/comparison-template-node.ts:49-55 | the stored competitor always has a UUID-shaped id: its own when it has that shape, the fresh one otherwise; no other field changes |
| ComparisonTemplate.FailureUpdate | lib/langgraph/agents/comparison-template-node.ts:131-148 | the error path appends one prefixed error and one zero-token error log with the message, and sets neither page nor retryCount |
| ComparisonTemplate.ComparisonUpdateShape | lib/langgraph/agents/comparison-template-node.ts:112-148 | success sets the competitor (UUID-shaped id) and the comparison page and logs the sum of both calls' tokens; either failure gives the error update, and a failed first call makes the second irrelevant |

## Left out

- Calls to the language model (the Groq HTTP client, its retries, `JSON.parse`): each call is a `Reply` parameter. `Fail(message)` stands for both `error.message` and "Unknown error".
- The pages the model writes are opaque documents (`Page.Generated`); their JSON structure is not modelled.
- Logging, `Date.now` and `executionTimeMs`: logs carry no timing, and `CreateInitialState` takes the start time as a parameter.
- `crypto.randomUUID`: `ComparisonTemplateUpdate` takes the fresh id as a parameter of type `Uuid`. The version-4 bits of a real random UUID are not modelled.
- The data-parser, question-generator and persistence nodes are not part of this model. They are arbitrary `NodeFn` values in the wiring.
- The orchestrator, the HTTP routes and the user interface are not part of this model.
- Asynchrony: each awaited node completes before the next starts, so a node is a plain function of the state.
- `compile()` returns a closure that reads the builder's maps when it runs; here that closure is the builder's `Invoke` method.
- AgentState.Reduce: an update key that is present but `undefined` is treated as absent. Memory values are opaque (`Value`).
- Graph.Step: JavaScript objects used as edge tables also answer inherited keys such as `constructor`; tables here are plain maps.
- Workflow.RouteAfterDataParser: a `NaN` retry count is not modelled; `retryCount || 0` is the count itself.
- AnswerGenerator.AverageLength: `Math.round` of a floating-point quotient is modelled as exact round-half-up in integers. The two differ only where floating point loses precision.
- ProductTemplate.ProductFallback: the tagline is always the constant "Premium skincare solution". The declared `Product` type has no `category` field, and the model's product record follows that type. At run time a `category` key can still arrive, from the database row read with `select("*")` (lib/langgraph/orchestrator.ts:25, 52) or from the spread `{...state.rawProduct, ...data}` (lib/langgraph/agents/data-parser-node.ts:38). The fallback then reads "Premium <category> solution" (lib/langgraph/agents/product-template-node.ts:82). Such undeclared keys are not modelled.
- ProductTemplate.Description: inside a present product every field is present. The "undefined" renderings are modelled only for a missing product.
- ComparisonTemplate.NormalizedCompetitor: the in-place assignment `competitor.id = …` is a record update. The parsed competitor has no other reference, so no aliasing is lost.
- String lengths count characters, not UTF-16 code units.
