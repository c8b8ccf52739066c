/** The content-generation workflow: seven nodes run in a fixed order, with
    two routing decisions that may end the run early. */
module Workflow {
  import opened Types
  import opened AgentState
  import opened Graph
  import AnswerGenerator
  import FaqTemplate
  import ProductTemplate
  import ComparisonTemplate

  const DataParserKey: string := "dataParser"
  const QuestionGeneratorKey: string := "questionGenerator"
  const AnswerGeneratorKey: string := "answerGenerator"
  const FaqTemplateKey: string := "faqTemplate"
  const ProductTemplateKey: string := "productTemplate"
  const ComparisonTemplateKey: string := "comparisonTemplate"
  const PersistenceKey: string := "persistence"

  /** The retry count from which a run with errors is given up. */
  const MaxRetries: int := 3

  /** The order in which a complete run visits the nodes. */
  const Pipeline: seq<string> := [DataParserKey, QuestionGeneratorKey, AnswerGeneratorKey, FaqTemplateKey, ProductTemplateKey, ComparisonTemplateKey, PersistenceKey]

  /** Errors have been recorded and the retry budget is used up. */
  predicate RetriesExhausted(s: State) {
    |s.errors| > 0 && s.retryCount >= MaxRetries
  }

  /** After the data parser: continue only with a parsed product and retries left. */
  function RouteAfterDataParser(s: State): (r: string)
    ensures r == QuestionGeneratorKey <==> !RetriesExhausted(s) && s.parsedProduct.Some?
    ensures r == End <==> RetriesExhausted(s) || s.parsedProduct.None?
  {
    if RetriesExhausted(s) then End
    else if s.parsedProduct.None? then End
    else QuestionGeneratorKey
  }

  /** After the answer generator: continue only with answers and retries left. */
  function RouteAfterAnswers(s: State): (r: string)
    ensures r == FaqTemplateKey <==> !RetriesExhausted(s) && |s.answers| > 0
    ensures r == End <==> RetriesExhausted(s) || |s.answers| == 0
  {
    if RetriesExhausted(s) then End
    else if |s.answers| == 0 then End
    else FaqTemplateKey
  }

  /** The routing functions as decision functions; they never raise. */
  function DataParserCondition(s: State): Decision {
    Chose(RouteAfterDataParser(s))
  }

  function AnswersCondition(s: State): Decision {
    Chose(RouteAfterAnswers(s))
  }

  /** The direct edges of the workflow. */
  const Edges: map<string, string> :=
    map[QuestionGeneratorKey := AnswerGeneratorKey, FaqTemplateKey := ProductTemplateKey,
        ProductTemplateKey := ComparisonTemplateKey, ComparisonTemplateKey := PersistenceKey, PersistenceKey := End]

  /** The two routing decisions of the workflow. */
  const Routes: map<string, ConditionalEdge> :=
    map[DataParserKey := ConditionalEdge(DataParserCondition, map[QuestionGeneratorKey := QuestionGeneratorKey, End := End]),
        AnswerGeneratorKey := ConditionalEdge(AnswersCondition, map[FaqTemplateKey := FaqTemplateKey, End := End])]

  /** The graph `createContentGenerationGraph` builds, for given node functions. */
  function Wiring(dataParser: NodeFn, questionGenerator: NodeFn, answerGenerator: NodeFn, faqTemplate: NodeFn,
                  productTemplate: NodeFn, comparisonTemplate: NodeFn, persistence: NodeFn): Definition
  {
    Definition(
      map[DataParserKey := dataParser, QuestionGeneratorKey := questionGenerator, AnswerGeneratorKey := answerGenerator,
          FaqTemplateKey := faqTemplate, ProductTemplateKey := productTemplate,
          ComparisonTemplateKey := comparisonTemplate, PersistenceKey := persistence],
      Edges, Routes, Some(DataParserKey))
  }

  /** `g` is the workflow graph for some choice of node functions: exactly
      the seven pipeline nodes, wired as `Wiring` wires them. */
  ghost predicate Wired(g: Definition) {
    && (forall n :: n in Pipeline ==> n in g.nodes)
    && g.nodes.Keys == {DataParserKey, QuestionGeneratorKey, AnswerGeneratorKey, FaqTemplateKey, ProductTemplateKey, ComparisonTemplateKey, PersistenceKey}
    && g.edges == Edges && g.conditionalEdges == Routes && g.entryPoint == Some(DataParserKey)
  }

  /** The graphs `Wired` admits are exactly the graphs `Wiring` builds. */
  lemma WiredIsWiring(g: Definition)
    ensures Wired(g) <==>
      && (forall n :: n in Pipeline ==> n in g.nodes)
      && g == Wiring(g.nodes[DataParserKey], g.nodes[QuestionGeneratorKey], g.nodes[AnswerGeneratorKey], g.nodes[FaqTemplateKey],
                     g.nodes[ProductTemplateKey], g.nodes[ComparisonTemplateKey], g.nodes[PersistenceKey])
  {
    if (forall n :: n in Pipeline ==> n in g.nodes) {
      var w := Wiring(g.nodes[DataParserKey], g.nodes[QuestionGeneratorKey], g.nodes[AnswerGeneratorKey], g.nodes[FaqTemplateKey],
                      g.nodes[ProductTemplateKey], g.nodes[ComparisonTemplateKey], g.nodes[PersistenceKey]);
      if Wired(g) {
        assert g.nodes == w.nodes;
      }
    }
  }

  /** Builds the workflow graph. */
  method CreateContentGenerationGraph(dataParser: NodeFn, questionGenerator: NodeFn, answerGenerator: NodeFn, faqTemplate: NodeFn,
                                      productTemplate: NodeFn, comparisonTemplate: NodeFn, persistence: NodeFn)
    returns (workflow: CustomStateGraph)
    ensures fresh(workflow)
    ensures workflow.Snapshot() == Wiring(dataParser, questionGenerator, answerGenerator, faqTemplate, productTemplate, comparisonTemplate, persistence)
  {
    workflow := new CustomStateGraph();
    workflow.AddNode(DataParserKey, dataParser);
    workflow.AddNode(QuestionGeneratorKey, questionGenerator);
    workflow.AddNode(AnswerGeneratorKey, answerGenerator);
    workflow.AddNode(FaqTemplateKey, faqTemplate);
    workflow.AddNode(ProductTemplateKey, productTemplate);
    workflow.AddNode(ComparisonTemplateKey, comparisonTemplate);
    workflow.AddNode(PersistenceKey, persistence);
    workflow.SetEntryPoint(DataParserKey);
    workflow.AddConditionalEdges(DataParserKey, DataParserCondition, map[QuestionGeneratorKey := QuestionGeneratorKey, End := End]);
    workflow.AddEdge(QuestionGeneratorKey, AnswerGeneratorKey);
    workflow.AddConditionalEdges(AnswerGeneratorKey, AnswersCondition, map[FaqTemplateKey := FaqTemplateKey, End := End]);
    workflow.AddEdge(FaqTemplateKey, ProductTemplateKey);
    workflow.AddEdge(ProductTemplateKey, ComparisonTemplateKey);
    workflow.AddEdge(ComparisonTemplateKey, PersistenceKey);
    workflow.AddEdge(PersistenceKey, End);
  }

  /** From the `k`-th node of the pipeline, the run either moves to the next
      node of the pipeline or stops at END. */
  lemma PipelineStep(g: Definition, k: nat, s: State)
    requires Wired(g)
    requires k < |Pipeline|
    ensures Step(g, Pipeline[k], s).Next?
    ensures var next := Step(g, Pipeline[k], s).node; next == End || (k + 1 < |Pipeline| && next == Pipeline[k + 1])
  {
    if k == 0 {
      RoutedStep(g, DataParserKey, QuestionGeneratorKey, s);
    } else if k == 2 {
      RoutedStep(g, AnswerGeneratorKey, FaqTemplateKey, s);
    } else {
      DirectEdgesFollowPipeline(k);
    }
  }

  /** A routed node moves to its one successor or to END, whatever its
      node function and its decision do. */
  lemma RoutedStep(g: Definition, node: string, successor: string, s: State)
    requires Wired(g)
    requires (node, successor) == (DataParserKey, QuestionGeneratorKey) || (node, successor) == (AnswerGeneratorKey, FaqTemplateKey)
    ensures Step(g, node, s).Next?
    ensures Step(g, node, s).node == End || Step(g, node, s).node == successor
  {
    assert node in g.nodes && node in g.conditionalEdges;
    var edge := g.conditionalEdges[node];
    assert edge.edgeMap == map[successor := successor, End := End];
    match g.nodes[node](s)
    case Threw(_) =>
    case Returned(u) =>
      var merged := Reduce(s, u);
      if node == DataParserKey {
        assert edge.condition(merged) == Chose(RouteAfterDataParser(merged));
      } else {
        assert edge.condition(merged) == Chose(RouteAfterAnswers(merged));
      }
  }

  /** The run from the `k`-th node of the pipeline visits a further stretch
      of the pipeline and stops at END. */
  lemma {:induction false} PipelineLoop(g: Definition, k: nat, s: State)
    requires Wired(g)
    requires k < |Pipeline|
    ensures var r := Loop(g, Pipeline[k], s, Pipeline[..k], k);
      && r.Finished? && r.finalNode == End
      && k < |r.trace| && r.trace <= Pipeline
    decreases |Pipeline| - k
  {
    PipelineNamesRun(k);
    PipelineStep(g, k, s);
    var next := Step(g, Pipeline[k], s);
    assert Pipeline[..k] + [Pipeline[k]] == Pipeline[..k + 1];
    StepAdvances(g, Pipeline[k], s, Pipeline[..k], k, next.state, next.node);
    if next.node != End {
      PipelineLoop(g, k + 1, next.state);
    }
  }

  /** Every pipeline node keeps the driver loop running: its name is neither
      empty nor the terminal node. */
  lemma PipelineNamesRun(k: nat)
    requires k < |Pipeline|
    ensures Running(Pipeline[k], k)
  {
    assert Pipeline[k][0] != End[0];
  }

  /** Every pipeline node other than the two routed ones hands over along a
      direct edge to the next node of the pipeline, the last one to END. */
  lemma DirectEdgesFollowPipeline(k: nat)
    requires k < |Pipeline| && k != 0 && k != 2
    ensures Pipeline[k] !in Routes && Pipeline[k] in Edges
    ensures Edges[Pipeline[k]] == if k + 1 < |Pipeline| then Pipeline[k + 1] else End
  {
    assert Routes.Keys == {DataParserKey, AnswerGeneratorKey};
    assert Pipeline[k] != DataParserKey && Pipeline[k] != AnswerGeneratorKey by {
      assert Pipeline[k][0] != DataParserKey[0] && Pipeline[k][0] != AnswerGeneratorKey[0];
    }
  }

  /** Whatever the nodes do, a run of the workflow finishes (it never hits
      an unknown node nor the iteration ceiling), starts at the data parser,
      visits a prefix of the pipeline in order and stops at END. */
  lemma WiredRun(dataParser: NodeFn, questionGenerator: NodeFn, answerGenerator: NodeFn, faqTemplate: NodeFn,
                 productTemplate: NodeFn, comparisonTemplate: NodeFn, persistence: NodeFn, init: State)
    ensures var g := Wiring(dataParser, questionGenerator, answerGenerator, faqTemplate, productTemplate, comparisonTemplate, persistence);
      var r := Run(g, init);
      && r.Finished? && r.finalNode == End
      && 1 <= r.iterations <= |Pipeline| < MaxIterations
      && r.trace <= Pipeline && r.trace[0] == DataParserKey
      && r.state == Loop(g, DataParserKey, init, [], 0).state
  {
    var g := Wiring(dataParser, questionGenerator, answerGenerator, faqTemplate, productTemplate, comparisonTemplate, persistence);
    WiredIsWiring(g);
    PipelineLoop(g, 0, init);
    assert Pipeline[..0] == [];
  }

  /** A data parser that leaves no parsed product ends the run right after it. */
  lemma NoProductEndsAfterParser(dataParser: NodeFn, questionGenerator: NodeFn, answerGenerator: NodeFn, faqTemplate: NodeFn,
                                 productTemplate: NodeFn, comparisonTemplate: NodeFn, persistence: NodeFn, init: State, u: Update)
    requires dataParser(init) == Returned(u) && Reduce(init, u).parsedProduct.None?
    ensures Run(Wiring(dataParser, questionGenerator, answerGenerator, faqTemplate, productTemplate, comparisonTemplate, persistence), init)
      == Finished(Reduce(init, u), [DataParserKey], 1, End)
  {
    var g := Wiring(dataParser, questionGenerator, answerGenerator, faqTemplate, productTemplate, comparisonTemplate, persistence);
    var merged := Reduce(init, u);
    assert RouteAfterDataParser(merged) == End;
    assert Step(g, DataParserKey, init) == Next(merged, End);
    PipelineNamesRun(0);
    StepAdvances(g, DataParserKey, init, [], 0, merged, End);
  }

  /** With errors recorded and the retry budget used up, the run ends after
      the answer generator, before any page is built. */
  lemma ExhaustedRetriesEndAfterAnswers(g: Definition, s: State, u: Update)
    requires Wired(g)
    requires g.nodes[AnswerGeneratorKey](s) == Returned(u) && RetriesExhausted(Reduce(s, u))
    ensures Loop(g, AnswerGeneratorKey, s, Pipeline[..2], 2) == Finished(Reduce(s, u), Pipeline[..3], 3, End)
  {
    assert Pipeline[..2] + [AnswerGeneratorKey] == Pipeline[..3];
  }

  /** Once the answers are routed to the FAQ page, the remaining four nodes
      run in order to the end unless one of them raises. */
  lemma {:induction false} TailRunsToCompletion(g: Definition, s: State)
    requires Wired(g)
    requires forall k, t :: 3 <= k < |Pipeline| ==> g.nodes[Pipeline[k]](t).Returned?
    ensures var r := Loop(g, FaqTemplateKey, s, Pipeline[..3], 3);
      r.Finished? && r.trace == Pipeline && r.iterations == |Pipeline| && r.finalNode == End
  {
    assert Pipeline[3] == FaqTemplateKey;
    TailFrom(g, 3, s);
  }

  /** From the `k`-th node on, past the answer routing, the run goes through
      the rest of the pipeline. */
  lemma {:induction false} TailFrom(g: Definition, k: nat, s: State)
    requires Wired(g)
    requires 3 <= k < |Pipeline|
    requires forall k, t :: 3 <= k < |Pipeline| ==> g.nodes[Pipeline[k]](t).Returned?
    ensures var r := Loop(g, Pipeline[k], s, Pipeline[..k], k);
      r.Finished? && r.trace == Pipeline && r.iterations == |Pipeline| && r.finalNode == End
    decreases |Pipeline| - k
  {
    var s' := TailAdvance(g, k, s);
    if k + 1 < |Pipeline| {
      TailFrom(g, k + 1, s');
    }
  }

  /** One iteration of the loop past the answer routing. */
  lemma TailAdvance(g: Definition, k: nat, s: State) returns (s': State)
    requires Wired(g)
    requires 3 <= k < |Pipeline| && g.nodes[Pipeline[k]](s).Returned?
    ensures k + 1 < |Pipeline| ==> Loop(g, Pipeline[k], s, Pipeline[..k], k) == Loop(g, Pipeline[k + 1], s', Pipeline[..k + 1], k + 1)
    ensures k + 1 == |Pipeline| ==> Loop(g, Pipeline[k], s, Pipeline[..k], k) == Finished(s', Pipeline, |Pipeline|, End)
  {
    var node := Pipeline[k];
    s' := Reduce(s, g.nodes[node](s).update);
    var next := if k + 1 < |Pipeline| then Pipeline[k + 1] else End;
    TailStep(g, k, s);
    PipelineNamesRun(k);
    assert Pipeline[..k] + [node] == Pipeline[..k + 1];
    StepAdvances(g, node, s, Pipeline[..k], k, s', next);
    if k + 1 == |Pipeline| {
      assert Pipeline[..k + 1] == Pipeline;
    }
  }

  /** A returning node past the answer routing hands over along its direct edge. */
  lemma TailStep(g: Definition, k: nat, s: State)
    requires Wired(g)
    requires 3 <= k < |Pipeline| && g.nodes[Pipeline[k]](s).Returned?
    ensures Step(g, Pipeline[k], s)
      == Next(Reduce(s, g.nodes[Pipeline[k]](s).update), if k + 1 < |Pipeline| then Pipeline[k + 1] else End)
  {
    DirectEdgesFollowPipeline(k);
  }

  /** The template nodes as graph nodes: each catches its own failures, so
      none of them ever raises. `faqReply` and the others stand for the
      model's replies on the state the node is given. */
  function FaqNode(faqReply: State -> Reply<string>): NodeFn {
    s => Returned(FaqTemplate.FaqTemplateUpdate(s, faqReply(s)))
  }

  function ProductNode(productReply: State -> Reply<string>): NodeFn {
    s => Returned(ProductTemplate.ProductTemplateUpdate(s, productReply(s)))
  }

  function ComparisonNode(competitorReply: State -> Reply<Product>, comparisonReply: State -> Reply<string>,
                          freshId: State -> ComparisonTemplate.Uuid): NodeFn {
    s => Returned(ComparisonTemplate.ComparisonTemplateUpdate(s, competitorReply(s), comparisonReply(s), freshId(s)))
  }

  function AnswerNode(answerReply: State -> nat -> Reply<string>): NodeFn {
    s => Returned(AnswerGenerator.AnswerGeneratorUpdate(s, answerReply(s)))
  }

  /** With the template nodes of this model, a run that reaches the FAQ page
      always builds all three pages and ends with the persistence node, as
      long as persistence itself does not raise. */
  lemma TemplatesAlwaysComplete(g: Definition, faqReply: State -> Reply<string>, productReply: State -> Reply<string>,
                                competitorReply: State -> Reply<Product>, comparisonReply: State -> Reply<string>,
                                freshId: State -> ComparisonTemplate.Uuid, s: State)
    requires Wired(g) && g.nodes[FaqTemplateKey] == FaqNode(faqReply) && g.nodes[ProductTemplateKey] == ProductNode(productReply)
    requires g.nodes[ComparisonTemplateKey] == ComparisonNode(competitorReply, comparisonReply, freshId)
    requires forall t :: g.nodes[PersistenceKey](t).Returned?
    ensures var r := Loop(g, FaqTemplateKey, s, Pipeline[..3], 3);
      r.Finished? && r.trace == Pipeline && r.finalNode == End
  {
    forall k, t | 3 <= k < |Pipeline|
      ensures g.nodes[Pipeline[k]](t).Returned?
    {
      if k == 6 {
        assert g.nodes[Pipeline[k]] == g.nodes[PersistenceKey];
      }
    }
    TailRunsToCompletion(g, s);
  }

  /** With the answer node of this model, a run that reaches the answer
      generator with no questions and no answers ends right after it: the
      node records its error and raises the retry count, and the routing
      finds no answers. */
  lemma NoQuestionsEndAfterAnswers(g: Definition, answerReply: State -> nat -> Reply<string>, s: State)
    requires Wired(g) && g.nodes[AnswerGeneratorKey] == AnswerNode(answerReply)
    requires s.questions == [] && s.answers == []
    ensures var r := Loop(g, AnswerGeneratorKey, s, Pipeline[..2], 2);
      && r.Finished? && r.trace == Pipeline[..3] && r.finalNode == End
      && r.state.retryCount == s.retryCount + 1
      && r.state.errors != []
      && r.state.errors[|r.state.errors| - 1] == AnswerGenerator.AgentName + ": " + AnswerGenerator.NoQuestionsMessage
  {
    AnswerGenerator.NoQuestionsFails(s, answerReply(s));
    var u := AnswerGenerator.FailureUpdate(s, AnswerGenerator.NoQuestionsMessage);
    assert g.nodes[AnswerGeneratorKey](s) == Returned(u);
    var merged := Reduce(s, u);
    assert merged.answers == [];
    assert merged.errors == s.errors + (s.errors + [AnswerGenerator.AgentName + ": " + AnswerGenerator.NoQuestionsMessage]);
    assert Step(g, AnswerGeneratorKey, s) == Next(merged, End);
    StepAdvances(g, AnswerGeneratorKey, s, Pipeline[..2], 2, merged, End);
    assert Pipeline[..2] + [AnswerGeneratorKey] == Pipeline[..3];
  }
}
