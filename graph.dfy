/** The workflow graph engine: a registry of named nodes, direct and
    conditional edges, an entry point, and the bounded driver loop that runs
    nodes one after the other and merges what they return into the state. */
module Graph {
  import opened Types
  import opened AgentState

  /** The reserved terminal node name. */
  const End: string := "END"
  /** The ceiling on executed nodes per run. */
  const MaxIterations: nat := 20
  const NoEntryPointMessage: string := "No entry point set"
  const TruncationMessage: string := "Graph execution exceeded maximum iterations"

  /** What a node does when called on the current state: it returns a
      partial update, or raises (an error it did not catch itself). */
  datatype Outcome = Returned(update: Update) | Threw(message: string)

  /** What a decision function does: choose a key, or raise. */
  datatype Decision = Chose(key: string) | Raised(message: string)

  type NodeFn = State -> Outcome
  type ConditionFn = State -> Decision

  datatype ConditionalEdge = ConditionalEdge(condition: ConditionFn, edgeMap: map<string, string>)

  /** The graph as the compiled `invoke` sees it. */
  datatype Definition = Definition(
    nodes: map<string, NodeFn>,
    edges: map<string, string>,
    conditionalEdges: map<string, ConditionalEdge>,
    entryPoint: Option<string>)

  /** The result of `invoke`: the final state together with the visited
      trace, the iteration count and the node the loop stopped at (the
      record the source logs on completion), or the error `invoke` throws
      and the trace up to it. */
  datatype RunResult =
    | Finished(state: State, trace: seq<string>, iterations: nat, finalNode: string)
    | Aborted(message: string, trace: seq<string>)

  function FailureMessage(node: string, message: string): string {
    "Node \"" + node + "\" failed: " + message
  }

  function NotFoundMessage(node: string): string {
    "Node \"" + node + "\" not found"
  }

  /** A falsy (empty) table entry falls back to the key itself. */
  function Resolve(edgeMap: map<string, string>, key: string): string {
    if key in edgeMap && edgeMap[key] != "" then edgeMap[key] else key
  }

  /** A missing or empty direct edge leads to the terminal node. */
  function DirectTarget(edges: map<string, string>, node: string): string {
    if node in edges && edges[node] != "" then edges[node] else End
  }

  /** One iteration of the loop body after the node lookup. */
  datatype StepResult = Missing | Next(state: State, node: string)

  function Step(g: Definition, node: string, s: State): StepResult {
    if node !in g.nodes then Missing
    else
      match g.nodes[node](s)
      case Threw(m) => Next(Reduce(s, ErrorUpdate(FailureMessage(node, m))), End)
      case Returned(u) =>
        var merged := Reduce(s, u);
        if node in g.conditionalEdges then
          match g.conditionalEdges[node].condition(merged)
          case Raised(m) => Next(Reduce(merged, ErrorUpdate(FailureMessage(node, m))), End)
          case Chose(key) => Next(merged, Resolve(g.conditionalEdges[node].edgeMap, key))
        else
          Next(merged, DirectTarget(g.edges, node))
  }

  /** The loop guard: a non-empty node name other than the terminal, and
      iterations left. */
  predicate Running(node: string, iterations: nat) {
    node != "" && node != End && iterations < MaxIterations
  }

  /** The driver loop from a given node, state, trace and count, before the
      ceiling check that follows the loop. */
  function Loop(g: Definition, node: string, s: State, trace: seq<string>, iterations: nat): (r: RunResult)
    requires iterations <= MaxIterations && |trace| == iterations
    ensures r.Finished? ==> |r.trace| == r.iterations && iterations <= r.iterations <= MaxIterations
    ensures r.Finished? ==> !Running(r.finalNode, r.iterations) && trace <= r.trace
    ensures r.Aborted? ==> iterations < |r.trace| <= MaxIterations && trace <= r.trace
    ensures r.Aborted? ==> r.trace[|r.trace| - 1] !in g.nodes
    ensures r.Aborted? ==> r.message == NotFoundMessage(r.trace[|r.trace| - 1])
    decreases MaxIterations - iterations
  {
    if !Running(node, iterations) then Finished(s, trace, iterations, node)
    else
      match Step(g, node, s)
      case Missing => Aborted(NotFoundMessage(node), trace + [node])
      case Next(s', next) => Loop(g, next, s', trace + [node], iterations + 1)
  }

  /** After the loop: a run that used up all iterations gets the truncation
      diagnostic, whatever the node it stopped at. */
  function Truncate(r: RunResult): RunResult {
    if r.Finished? && r.iterations >= MaxIterations
    then r.(state := Reduce(r.state, ErrorUpdate(TruncationMessage)))
    else r
  }

  /** `compile().invoke(init)` as a function of the graph and the initial state. */
  function Run(g: Definition, init: State): (r: RunResult)
    ensures (g.entryPoint.None? || g.entryPoint == Some("")) <==> r == Aborted(NoEntryPointMessage, [])
    ensures r.Finished? ==> |r.trace| == r.iterations <= MaxIterations
    ensures r.Finished? && r.iterations < MaxIterations ==> r.finalNode == "" || r.finalNode == End
    ensures r.Finished? && r.iterations == MaxIterations ==> r.state.errors != [] && r.state.errors[|r.state.errors| - 1] == TruncationMessage
    ensures r.Aborted? ==> |r.trace| <= MaxIterations
  {
    match g.entryPoint
    case None => Aborted(NoEntryPointMessage, [])
    case Some(entry) =>
      if entry == "" then Aborted(NoEntryPointMessage, [])
      else
        var l := Loop(g, entry, init, [], 0);
        var r := Truncate(l);
        assert r.Finished? && r.iterations == MaxIterations ==> r.state.errors == l.state.errors + [TruncationMessage];
        assert r.Aborted? ==> r.message != NoEntryPointMessage by {
          if r.Aborted? {
            assert r.message[..6] == "Node \"";
            assert NoEntryPointMessage[..6] == "No ent";
          }
        }
        r
  }

  /** The ceiling diagnostic is appended exactly when the loop used up all
      iterations, including when the last node executed routed to END. */
  lemma TruncationExactlyAtCeiling(g: Definition, init: State, entry: string)
    requires g.entryPoint == Some(entry) && entry != ""
    requires Loop(g, entry, init, [], 0).Finished?
    ensures var l := Loop(g, entry, init, [], 0); var r := Run(g, init);
      && r.Finished? && r.trace == l.trace && r.iterations == l.iterations && r.finalNode == l.finalNode
      && r.state.errors == l.state.errors + (if l.iterations == MaxIterations then [TruncationMessage] else [])
      && r.state.(errors := l.state.errors) == l.state
  {
    var l := Loop(g, entry, init, [], 0);
    assert Run(g, init) == Truncate(l);
    if l.iterations >= MaxIterations {
      assert l.iterations == MaxIterations;
      assert Reduce(l.state, ErrorUpdate(TruncationMessage)).errors == l.state.errors + [TruncationMessage];
    }
  }

  /** A node that raises ends the run at once: exactly one failure message
      naming it is appended, it is the last trace entry, and no later node
      runs. */
  lemma NodeFaultStopsRun(g: Definition, node: string, s: State, trace: seq<string>, iterations: nat, message: string)
    requires iterations < MaxIterations && |trace| == iterations && Running(node, iterations)
    requires node in g.nodes && g.nodes[node](s) == Threw(message)
    ensures var r := Loop(g, node, s, trace, iterations);
      && r.Finished? && r.trace == trace + [node] && r.iterations == iterations + 1 && r.finalNode == End
      && r.state.errors == s.errors + [FailureMessage(node, message)]
      && r.state.(errors := s.errors) == s
  {
    ReduceEmpty(s);
  }

  /** A decision function that raises ends the run too; the node's own
      update has already been merged. */
  lemma DecisionFaultStopsRun(g: Definition, node: string, s: State, trace: seq<string>, iterations: nat, u: Update, message: string)
    requires iterations < MaxIterations && |trace| == iterations && Running(node, iterations)
    requires node in g.nodes && g.nodes[node](s) == Returned(u)
    requires node in g.conditionalEdges && g.conditionalEdges[node].condition(Reduce(s, u)) == Raised(message)
    ensures var r := Loop(g, node, s, trace, iterations);
      && r.Finished? && r.trace == trace + [node] && r.iterations == iterations + 1 && r.finalNode == End
      && r.state.errors == Reduce(s, u).errors + [FailureMessage(node, message)]
  {
  }

  /** A node name missing from the registry aborts `invoke`; the per-node
      fault handling does not catch it. */
  lemma UnknownNodeAborts(g: Definition, node: string, s: State, trace: seq<string>, iterations: nat)
    requires iterations < MaxIterations && |trace| == iterations && Running(node, iterations)
    requires node !in g.nodes
    ensures Loop(g, node, s, trace, iterations) == Aborted(NotFoundMessage(node), trace + [node])
  {
  }

  /** A registered conditional edge shadows any direct edge of the same node. */
  lemma ConditionalEdgeTakesPrecedence(g: Definition, node: string, s: State, target: string)
    requires node in g.conditionalEdges
    ensures Step(g.(edges := g.edges[node := target]), node, s) == Step(g, node, s)
    ensures Step(g.(edges := g.edges - {node}), node, s) == Step(g, node, s)
  {
  }

  /** A decision key with no (or an empty) table entry is taken as the name
      of the next node. */
  lemma DecisionKeyFallback(g: Definition, node: string, s: State, u: Update, key: string)
    requires node in g.nodes && g.nodes[node](s) == Returned(u)
    requires node in g.conditionalEdges && g.conditionalEdges[node].condition(Reduce(s, u)) == Chose(key)
    requires key !in g.conditionalEdges[node].edgeMap || g.conditionalEdges[node].edgeMap[key] == ""
    ensures Step(g, node, s) == Next(Reduce(s, u), key)
  {
  }

  /** Without a conditional edge the next node is the direct edge, and the
      terminal node when there is none. */
  lemma DirectEdgeRouting(g: Definition, node: string, s: State, u: Update)
    requires node in g.nodes && g.nodes[node](s) == Returned(u) && node !in g.conditionalEdges
    ensures node !in g.edges ==> Step(g, node, s) == Next(Reduce(s, u), End)
    ensures node in g.edges && g.edges[node] == "" ==> Step(g, node, s) == Next(Reduce(s, u), End)
    ensures node in g.edges && g.edges[node] != "" ==> Step(g, node, s) == Next(Reduce(s, u), g.edges[node])
  {
  }

  /** Every state the driver returns keeps the history of the initial one:
      no accumulating entry is lost and no memory key is deleted. */
  lemma {:induction false} LoopExtends(g: Definition, node: string, s: State, trace: seq<string>, iterations: nat)
    requires iterations <= MaxIterations && |trace| == iterations
    ensures var r := Loop(g, node, s, trace, iterations); r.Finished? ==> Extends(s, r.state)
    decreases MaxIterations - iterations
  {
    if Running(node, iterations) {
      match Step(g, node, s)
      case Missing =>
      case Next(s', next) =>
        assert Extends(s, s') by {
          match g.nodes[node](s)
          case Threw(m) => ReduceExtends(s, ErrorUpdate(FailureMessage(node, m)));
          case Returned(u) =>
            ReduceExtends(s, u);
            if node in g.conditionalEdges {
              match g.conditionalEdges[node].condition(Reduce(s, u))
              case Raised(m) =>
                ReduceExtends(Reduce(s, u), ErrorUpdate(FailureMessage(node, m)));
                ExtendsTransitive(s, Reduce(s, u), s');
              case Chose(_) =>
            }
        }
        LoopExtends(g, next, s', trace + [node], iterations + 1);
        var r := Loop(g, next, s', trace + [node], iterations + 1);
        if r.Finished? {
          ExtendsTransitive(s, s', r.state);
        }
    }
  }

  lemma RunExtends(g: Definition, init: State)
    ensures var r := Run(g, init); r.Finished? ==> Extends(init, r.state)
  {
    if g.entryPoint.Some? && g.entryPoint.value != "" {
      var l := Loop(g, g.entryPoint.value, init, [], 0);
      LoopExtends(g, g.entryPoint.value, init, [], 0);
      if l.Finished? && l.iterations >= MaxIterations {
        ReduceExtends(l.state, ErrorUpdate(TruncationMessage));
        ExtendsTransitive(init, l.state, Reduce(l.state, ErrorUpdate(TruncationMessage)));
      }
    }
  }

  /** A graph in which one node routes back to itself forever still stops:
      after exactly the ceiling of iterations, with the truncation
      diagnostic as the last error. */
  lemma {:induction false} SelfLoopTruncates(g: Definition, a: string, init: State)
    requires g.entryPoint == Some(a) && a != "" && a != End
    requires a in g.nodes && a !in g.conditionalEdges && a in g.edges && g.edges[a] == a
    requires forall s :: g.nodes[a](s).Returned?
    ensures var r := Run(g, init);
      && r.Finished? && r.iterations == MaxIterations && r.finalNode == a
      && r.trace == seq(MaxIterations, _ => a)
      && r.state.errors != [] && r.state.errors[|r.state.errors| - 1] == TruncationMessage
  {
    assert seq(0, _ => a) == [];
    SelfLoopRuns(g, a, init, [], 0);
    assert Run(g, init) == Truncate(Loop(g, a, init, [], 0));
  }

  lemma {:induction false} SelfLoopRuns(g: Definition, a: string, s: State, trace: seq<string>, iterations: nat)
    requires a != "" && a != End && a in g.nodes && a !in g.conditionalEdges && a in g.edges && g.edges[a] == a
    requires forall s :: g.nodes[a](s).Returned?
    requires iterations <= MaxIterations && trace == seq(iterations, _ => a)
    ensures var r := Loop(g, a, s, trace, iterations);
      r.Finished? && r.iterations == MaxIterations && r.finalNode == a && r.trace == seq(MaxIterations, _ => a)
    decreases MaxIterations - iterations
  {
    if iterations < MaxIterations {
      var u := g.nodes[a](s).update;
      assert Step(g, a, s) == Next(Reduce(s, u), a);
      assert trace + [a] == seq(iterations + 1, _ => a);
      SelfLoopRuns(g, a, Reduce(s, u), trace + [a], iterations + 1);
    }
  }

  /** One turn of the loop: running a node that steps to `next` leaves the
      rest of the run to the loop from `next`. */
  lemma StepAdvances(g: Definition, node: string, s: State, trace: seq<string>, iterations: nat, s': State, next: string)
    requires iterations < MaxIterations && |trace| == iterations && Running(node, iterations)
    requires Step(g, node, s) == Next(s', next)
    ensures Loop(g, node, s, trace, iterations) == Loop(g, next, s', trace + [node], iterations + 1)
  {
  }

  /** The graph builder. The compiled `invoke` reads the builder's fields
      when it runs, so it is a method of the builder here. */
  class CustomStateGraph {
    var nodes: map<string, NodeFn>
    var edges: map<string, string>
    var conditionalEdges: map<string, ConditionalEdge>
    var entryPoint: Option<string>

    constructor ()
      ensures nodes == map[] && edges == map[] && conditionalEdges == map[] && entryPoint == None
    {
      nodes, edges, conditionalEdges, entryPoint := map[], map[], map[], None;
    }

    function Snapshot(): Definition
      reads this
    {
      Definition(nodes, edges, conditionalEdges, entryPoint)
    }

    /** Registers a node; a second registration under the same name wins. */
    method AddNode(name: string, fn: NodeFn)
      modifies this
      ensures nodes == old(nodes)[name := fn]
      ensures edges == old(edges) && conditionalEdges == old(conditionalEdges) && entryPoint == old(entryPoint)
    {
      nodes := nodes[name := fn];
    }

    method SetEntryPoint(name: string)
      modifies this
      ensures entryPoint == Some(name)
      ensures nodes == old(nodes) && edges == old(edges) && conditionalEdges == old(conditionalEdges)
    {
      entryPoint := Some(name);
    }

    /** Sets the direct edge out of `from`, replacing any earlier one. */
    method AddEdge(from: string, to: string)
      modifies this
      ensures edges == old(edges)[from := to]
      ensures nodes == old(nodes) && conditionalEdges == old(conditionalEdges) && entryPoint == old(entryPoint)
    {
      edges := edges[from := to];
    }

    /** Sets the conditional edge out of `from`, replacing any earlier one. */
    method AddConditionalEdges(from: string, condition: ConditionFn, edgeMap: map<string, string>)
      modifies this
      ensures conditionalEdges == old(conditionalEdges)[from := ConditionalEdge(condition, edgeMap)]
      ensures nodes == old(nodes) && edges == old(edges) && entryPoint == old(entryPoint)
    {
      conditionalEdges := conditionalEdges[from := ConditionalEdge(condition, edgeMap)];
    }

    /** Runs the graph from its entry point on `initialState`. */
    method Invoke(initialState: State) returns (r: RunResult)
      ensures r == Run(Snapshot(), initialState)
      ensures r.Finished? ==> |r.trace| == r.iterations <= MaxIterations
      ensures r.Finished? ==> Extends(initialState, r.state)
    {
      if entryPoint.None? || entryPoint.value == "" {
        return Aborted(NoEntryPointMessage, []);
      }
      ghost var g := Snapshot();
      var currentState := initialState;
      var currentNode := entryPoint.value;
      var visitedNodes: seq<string> := [];
      var iterations: nat := 0;
      while currentNode != "" && currentNode != End && iterations < MaxIterations
        invariant iterations <= MaxIterations && |visitedNodes| == iterations
        invariant Truncate(Loop(g, currentNode, currentState, visitedNodes, iterations)) == Run(g, initialState)
        decreases MaxIterations - iterations
      {
        ghost var before, at, trace := currentState, currentNode, visitedNodes;
        iterations := iterations + 1;
        visitedNodes := visitedNodes + [currentNode];
        if currentNode !in nodes {
          return Aborted(NotFoundMessage(currentNode), visitedNodes);
        }
        var outcome := nodes[currentNode](currentState);
        match outcome {
          case Threw(m) =>
            currentState := Reduce(currentState, ErrorUpdate(FailureMessage(currentNode, m)));
            currentNode := End;
          case Returned(updates) =>
            currentState := Reduce(currentState, updates);
            if currentNode in conditionalEdges {
              var edge := conditionalEdges[currentNode];
              var decision := edge.condition(currentState);
              match decision {
                case Raised(m) =>
                  currentState := Reduce(currentState, ErrorUpdate(FailureMessage(currentNode, m)));
                  currentNode := End;
                case Chose(key) =>
                  currentNode := Resolve(edge.edgeMap, key);
              }
            } else {
              currentNode := DirectTarget(edges, currentNode);
            }
        }
        StepAdvances(g, at, before, trace, iterations - 1, currentState, currentNode);
      }
      if iterations >= MaxIterations {
        currentState := Reduce(currentState, ErrorUpdate(TruncationMessage));
      }
      r := Finished(currentState, visitedNodes, iterations, currentNode);
      RunExtends(g, initialState);
    }
  }
}
