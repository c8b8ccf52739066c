/** The record threaded through a run of the content-generation graph and
    the reducer that merges a node's partial update into it. */
module AgentState {
  import opened Types

  datatype State = State(
    // execution metadata
    executionId: string,
    generationId: string,
    productId: string,
    startTime: int,
    // product data
    rawProduct: Option<Product>,
    parsedProduct: Option<Product>,
    // generated content (accumulated)
    questions: seq<Question>,
    answers: seq<Answer>,
    // template outputs
    faqPage: Option<Page>,
    productPage: Option<Page>,
    comparisonPage: Option<Page>,
    competitorProduct: Option<Product>,
    // execution tracking (accumulated)
    agentLogs: seq<AgentLog>,
    errors: seq<string>,
    retryCount: int,
    // routing flags
    shouldGenerateFAQ: bool,
    shouldGenerateProduct: bool,
    shouldGenerateComparison: bool,
    // scratch map
    memory: map<string, Value>)

  /** A partial state: `None` is a key the update does not carry. For a
      nullable field, `Some(None)` is an update that sets it to null. */
  datatype Update = Update(
    executionId: Option<string>,
    generationId: Option<string>,
    productId: Option<string>,
    startTime: Option<int>,
    rawProduct: Option<Option<Product>>,
    parsedProduct: Option<Option<Product>>,
    questions: Option<seq<Question>>,
    answers: Option<seq<Answer>>,
    faqPage: Option<Option<Page>>,
    productPage: Option<Option<Page>>,
    comparisonPage: Option<Option<Page>>,
    competitorProduct: Option<Option<Product>>,
    agentLogs: Option<seq<AgentLog>>,
    errors: Option<seq<string>>,
    retryCount: Option<int>,
    shouldGenerateFAQ: Option<bool>,
    shouldGenerateProduct: Option<bool>,
    shouldGenerateComparison: Option<bool>,
    memory: Option<map<string, Value>>)

  /** The update that carries no key at all. */
  const EmptyUpdate: Update := Update(
    None, None, None, None, None, None, None, None, None, None,
    None, None, None, None, None, None, None, None, None)

  /** The update that only appends `message` to `errors`. */
  function ErrorUpdate(message: string): (u: Update)
    ensures u.errors == Some([message])
  {
    EmptyUpdate.(errors := Some([message]))
  }

  /** The entries an update contributes to an accumulating field. */
  function Added<T>(field: Option<seq<T>>): seq<T> {
    field.GetOr([])
  }

  /** `after` is `before` with `entries` appended: nothing dropped, reordered
      or deduplicated. */
  ghost predicate Appends<T>(before: seq<T>, entries: seq<T>, after: seq<T>) {
    && |after| == |before| + |entries|
    && (forall i :: 0 <= i < |before| ==> after[i] == before[i])
    && (forall i :: 0 <= i < |entries| ==> after[|before| + i] == entries[i])
  }

  /** Shallow merge of `patch` over `base`: every key of either, the patch winning. */
  ghost predicate MergedOver<K, V>(base: map<K, V>, patch: map<K, V>, merged: map<K, V>) {
    && merged.Keys == base.Keys + patch.Keys
    && (forall k :: k in patch ==> merged[k] == patch[k])
    && (forall k :: k in base && k !in patch ==> merged[k] == base[k])
  }

  /** A present key replaces the field, an absent one keeps it. */
  ghost predicate Replaced<T>(before: T, field: Option<T>, after: T) {
    after == (if field.Some? then field.value else before)
  }

  /** The merge the graph applies after every node: plain fields are
      replaced, the four sequences are appended to, `memory` is merged
      key by key. */
  function Reduce(s: State, u: Update): State
  {
    State(
      u.executionId.GetOr(s.executionId),
      u.generationId.GetOr(s.generationId),
      u.productId.GetOr(s.productId),
      u.startTime.GetOr(s.startTime),
      u.rawProduct.GetOr(s.rawProduct),
      u.parsedProduct.GetOr(s.parsedProduct),
      s.questions + Added(u.questions),
      s.answers + Added(u.answers),
      u.faqPage.GetOr(s.faqPage),
      u.productPage.GetOr(s.productPage),
      u.comparisonPage.GetOr(s.comparisonPage),
      u.competitorProduct.GetOr(s.competitorProduct),
      s.agentLogs + Added(u.agentLogs),
      s.errors + Added(u.errors),
      u.retryCount.GetOr(s.retryCount),
      u.shouldGenerateFAQ.GetOr(s.shouldGenerateFAQ),
      u.shouldGenerateProduct.GetOr(s.shouldGenerateProduct),
      u.shouldGenerateComparison.GetOr(s.shouldGenerateComparison),
      s.memory + u.memory.GetOr(map[]))
  }

  /** The three merge rules, field by field. */
  lemma ReduceLaws(s: State, u: Update)
    ensures Appends(s.questions, Added(u.questions), Reduce(s, u).questions)
    ensures Appends(s.answers, Added(u.answers), Reduce(s, u).answers)
    ensures Appends(s.agentLogs, Added(u.agentLogs), Reduce(s, u).agentLogs)
    ensures Appends(s.errors, Added(u.errors), Reduce(s, u).errors)
    ensures MergedOver(s.memory, u.memory.GetOr(map[]), Reduce(s, u).memory)
    ensures Replaced(s.executionId, u.executionId, Reduce(s, u).executionId)
    ensures Replaced(s.generationId, u.generationId, Reduce(s, u).generationId)
    ensures Replaced(s.productId, u.productId, Reduce(s, u).productId)
    ensures Replaced(s.startTime, u.startTime, Reduce(s, u).startTime)
    ensures Replaced(s.rawProduct, u.rawProduct, Reduce(s, u).rawProduct)
    ensures Replaced(s.parsedProduct, u.parsedProduct, Reduce(s, u).parsedProduct)
    ensures Replaced(s.faqPage, u.faqPage, Reduce(s, u).faqPage)
    ensures Replaced(s.productPage, u.productPage, Reduce(s, u).productPage)
    ensures Replaced(s.comparisonPage, u.comparisonPage, Reduce(s, u).comparisonPage)
    ensures Replaced(s.competitorProduct, u.competitorProduct, Reduce(s, u).competitorProduct)
    ensures Replaced(s.retryCount, u.retryCount, Reduce(s, u).retryCount)
    ensures Replaced(s.shouldGenerateFAQ, u.shouldGenerateFAQ, Reduce(s, u).shouldGenerateFAQ)
    ensures Replaced(s.shouldGenerateProduct, u.shouldGenerateProduct, Reduce(s, u).shouldGenerateProduct)
    ensures Replaced(s.shouldGenerateComparison, u.shouldGenerateComparison, Reduce(s, u).shouldGenerateComparison)
  {
  }

  /** `later` keeps the whole history of `earlier`: each accumulating
      sequence of `earlier` is a prefix of the one in `later`, and no key of
      the scratch map has been removed. */
  ghost predicate Extends(earlier: State, later: State) {
    && earlier.questions <= later.questions
    && earlier.answers <= later.answers
    && earlier.agentLogs <= later.agentLogs
    && earlier.errors <= later.errors
    && earlier.memory.Keys <= later.memory.Keys
  }

  lemma ReduceExtends(s: State, u: Update)
    ensures Extends(s, Reduce(s, u))
  {
    var r := Reduce(s, u);
    assert s.questions == r.questions[..|s.questions|];
    assert s.answers == r.answers[..|s.answers|];
    assert s.agentLogs == r.agentLogs[..|s.agentLogs|];
    assert s.errors == r.errors[..|s.errors|];
  }

  lemma ExtendsTransitive(a: State, b: State, c: State)
    requires Extends(a, b) && Extends(b, c)
    ensures Extends(a, c)
  {
  }

  /** Merging the update that carries no key changes nothing. */
  lemma ReduceEmpty(s: State)
    ensures Reduce(s, EmptyUpdate) == s
  {
    assert s.memory + map[] == s.memory;
  }

  /** Two updates applied one after the other, as one update. */
  function Then(u: Update, v: Update): Update {
    Update(
      Latest(u.executionId, v.executionId),
      Latest(u.generationId, v.generationId),
      Latest(u.productId, v.productId),
      Latest(u.startTime, v.startTime),
      Latest(u.rawProduct, v.rawProduct),
      Latest(u.parsedProduct, v.parsedProduct),
      Some(Added(u.questions) + Added(v.questions)),
      Some(Added(u.answers) + Added(v.answers)),
      Latest(u.faqPage, v.faqPage),
      Latest(u.productPage, v.productPage),
      Latest(u.comparisonPage, v.comparisonPage),
      Latest(u.competitorProduct, v.competitorProduct),
      Some(Added(u.agentLogs) + Added(v.agentLogs)),
      Some(Added(u.errors) + Added(v.errors)),
      Latest(u.retryCount, v.retryCount),
      Latest(u.shouldGenerateFAQ, v.shouldGenerateFAQ),
      Latest(u.shouldGenerateProduct, v.shouldGenerateProduct),
      Latest(u.shouldGenerateComparison, v.shouldGenerateComparison),
      Some(u.memory.GetOr(map[]) + v.memory.GetOr(map[])))
  }

  function Latest<T>(first: Option<T>, second: Option<T>): Option<T> {
    if second.Some? then second else first
  }

  /** Merging is an action of update composition: merging two updates in
      turn is merging their composition once. */
  lemma ReduceThen(s: State, u: Update, v: Update)
    ensures Reduce(Reduce(s, u), v) == Reduce(s, Then(u, v))
  {
    var mu, mv := u.memory.GetOr(map[]), v.memory.GetOr(map[]);
    assert (s.memory + mu) + mv == s.memory + (mu + mv);
    assert (s.questions + Added(u.questions)) + Added(v.questions)
        == s.questions + (Added(u.questions) + Added(v.questions));
    assert (s.answers + Added(u.answers)) + Added(v.answers)
        == s.answers + (Added(u.answers) + Added(v.answers));
    assert (s.agentLogs + Added(u.agentLogs)) + Added(v.agentLogs)
        == s.agentLogs + (Added(u.agentLogs) + Added(v.agentLogs));
    assert (s.errors + Added(u.errors)) + Added(v.errors)
        == s.errors + (Added(u.errors) + Added(v.errors));
  }

  /** The nodes of the pipeline return `[...state.errors, entry]` (and the
      same for `agentLogs`); the reducer appends that to the existing
      sequence again, so the old entries end up twice. */
  lemma ReturningWholeSequenceDuplicates(s: State, u: Update, entry: string, log: AgentLog)
    requires u.errors == Some(s.errors + [entry])
    requires u.agentLogs == Some(s.agentLogs + [log])
    ensures Reduce(s, u).errors == s.errors + s.errors + [entry]
    ensures Reduce(s, u).agentLogs == s.agentLogs + s.agentLogs + [log]
    ensures |Reduce(s, u).errors| == 2 * |s.errors| + 1
  {
  }

  /** The state a run starts from: nothing generated yet, all three pages
      requested. */
  function CreateInitialState(executionId: string, productId: string, rawProduct: Product, now: int): (r: State)
    ensures r.executionId == executionId && r.generationId == executionId
    ensures r.productId == productId && r.rawProduct == Some(rawProduct) && r.startTime == now
    ensures r.questions == [] && r.answers == [] && r.agentLogs == [] && r.errors == []
    ensures r.memory == map[] && r.retryCount == 0
    ensures r.parsedProduct.None? && r.faqPage.None? && r.productPage.None?
    ensures r.comparisonPage.None? && r.competitorProduct.None?
    ensures r.shouldGenerateFAQ && r.shouldGenerateProduct && r.shouldGenerateComparison
  {
    State(
      executionId, executionId, productId, now,
      Some(rawProduct), None,
      [], [],
      None, None, None, None,
      [], [], 0,
      true, true, true,
      map[])
  }

  /** From the initial state, each accumulating field holds exactly what
      the updates merged so far contributed. */
  lemma {:induction false} InitialStateAccumulates(init: State, updates: seq<Update>)
    requires init.errors == [] && init.answers == []
    ensures ReduceAll(init, updates).errors == Contributed(updates)
    ensures |ReduceAll(init, updates).answers| == AnswersContributed(updates)
    decreases |updates|
  {
    if updates != [] {
      var n := |updates| - 1;
      InitialStateAccumulates(init, updates[..n]);
    }
  }

  /** Merging a list of updates from left to right. */
  function ReduceAll(s: State, updates: seq<Update>): State
    decreases |updates|
  {
    if updates == [] then s else Reduce(ReduceAll(s, updates[..|updates| - 1]), updates[|updates| - 1])
  }

  function Contributed(updates: seq<Update>): seq<string>
    decreases |updates|
  {
    if updates == [] then [] else Contributed(updates[..|updates| - 1]) + Added(updates[|updates| - 1].errors)
  }

  function AnswersContributed(updates: seq<Update>): nat
    decreases |updates|
  {
    if updates == [] then 0 else AnswersContributed(updates[..|updates| - 1]) + |Added(updates[|updates| - 1].answers)|
  }
}
