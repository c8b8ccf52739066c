/** The product-page node: the model writes the landing page; when the call
    fails, a deterministic page is built from the parsed product record. */
module ProductTemplate {
  import opened Types
  import opened AgentState
  import opened Strings

  const AgentName: string := "ProductTemplateAgent"
  const AgentRole: string := "Product Page Creation & Content Assembly"
  const FallbackPrefix: string := "ProductTemplateAgent used fallback: "
  const DefaultTitle: string := "Product"
  const Tagline: string := "Premium skincare solution"
  const DefaultBenefit: string := "Experience the benefits of advanced skincare."
  const IngredientBenefit: string := "Key active ingredient for optimal results"
  const UsageTitle: string := "How to Use"
  const DefaultSteps: seq<string> := ["Apply to clean skin", "Use as directed", "For best results, use daily"]
  const Tips: seq<string> := ["Perform a patch test before first use", "Store in a cool, dry place"]
  const Warnings: seq<string> := ["For external use only", "Avoid contact with eyes"]
  const DefaultSideEffect: string := "Discontinue use if irritation occurs"
  const DefaultPrice: string := "$0.00"
  const ValueProposition: string := "Quality skincare at an accessible price"
  const MaxFeatures: nat := 4

  /** A separator-free prefix that ends at a separator or at the end of `s`
      is the text before the first separator. */
  lemma PrefixBeforeFirst(s: string, c: char, p: string)
    requires p <= s && c !in p && (|p| == |s| || s[|p|] == c)
    ensures p == s[..IndexOf(s, c)]
  {
  }

  /** The text before the first colon: `benefit.split(":")[0]`. */
  lemma FirstPieceBeforeColon(s: string)
    ensures Split(s, ':')[0] == s[..IndexOf(s, ':')]
  {
    SplitHead(s, ':');
    var parts := Split(s, ':');
    if |parts| == 1 {
      assert parts[0] == s[..|parts[0]|];
    }
    PrefixBeforeFirst(s, ':', parts[0]);
  }

  /** `benefit.split(":")[1]`: the text between the first and the second
      colon, absent when there is no colon. */
  lemma SecondPieceBetweenColons(s: string)
    ensures var i := IndexOf(s, ':');
      && (|Split(s, ':')| > 1 <==> i < |s|)
      && (i < |s| ==> Split(s, ':')[1] == s[i + 1..][..IndexOf(s[i + 1..], ':')])
  {
    SplitHead(s, ':');
    FirstPieceBeforeColon(s);
    var parts := Split(s, ':');
    var i := IndexOf(s, ':');
    if i < |s| {
      assert ':' in s;
      assert parts[1] == Split(s[i + 1..], ':')[0];
      FirstPieceBeforeColon(s[i + 1..]);
    } else {
      assert s[..i] == s;
    }
  }

  /** A feature card made from one benefit, in the form "title: description". */
  function Feature(benefit: string): (f: KeyFeature)
    ensures var i := IndexOf(benefit, ':');
      && f.title == (if i == 0 then benefit else benefit[..i])
      && var rest := if i < |benefit| then benefit[i + 1..] else "";
         f.description == (if i < |benefit| && IndexOf(rest, ':') > 0 then rest[..IndexOf(rest, ':')] else benefit)
    ensures ':' !in benefit ==> f == KeyFeature(benefit, benefit)
  {
    var parts := Split(benefit, ':');
    FirstPieceBeforeColon(benefit);
    SecondPieceBetweenColons(benefit);
    KeyFeature(
      if parts[0] != "" then parts[0] else benefit,
      if |parts| > 1 && parts[1] != "" then parts[1] else benefit)
  }

  /** The description sentence; a missing product renders each field as
      "undefined", as the template string does. */
  function Description(product: Option<Product>): string {
    match product
    case None =>
      "undefined is a undefined formula designed for undefined skin types. " + DefaultBenefit
    case Some(p) =>
      p.name + " is a " + p.concentration + " formula designed for " + Join(p.skinType, ", ")
        + " skin types. " + (if p.benefits != [] && p.benefits[0] != "" then p.benefits[0] else DefaultBenefit)
  }

  /** The page built when the model call fails. */
  function ProductFallback(product: Option<Product>): (page: ProductPage)
    ensures var benefits := if product.Some? then product.value.benefits else [];
      && |page.keyFeatures| == Min(MaxFeatures, |benefits|)
      && forall j :: 0 <= j < |page.keyFeatures| ==> page.keyFeatures[j] == Feature(benefits[j])
    ensures var ingredients := if product.Some? then product.value.keyIngredients else [];
      && |page.ingredients| == |ingredients|
      && forall j :: 0 <= j < |ingredients| ==> page.ingredients[j] == Ingredient(ingredients[j], IngredientBenefit)
    ensures page.usage.steps == (if product.Some? && product.value.howToUse != "" then [product.value.howToUse] else DefaultSteps)
    ensures page.safety.sideEffects == (if product.Some? && product.value.sideEffects != "" then [product.value.sideEffects] else [DefaultSideEffect])
    ensures page.title == (if product.Some? && product.value.name != "" then product.value.name else DefaultTitle)
    ensures page.pricing.price == (if product.Some? && product.value.price != "" then product.value.price else DefaultPrice)
  {
    var benefits := if product.Some? then product.value.benefits else [];
    var shown := benefits[..Min(MaxFeatures, |benefits|)];
    var ingredients := if product.Some? then product.value.keyIngredients else [];
    ProductPage(
      if product.Some? && product.value.name != "" then product.value.name else DefaultTitle,
      Tagline,
      Description(product),
      seq(|shown|, j requires 0 <= j < |shown| => Feature(shown[j])),
      seq(|ingredients|, j requires 0 <= j < |ingredients| => Ingredient(ingredients[j], IngredientBenefit)),
      Usage(
        UsageTitle,
        if product.Some? && product.value.howToUse != "" then [product.value.howToUse] else DefaultSteps,
        Tips),
      Safety(
        Warnings,
        if product.Some? && product.value.sideEffects != "" then [product.value.sideEffects] else [DefaultSideEffect]),
      Pricing(
        if product.Some? && product.value.price != "" then product.value.price else DefaultPrice,
        ValueProposition))
  }

  /** What the node returns, given the outcome of its one model call. */
  function ProductTemplateUpdate(state: State, reply: Reply<string>): Update {
    match reply
    case Ok(document, tokensUsed) =>
      EmptyUpdate.(
        productPage := Some(Some(Generated(document))),
        agentLogs := Some(state.agentLogs + [AgentLog(AgentName, AgentRole, tokensUsed, Success, None)]))
    case Fail(message) =>
      EmptyUpdate.(
        productPage := Some(Some(Landing(ProductFallback(state.parsedProduct)))),
        errors := Some(state.errors + [FallbackPrefix + message]),
        agentLogs := Some(state.agentLogs + [AgentLog(AgentName, AgentRole, 0, Success, None)]))
  }

  /** Every path sets the page and logs one "success" entry; only the
      fallback path records an error, and its log entry costs no tokens. */
  lemma ProductUpdateShape(state: State, reply: Reply<string>)
    ensures var u := ProductTemplateUpdate(state, reply);
      && u.productPage.Some? && u.productPage.value.Some?
      && u.agentLogs.Some? && |u.agentLogs.value| == |state.agentLogs| + 1
      && u.agentLogs.value[|state.agentLogs|].status == Success
      && u.retryCount.None? && u.answers.None? && u.questions.None?
      && (reply.Ok? ==> u.errors.None? && u.agentLogs.value[|state.agentLogs|].tokensUsed == reply.tokens)
      && (reply.Fail? ==>
            && u.errors == Some(state.errors + [FallbackPrefix + reply.message])
            && u.agentLogs.value[|state.agentLogs|].tokensUsed == 0
            && u.productPage.value.value == Landing(ProductFallback(state.parsedProduct)))
  {
  }
}
