/** Records shared by the workflow state and the pipeline nodes.
    Payloads that the language model produces and nobody inspects are kept
    opaque; those the nodes build themselves (the fallback FAQ and product
    pages) are spelled out. */
module Types {

  datatype Option<+T> = None | Some(value: T) {
    function GetOr(default: T): T {
      match this
      case Some(v) => v
      case None => default
    }
  }

  function Min(a: nat, b: nat): nat {
    if a <= b then a else b
  }

  /** Position of the first `x` in `s`, or `|s|` when there is none. */
  function IndexOf<T(==)>(s: seq<T>, x: T): (i: nat)
    ensures i <= |s| && x !in s[..i] && (i < |s| ==> s[i] == x)
    ensures x in s <==> i < |s|
    decreases |s|
  {
    if s == [] then 0
    else if s[0] == x then 0
    else
      var i := 1 + IndexOf(s[1..], x);
      assert s[..i] == [s[0]] + s[1..][..i - 1];
      assert s == [s[0]] + s[1..];
      i
  }

  /** A product record as parsed from the raw product description. */
  datatype Product = Product(
    id: string,
    name: string,
    concentration: string,
    skinType: seq<string>,
    keyIngredients: seq<string>,
    benefits: seq<string>,
    howToUse: string,
    sideEffects: string,
    price: string)

  datatype Question = Question(id: string, category: string, question: string, answer: Option<string>)

  datatype Answer = Answer(question: string, answer: string, category: string)

  datatype FaqItem = FaqItem(category: string, question: string, answer: string)

  datatype FaqPage = FaqPage(title: string, description: string, faqs: seq<FaqItem>)

  datatype KeyFeature = KeyFeature(title: string, description: string)

  datatype Ingredient = Ingredient(name: string, benefit: string)

  datatype Usage = Usage(title: string, steps: seq<string>, tips: seq<string>)

  datatype Safety = Safety(warnings: seq<string>, sideEffects: seq<string>)

  datatype Pricing = Pricing(price: string, valueProposition: string)

  datatype ProductPage = ProductPage(
    title: string,
    tagline: string,
    description: string,
    keyFeatures: seq<KeyFeature>,
    ingredients: seq<Ingredient>,
    usage: Usage,
    safety: Safety,
    pricing: Pricing)

  /** A page stored in the state: one the node assembled itself, or the
      parsed JSON document the language model returned (kept opaque). */
  datatype Page = Faq(faq: FaqPage) | Landing(landing: ProductPage) | Generated(document: string)

  /** A value of the free-form scratch map `memory`. */
  datatype Value = Num(n: int) | Text(s: string) | Opaque(tag: nat)

  datatype Status = Success | Error

  /** One per-node execution record; the elapsed time is not modelled. */
  datatype AgentLog = AgentLog(
    agentName: string,
    role: string,
    tokensUsed: nat,
    status: Status,
    errorMessage: Option<string>)

  /** The outcome of one call to the language model: the parsed content and
      the tokens it cost, or the message of the error the call raised. */
  datatype Reply<+T> = Ok(value: T, tokens: nat) | Fail(message: string)
}
