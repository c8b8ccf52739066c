/** The FAQ-page node: picks at most ten answers grouped by category and has
    the model format them; builds a page itself when there is nothing to
    format or the call fails. */
module FaqTemplate {
  import opened Types
  import opened AgentState

  const AgentName: string := "FAQTemplateAgent"
  const AgentRole: string := "FAQ Page Assembly & Formatting"
  const FallbackPrefix: string := "FAQTemplateAgent used fallback: "
  const MaxFaqs: nat := 10
  const TitlePrefix: string := "Frequently Asked Questions - "
  const PendingDescription: string := "Common questions about this product. Answers are being generated."
  const PendingAnswer: string := "Answer pending. Please check back later or contact customer support for details."

  /** The category of every answer, in order. */
  function CategoryList(answers: seq<Answer>): (cs: seq<string>)
    ensures |cs| == |answers| && forall i :: 0 <= i < |answers| ==> cs[i] == answers[i].category
  {
    seq(|answers|, i requires 0 <= i < |answers| => answers[i].category)
  }

  /** `[...new Set(cs)]`: each value once, in order of first appearance. */
  function Distinct(cs: seq<string>): (ds: seq<string>)
    decreases |cs|
  {
    if cs == [] then []
    else
      var ds := Distinct(cs[..|cs| - 1]);
      if cs[|cs| - 1] in ds then ds else ds + [cs[|cs| - 1]]
  }

  /** `Distinct` keeps exactly the values of `cs`, each once, ordered by
      where they first appear. */
  lemma {:induction false} DistinctSpec(cs: seq<string>)
    ensures forall c :: c in Distinct(cs) <==> c in cs
    ensures forall i, j :: 0 <= i < j < |Distinct(cs)| ==> Distinct(cs)[i] != Distinct(cs)[j]
    ensures forall i, j :: 0 <= i < j < |Distinct(cs)| ==>
      Distinct(cs)[i] in cs && Distinct(cs)[j] in cs && IndexOf(cs, Distinct(cs)[i]) < IndexOf(cs, Distinct(cs)[j])
    decreases |cs|
  {
    if cs != [] {
      var n := |cs| - 1;
      var init := cs[..n];
      DistinctSpec(init);
      var ds0, ds := Distinct(init), Distinct(cs);
      assert cs == init + [cs[n]];
      assert forall c :: c in cs <==> c in init || c == cs[n];
      forall c | c in init
        ensures IndexOf(cs, c) == IndexOf(init, c)
      {
        IndexOfPrefix(cs, n, c);
      }
      if cs[n] !in ds0 {
        assert cs[n] !in init;
        assert IndexOf(cs, cs[n]) == n by {
          assert cs[n] !in cs[..n];
        }
        forall i, j | 0 <= i < j < |ds|
          ensures ds[i] != ds[j] && IndexOf(cs, ds[i]) < IndexOf(cs, ds[j])
        {
          if j == |ds| - 1 {
            assert ds[i] == ds0[i] && ds0[i] in ds0;
          }
        }
      }
    }
  }

  lemma IndexOfPrefix(cs: seq<string>, n: nat, c: string)
    requires n <= |cs| && c in cs[..n]
    ensures c in cs && IndexOf(cs, c) == IndexOf(cs[..n], c)
  {
    var k := IndexOf(cs[..n], c);
    assert cs[..n][..k] == cs[..k];
  }

  /** `[...new Set(answers.map(a => a.category))]`. */
  function Categories(answers: seq<Answer>): seq<string> {
    Distinct(CategoryList(answers))
  }

  /** `answers.filter(a => a.category === c)`. */
  function InCategory(answers: seq<Answer>, c: string): seq<Answer>
    decreases |answers|
  {
    if answers == [] then []
    else
      var n := |answers| - 1;
      InCategory(answers[..n], c) + (if answers[n].category == c then [answers[n]] else [])
  }

  /** `cats.flatMap(c => answers.filter(a => a.category === c))`. */
  function Grouped(answers: seq<Answer>, cats: seq<string>): seq<Answer>
    decreases |cats|
  {
    if cats == [] then [] else InCategory(answers, cats[0]) + Grouped(answers, cats[1..])
  }

  /** The answers put in front of the model: grouped by category, at most ten. */
  function SelectAnswers(answers: seq<Answer>): seq<Answer> {
    var grouped := Grouped(answers, Categories(answers));
    grouped[..Min(MaxFaqs, |grouped|)]
  }

  lemma {:induction false} InCategoryCount(answers: seq<Answer>, c: string, a: Answer)
    ensures multiset(InCategory(answers, c))[a] == if a.category == c then multiset(answers)[a] else 0
    decreases |answers|
  {
    if answers != [] {
      var n := |answers| - 1;
      InCategoryCount(answers[..n], c, a);
      assert answers == answers[..n] + [answers[n]];
    }
  }

  lemma {:induction false} GroupedCount(answers: seq<Answer>, cats: seq<string>, a: Answer)
    requires forall i, j :: 0 <= i < j < |cats| ==> cats[i] != cats[j]
    ensures multiset(Grouped(answers, cats))[a] == if a.category in cats then multiset(answers)[a] else 0
    decreases |cats|
  {
    if cats != [] {
      GroupedCount(answers, cats[1..], a);
      InCategoryCount(answers, cats[0], a);
      assert cats == [cats[0]] + cats[1..];
      assert cats[0] !in cats[1..];
    }
  }

  /** Grouping by category is a permutation of the answers. */
  lemma GroupedIsPermutation(answers: seq<Answer>)
    ensures multiset(Grouped(answers, Categories(answers))) == multiset(answers)
  {
    var cats := Categories(answers);
    DistinctSpec(CategoryList(answers));
    forall a
      ensures multiset(Grouped(answers, cats))[a] == multiset(answers)[a]
    {
      GroupedCount(answers, cats, a);
      if a in answers {
        var i :| 0 <= i < |answers| && answers[i] == a;
        assert CategoryList(answers)[i] == a.category;
      }
    }
  }

  lemma {:induction false} InCategoryAppend(xs: seq<Answer>, ys: seq<Answer>, c: string)
    ensures InCategory(xs + ys, c) == InCategory(xs, c) + InCategory(ys, c)
    decreases |ys|
  {
    if ys != [] {
      var n := |ys| - 1;
      InCategoryAppend(xs, ys[..n], c);
      var zs := xs + ys;
      assert zs != [] && zs[|zs| - 1] == ys[n];
      assert zs[..|zs| - 1] == xs + ys[..n];
      assert InCategory(zs, c) == InCategory(xs + ys[..n], c) + (if ys[n].category == c then [ys[n]] else []);
    } else {
      assert xs + ys == xs;
    }
  }

  lemma {:induction false} InCategoryTwice(xs: seq<Answer>, c: string, d: string)
    ensures InCategory(InCategory(xs, d), c) == if c == d then InCategory(xs, c) else []
    decreases |xs|
  {
    if xs != [] {
      var n := |xs| - 1;
      InCategoryTwice(xs[..n], c, d);
      InCategoryAppend(InCategory(xs[..n], d), if xs[n].category == d then [xs[n]] else [], c);
    }
  }

  /** Within each category the grouped answers keep their original order. */
  lemma {:induction false} GroupedKeepsCategoryOrder(answers: seq<Answer>, cats: seq<string>, c: string)
    requires forall i, j :: 0 <= i < j < |cats| ==> cats[i] != cats[j]
    ensures InCategory(Grouped(answers, cats), c) == if c in cats then InCategory(answers, c) else []
    decreases |cats|
  {
    if cats != [] {
      GroupedKeepsCategoryOrder(answers, cats[1..], c);
      InCategoryAppend(InCategory(answers, cats[0]), Grouped(answers, cats[1..]), c);
      InCategoryTwice(answers, c, cats[0]);
      assert cats == [cats[0]] + cats[1..];
      assert cats[0] !in cats[1..];
    }
  }

  /** Every answer filtered into a category has that category. */
  lemma {:induction false} InCategoryOnly(answers: seq<Answer>, c: string)
    ensures forall a :: a in InCategory(answers, c) ==> a.category == c
    decreases |answers|
  {
    if answers != [] {
      InCategoryOnly(answers[..|answers| - 1], c);
    }
  }

  /** The grouping lists the answers block by block in the order of `cats`:
      no answer comes after one whose category is later in `cats`. */
  lemma {:induction false} GroupedBlocks(answers: seq<Answer>, cats: seq<string>)
    requires forall i, j :: 0 <= i < j < |cats| ==> cats[i] != cats[j]
    ensures forall a :: a in Grouped(answers, cats) ==> a.category in cats
    ensures forall i, j :: 0 <= i < j < |Grouped(answers, cats)| ==>
      IndexOf(cats, Grouped(answers, cats)[i].category) <= IndexOf(cats, Grouped(answers, cats)[j].category)
    decreases |cats|
  {
    if cats != [] {
      var rest := cats[1..];
      GroupedBlocks(answers, rest);
      InCategoryOnly(answers, cats[0]);
      var head, tail := InCategory(answers, cats[0]), Grouped(answers, rest);
      var g := Grouped(answers, cats);
      assert g == head + tail;
      assert cats[0] !in rest by {
        assert forall k :: 0 <= k < |rest| ==> rest[k] == cats[k + 1];
      }
      forall a | a in g
        ensures a.category in cats
      {
        if a !in head {
          assert a in tail;
          assert a.category in rest;
        }
      }
      forall i, j | 0 <= i < j < |g|
        ensures IndexOf(cats, g[i].category) <= IndexOf(cats, g[j].category)
      {
        if i >= |head| {
          var x, y := tail[i - |head|], tail[j - |head|];
          assert g[i] == x && g[j] == y;
          assert x in tail && y in tail;
          IndexOfAfterHead(cats, x.category);
          IndexOfAfterHead(cats, y.category);
        }
      }
    }
  }

  lemma IndexOfAfterHead(cs: seq<string>, x: string)
    requires cs != [] && x != cs[0]
    ensures IndexOf(cs, x) == 1 + IndexOf(cs[1..], x)
  {
  }

  /** The grouping orders the categories by where each first appears among
      the answers. */
  lemma GroupedInFirstAppearanceOrder(answers: seq<Answer>)
    ensures var grouped, cs := Grouped(answers, Categories(answers)), CategoryList(answers);
      forall i, j :: 0 <= i < j < |grouped| ==>
        grouped[i].category in cs && grouped[j].category in cs && IndexOf(cs, grouped[i].category) <= IndexOf(cs, grouped[j].category)
  {
    var cs, cats := CategoryList(answers), Categories(answers);
    var grouped := Grouped(answers, cats);
    DistinctSpec(cs);
    GroupedBlocks(answers, cats);
    forall i, j | 0 <= i < j < |grouped|
      ensures grouped[i].category in cs && grouped[j].category in cs && IndexOf(cs, grouped[i].category) <= IndexOf(cs, grouped[j].category)
    {
      var x, y := grouped[i].category, grouped[j].category;
      assert grouped[i] in grouped && grouped[j] in grouped;
      var p, q := IndexOf(cats, x), IndexOf(cats, y);
      if p < q {
        assert cats[p] == x && cats[q] == y;
      }
    }
  }

  /** The selection: at most ten answers, all from `answers`, a prefix of the
      category grouping, which keeps every category's own order. */
  lemma SelectionSpec(answers: seq<Answer>)
    ensures |SelectAnswers(answers)| == Min(MaxFaqs, |answers|)
    ensures forall a :: a in SelectAnswers(answers) ==> a in answers
    ensures SelectAnswers(answers) <= Grouped(answers, Categories(answers))
    ensures forall c :: InCategory(Grouped(answers, Categories(answers)), c) == InCategory(answers, c)
    ensures var sel, cs := SelectAnswers(answers), CategoryList(answers);
      forall i, j :: 0 <= i < j < |sel| ==>
        sel[i].category in cs && sel[j].category in cs && IndexOf(cs, sel[i].category) <= IndexOf(cs, sel[j].category)
  {
    var grouped := Grouped(answers, Categories(answers));
    GroupedInFirstAppearanceOrder(answers);
    GroupedIsPermutation(answers);
    assert |grouped| == |multiset(grouped)| == |multiset(answers)| == |answers|;
    forall a | a in SelectAnswers(answers)
      ensures a in answers
    {
      assert a in grouped;
      assert a in multiset(grouped);
    }
    DistinctSpec(CategoryList(answers));
    forall c
      ensures InCategory(grouped, c) == InCategory(answers, c)
    {
      GroupedKeepsCategoryOrder(answers, Categories(answers), c);
      if c !in Categories(answers) {
        NoneInCategory(answers, c);
      }
    }
  }

  lemma {:induction false} NoneInCategory(answers: seq<Answer>, c: string)
    requires c !in CategoryList(answers)
    ensures InCategory(answers, c) == []
    decreases |answers|
  {
    if answers != [] {
      var n := |answers| - 1;
      assert CategoryList(answers)[n] == answers[n].category;
      assert CategoryList(answers[..n]) == CategoryList(answers)[..n];
      NoneInCategory(answers[..n], c);
    }
  }

  function Title(product: Option<Product>): string {
    TitlePrefix + (if product.Some? && product.value.name != "" then product.value.name else "Product")
  }

  /** The page built, without calling the model, when there are no answers:
      the first ten questions with a placeholder answer. */
  function PendingFaq(state: State): (page: FaqPage)
    ensures |page.faqs| == Min(MaxFaqs, |state.questions|)
    ensures forall j :: 0 <= j < |page.faqs| ==>
      page.faqs[j] == FaqItem(state.questions[j].category, state.questions[j].question, PendingAnswer)
  {
    var shown := state.questions[..Min(MaxFaqs, |state.questions|)];
    FaqPage(
      Title(state.parsedProduct),
      PendingDescription,
      seq(|shown|, j requires 0 <= j < |shown| => FaqItem(shown[j].category, shown[j].question, PendingAnswer)))
  }

  /** The page built when the model call fails: the first ten answers as they are. */
  function FallbackFaq(state: State): (page: FaqPage)
    ensures |page.faqs| == Min(MaxFaqs, |state.answers|)
    ensures forall j :: 0 <= j < |page.faqs| ==>
      page.faqs[j] == FaqItem(state.answers[j].category, state.answers[j].question, state.answers[j].answer)
  {
    var shown := state.answers[..Min(MaxFaqs, |state.answers|)];
    var name := if state.parsedProduct.Some? && state.parsedProduct.value.name != "" then state.parsedProduct.value.name else "this product";
    FaqPage(
      Title(state.parsedProduct),
      "Common questions about " + name + ".",
      seq(|shown|, j requires 0 <= j < |shown| => FaqItem(shown[j].category, shown[j].question, shown[j].answer)))
  }

  function SuccessLog(tokens: nat): AgentLog {
    AgentLog(AgentName, AgentRole, tokens, Success, None)
  }

  /** What the node returns, given the outcome of the model call it makes
      when there is something to format. */
  function FaqTemplateUpdate(state: State, reply: Reply<string>): Update {
    if |SelectAnswers(state.answers)| == 0 then
      EmptyUpdate.(
        faqPage := Some(Some(Faq(PendingFaq(state)))),
        agentLogs := Some(state.agentLogs + [SuccessLog(0)]))
    else
      match reply
      case Ok(document, tokensUsed) =>
        EmptyUpdate.(
          faqPage := Some(Some(Generated(document))),
          agentLogs := Some(state.agentLogs + [SuccessLog(tokensUsed)]))
      case Fail(message) =>
        EmptyUpdate.(
          faqPage := Some(Some(Faq(FallbackFaq(state)))),
          errors := Some(state.errors + [FallbackPrefix + message]),
          agentLogs := Some(state.agentLogs + [SuccessLog(0)]))
  }

  /** Every path sets the page and logs one "success" entry. With no answers
      the model is not consulted and no error is recorded; a failed call
      records exactly one error; both fallbacks cost no tokens. */
  lemma FaqUpdateShape(state: State, reply: Reply<string>, other: Reply<string>)
    ensures var u := FaqTemplateUpdate(state, reply);
      && u.faqPage.Some? && u.faqPage.value.Some?
      && u.agentLogs.Some? && |u.agentLogs.value| == |state.agentLogs| + 1
      && u.agentLogs.value[|state.agentLogs|].status == Success
      && u.retryCount.None? && u.answers.None?
      && (state.answers == [] ==>
            && u == FaqTemplateUpdate(state, other)
            && u.errors.None? && u.agentLogs.value[|state.agentLogs|].tokensUsed == 0
            && u.faqPage.value.value == Faq(PendingFaq(state)))
      && (state.answers != [] && reply.Fail? ==>
            && u.errors == Some(state.errors + [FallbackPrefix + reply.message])
            && u.agentLogs.value[|state.agentLogs|].tokensUsed == 0
            && u.faqPage.value.value == Faq(FallbackFaq(state)))
      && (state.answers != [] && reply.Ok? ==>
            && u.errors.None? && u.agentLogs.value[|state.agentLogs|].tokensUsed == reply.tokens)
  {
    SelectionSpec(state.answers);
  }
}
