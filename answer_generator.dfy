/** The answer-generation node: one model call per question, skipping
    malformed questions and tolerating the failure of any single call. */
module AnswerGenerator {
  import opened Types
  import opened AgentState

  const AgentName: string := "AnswerGeneratorAgent"
  const AgentRole: string := "Answer Generation & Content Creation"
  const NoQuestionsMessage: string := "No questions available to generate answers"
  const AllCallsFailedMessage: string := "Failed to generate any answers - all API calls failed"

  /** A question the node sends to the model: both its text and its category are non-empty. */
  predicate IsValid(q: Question) {
    q.question != "" && q.category != ""
  }

  /** The answer built from question `i` and the model's reply to it. */
  function AnswerFor(qs: seq<Question>, reply: nat -> Reply<string>, i: nat): Answer
    requires i < |qs| && reply(i).Ok?
  {
    Answer(qs[i].question, reply(i).value, qs[i].category)
  }

  /** The answers and the token total after the loop has visited the first
      `n` questions; `reply(i)` is the outcome of the call for question `i`. */
  function Answered(qs: seq<Question>, reply: nat -> Reply<string>, n: nat): (seq<Answer>, nat)
    requires n <= |qs|
  {
    if n == 0 then ([], 0)
    else
      var (answers, tokens) := Answered(qs, reply, n - 1);
      if IsValid(qs[n - 1]) && reply(n - 1).Ok?
      then (answers + [AnswerFor(qs, reply, n - 1)], tokens + reply(n - 1).tokens)
      else (answers, tokens)
  }

  /** The positions, in increasing order, of the questions among the first
      `n` that yield an answer. */
  function Kept(qs: seq<Question>, reply: nat -> Reply<string>, n: nat): seq<nat>
    requires n <= |qs|
  {
    if n == 0 then []
    else Kept(qs, reply, n - 1) + (if IsValid(qs[n - 1]) && reply(n - 1).Ok? then [n - 1] else [])
  }

  function TokensOf(reply: nat -> Reply<string>, positions: seq<nat>): nat {
    if positions == [] then 0
    else
      var last := positions[|positions| - 1];
      TokensOf(reply, positions[..|positions| - 1]) + (if reply(last).Ok? then reply(last).tokens else 0)
  }

  /** A question is answered exactly when it is valid and its call
      succeeded; the answered positions are strictly increasing. */
  lemma {:induction false} KeptExactly(qs: seq<Question>, reply: nat -> Reply<string>, n: nat)
    requires n <= |qs|
    ensures forall i: int :: i in Kept(qs, reply, n) <==> 0 <= i < n && IsValid(qs[i]) && reply(i).Ok?
    ensures forall j, k :: 0 <= j < k < |Kept(qs, reply, n)| ==> Kept(qs, reply, n)[j] < Kept(qs, reply, n)[k]
  {
    if n > 0 {
      KeptExactly(qs, reply, n - 1);
      var K0, K := Kept(qs, reply, n - 1), Kept(qs, reply, n);
      var keep := IsValid(qs[n - 1]) && reply(n - 1).Ok?;
      assert forall i :: i in K <==> i in K0 || (keep && i == n - 1);
      forall j, k | 0 <= j < k < |K|
        ensures K[j] < K[k]
      {
        if k >= |K0| {
          assert K[j] == K0[j] && K0[j] in K0;
        }
      }
    }
  }

  /** The answers are those of the kept questions, in question order, each
      carrying its question's text and category. */
  lemma {:induction false} AnswersOfKept(qs: seq<Question>, reply: nat -> Reply<string>, n: nat)
    requires n <= |qs|
    ensures var K := Kept(qs, reply, n);
      && |Answered(qs, reply, n).0| == |K|
      && (forall j :: 0 <= j < |K| ==> K[j] < |qs| && reply(K[j]).Ok? && Answered(qs, reply, n).0[j] == AnswerFor(qs, reply, K[j]))
  {
    if n > 0 {
      AnswersOfKept(qs, reply, n - 1);
      var K := Kept(qs, reply, n);
      var K0 := Kept(qs, reply, n - 1);
      var answers0 := Answered(qs, reply, n - 1).0;
      if IsValid(qs[n - 1]) && reply(n - 1).Ok? {
        assert K == K0 + [n - 1];
        var answers := answers0 + [AnswerFor(qs, reply, n - 1)];
        assert Answered(qs, reply, n).0 == answers;
        forall j | 0 <= j < |K|
          ensures K[j] < |qs| && reply(K[j]).Ok? && answers[j] == AnswerFor(qs, reply, K[j])
        {
          if j < |K0| {
            assert K[j] == K0[j] && answers[j] == answers0[j];
          }
        }
      } else {
        assert K == K0 && Answered(qs, reply, n).0 == answers0;
      }
    }
  }

  /** The token total counts the successful calls only. */
  lemma {:induction false} TokensOfKept(qs: seq<Question>, reply: nat -> Reply<string>, n: nat)
    requires n <= |qs|
    ensures Answered(qs, reply, n).1 == TokensOf(reply, Kept(qs, reply, n))
  {
    if n > 0 {
      TokensOfKept(qs, reply, n - 1);
      var K := Kept(qs, reply, n);
      var K0 := Kept(qs, reply, n - 1);
      if IsValid(qs[n - 1]) && reply(n - 1).Ok? {
        assert K[..|K| - 1] == K0 && K[|K| - 1] == n - 1;
      } else {
        assert K == K0;
      }
    }
  }

  /** The answers are those of the kept questions, in question order, each
      carrying its question's text and category; the token total counts the
      successful calls only. */
  lemma AnsweredAreKept(qs: seq<Question>, reply: nat -> Reply<string>, n: nat)
    requires n <= |qs|
    ensures var K := Kept(qs, reply, n);
      && |Answered(qs, reply, n).0| == |K|
      && (forall j :: 0 <= j < |K| ==> K[j] < |qs| && reply(K[j]).Ok? && Answered(qs, reply, n).0[j] == AnswerFor(qs, reply, K[j]))
      && Answered(qs, reply, n).1 == TokensOf(reply, K)
  {
    AnswersOfKept(qs, reply, n);
    TokensOfKept(qs, reply, n);
  }

  /** The replies to invalid questions are never looked at: the node skips
      those questions without calling the model. */
  lemma {:induction false} InvalidQuestionsNotAsked(qs: seq<Question>, reply: nat -> Reply<string>, reply': nat -> Reply<string>, n: nat)
    requires n <= |qs|
    requires forall i :: 0 <= i < |qs| && IsValid(qs[i]) ==> reply(i) == reply'(i)
    ensures Answered(qs, reply, n) == Answered(qs, reply', n)
  {
    if n > 0 {
      InvalidQuestionsNotAsked(qs, reply, reply', n - 1);
    }
  }

  /** Round half up of the mean answer length (`Math.round` of the quotient). */
  function AverageLength(answers: seq<Answer>): (r: nat)
    requires answers != []
    ensures 2 * r * |answers| <= 2 * TotalLength(answers) + |answers| < 2 * (r + 1) * |answers|
  {
    (2 * TotalLength(answers) + |answers|) / (2 * |answers|)
  }

  function TotalLength(answers: seq<Answer>): nat {
    if answers == [] then 0 else TotalLength(answers[..|answers| - 1]) + |answers[|answers| - 1].answer|
  }

  /** The update returned when the node catches an error. */
  function FailureUpdate(state: State, message: string): (u: Update)
    ensures u.answers == Some([]) && u.retryCount == Some(state.retryCount + 1)
    ensures u.errors == Some(state.errors + [AgentName + ": " + message])
    ensures u.agentLogs == Some(state.agentLogs + [AgentLog(AgentName, AgentRole, 0, Error, Some(message))])
  {
    EmptyUpdate.(
      answers := Some([]),
      errors := Some(state.errors + [AgentName + ": " + message]),
      agentLogs := Some(state.agentLogs + [AgentLog(AgentName, AgentRole, 0, Error, Some(message))]),
      retryCount := Some(state.retryCount + 1))
  }

  /** The update returned when at least one answer was produced. */
  function SuccessUpdate(state: State, answers: seq<Answer>, totalTokens: nat): Update
    requires answers != []
  {
    EmptyUpdate.(
      answers := Some(answers),
      agentLogs := Some(state.agentLogs + [AgentLog(AgentName, AgentRole, totalTokens, Success, None)]),
      memory := Some(state.memory["answersGenerated" := Num(|answers|)]["avgAnswerLength" := Num(AverageLength(answers))]))
  }

  /** What the node returns for `state`, given the model's reply to each question. */
  function AnswerGeneratorUpdate(state: State, reply: nat -> Reply<string>): Update {
    if |state.questions| == 0 then FailureUpdate(state, NoQuestionsMessage)
    else
      var (answers, totalTokens) := Answered(state.questions, reply, |state.questions|);
      if |answers| == 0 then FailureUpdate(state, AllCallsFailedMessage)
      else SuccessUpdate(state, answers, totalTokens)
  }

  /** The node: one pass over the questions, accumulating answers and tokens. */
  method AnswerGeneratorNode(state: State, reply: nat -> Reply<string>) returns (u: Update)
    ensures u == AnswerGeneratorUpdate(state, reply)
  {
    if |state.questions| == 0 {
      return FailureUpdate(state, NoQuestionsMessage);
    }
    var totalTokens: nat := 0;
    var answers: seq<Answer> := [];
    for i := 0 to |state.questions|
      invariant (answers, totalTokens) == Answered(state.questions, reply, i)
    {
      var q := state.questions[i];
      if !IsValid(q) {
        continue;
      }
      match reply(i) {
        case Fail(_) =>
        case Ok(content, tokensUsed) =>
          totalTokens := totalTokens + tokensUsed;
          answers := answers + [Answer(q.question, content, q.category)];
      }
    }
    if |answers| == 0 {
      return FailureUpdate(state, AllCallsFailedMessage);
    }
    return SuccessUpdate(state, answers, totalTokens);
  }

  /** Empty questions take the error path, with a zero-token error log and
      the retry counter raised by one. */
  lemma NoQuestionsFails(state: State, reply: nat -> Reply<string>)
    requires state.questions == []
    ensures AnswerGeneratorUpdate(state, reply) == FailureUpdate(state, NoQuestionsMessage)
    ensures AnswerGeneratorUpdate(state, reply).retryCount == Some(state.retryCount + 1)
  {
  }

  /** An update without errors is the success update built from the
      answers of the pass, and that pass produced at least one answer. */
  lemma SuccessIsSuccessUpdate(state: State, reply: nat -> Reply<string>)
    requires AnswerGeneratorUpdate(state, reply).errors.None?
    ensures var (answers, tokens) := Answered(state.questions, reply, |state.questions|);
      && state.questions != [] && answers != []
      && AnswerGeneratorUpdate(state, reply) == SuccessUpdate(state, answers, tokens)
  {
  }

  /** A successful update holds one answer per kept question, in question
      order, each for a valid question whose call succeeded. */
  lemma SuccessAnswers(state: State, reply: nat -> Reply<string>)
    requires AnswerGeneratorUpdate(state, reply).errors.None?
    ensures var u := AnswerGeneratorUpdate(state, reply);
      var K := Kept(state.questions, reply, |state.questions|);
      && u.answers.Some? && |u.answers.value| == |K| >= 1
      && (forall j :: 0 <= j < |K| ==> K[j] < |state.questions| && IsValid(state.questions[K[j]]) && reply(K[j]).Ok?)
      && (forall j :: 0 <= j < |K| ==>
            u.answers.value[j].question == state.questions[K[j]].question && u.answers.value[j].category == state.questions[K[j]].category)
      && (forall j, k :: 0 <= j < k < |K| ==> K[j] < K[k])
  {
    var qs := state.questions;
    var K := Kept(qs, reply, |qs|);
    SuccessIsSuccessUpdate(state, reply);
    AnsweredAreKept(qs, reply, |qs|);
    KeptExactly(qs, reply, |qs|);
    forall j | 0 <= j < |K|
      ensures K[j] < |qs| && IsValid(qs[K[j]]) && reply(K[j]).Ok?
    {
      assert K[j] in K;
    }
  }

  /** A successful update logs the tokens of the kept calls, records the
      answer count in memory without dropping a key, and leaves the retry
      counter alone. */
  lemma SuccessBookkeeping(state: State, reply: nat -> Reply<string>)
    requires AnswerGeneratorUpdate(state, reply).errors.None?
    ensures var u := AnswerGeneratorUpdate(state, reply);
      var K := Kept(state.questions, reply, |state.questions|);
      && u.agentLogs == Some(state.agentLogs + [AgentLog(AgentName, AgentRole, TokensOf(reply, K), Success, None)])
      && u.memory.Some? && state.memory.Keys <= u.memory.value.Keys
      && u.memory.value["answersGenerated"] == Num(|K|)
      && u.retryCount.None?
  {
    SuccessIsSuccessUpdate(state, reply);
    AnsweredAreKept(state.questions, reply, |state.questions|);
  }

  /** Every successful update has at least one answer, and every answer
      belongs to a valid question whose call succeeded, in question order;
      the logged tokens are those of the successful calls. */
  lemma SuccessShape(state: State, reply: nat -> Reply<string>)
    requires AnswerGeneratorUpdate(state, reply).errors.None?
    ensures var u := AnswerGeneratorUpdate(state, reply);
      var K := Kept(state.questions, reply, |state.questions|);
      && u.answers.Some? && |u.answers.value| == |K| >= 1
      && (forall j :: 0 <= j < |K| ==> K[j] < |state.questions| && IsValid(state.questions[K[j]]) && reply(K[j]).Ok?)
      && (forall j :: 0 <= j < |K| ==>
            u.answers.value[j].question == state.questions[K[j]].question && u.answers.value[j].category == state.questions[K[j]].category)
      && (forall j, k :: 0 <= j < k < |K| ==> K[j] < K[k])
      && u.agentLogs == Some(state.agentLogs + [AgentLog(AgentName, AgentRole, TokensOf(reply, K), Success, None)])
      && u.memory.Some? && state.memory.Keys <= u.memory.value.Keys
      && u.memory.value["answersGenerated"] == Num(|K|)
      && u.retryCount.None?
  {
    SuccessAnswers(state, reply);
    SuccessBookkeeping(state, reply);
  }

  /** A valid question whose call succeeded is always answered, however the
      other calls went: one failure omits only its own question. */
  lemma {:induction false} SuccessfulCallIsKept(qs: seq<Question>, reply: nat -> Reply<string>, i: nat)
    requires i < |qs| && IsValid(qs[i]) && reply(i).Ok?
    ensures AnswerFor(qs, reply, i) in Answered(qs, reply, |qs|).0
  {
    KeptExactly(qs, reply, |qs|);
    AnsweredAreKept(qs, reply, |qs|);
    var K := Kept(qs, reply, |qs|);
    var j :| 0 <= j < |K| && K[j] == i;
    assert Answered(qs, reply, |qs|).0[j] == AnswerFor(qs, reply, i);
  }
}
