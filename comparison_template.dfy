/** The comparison-page node: the model invents a competitor product, whose
    id is replaced by a fresh UUID unless it already is one, then writes the
    comparison page for the two products. */
module ComparisonTemplate {
  import opened Types
  import opened AgentState

  const AgentName: string := "ComparisonTemplateAgent"
  const AgentRole: string := "Competitor Generation & Comparison Analysis"
  const ErrorPrefix: string := "ComparisonTemplateAgent: "
  const ReservedMarker: string := "comp-"

  /** Lengths of the hex groups of a UUID, in order. */
  const UuidGroups: seq<nat> := [8, 4, 4, 4, 12]

  /** A character of the class `[0-9a-f]` matched case-insensitively. */
  predicate IsHexDigit(c: char) {
    '0' <= c <= '9' || 'a' <= c <= 'f' || 'A' <= c <= 'F'
  }

  predicate AllHex(s: string) {
    forall i :: 0 <= i < |s| ==> IsHexDigit(s[i])
  }

  /** The anchored pattern built from `groups`: runs of exactly `groups[k]`
      hex digits joined by single dashes, covering all of `s`. */
  predicate MatchesGroups(s: string, groups: seq<nat>)
    decreases |groups|
  {
    if groups == [] then s == []
    else if |groups| == 1 then |s| == groups[0] && AllHex(s)
    else
      && |s| > groups[0]
      && AllHex(s[..groups[0]])
      && s[groups[0]] == '-'
      && MatchesGroups(s[groups[0] + 1..], groups[1..])
  }

  /** The id test the node applies: `/^[0-9a-f]{8}-[0-9a-f]{4}-[0-9a-f]{4}-[0-9a-f]{4}-[0-9a-f]{12}$/i`. */
  predicate MatchesUuidPattern(s: string) {
    MatchesGroups(s, UuidGroups)
  }

  predicate IsDashPosition(i: int) {
    i == 8 || i == 13 || i == 18 || i == 23
  }

  /** The positional description of a UUID: 36 characters, dashes at 8, 13,
      18 and 23, hex digits everywhere else. */
  predicate UuidShape(s: string) {
    |s| == 36 && forall i :: 0 <= i < 36 ==> if IsDashPosition(i) then s[i] == '-' else IsHexDigit(s[i])
  }

  type Uuid = s: string | UuidShape(s) witness "00000000-0000-0000-0000-000000000000"

  lemma LastGroup(s: string, g: nat)
    ensures MatchesGroups(s, [g]) <==> |s| == g && AllHex(s)
  {
  }

  lemma InnerGroup(s: string, g: nat, rest: seq<nat>)
    requires rest != []
    ensures MatchesGroups(s, [g] + rest) <==>
      |s| > g && AllHex(s[..g]) && s[g] == '-' && MatchesGroups(s[g + 1..], rest)
  {
    assert ([g] + rest)[1..] == rest;
  }

  /** The group pattern and the positional description agree. */
  lemma UuidPatternIsShape(s: string)
    ensures MatchesUuidPattern(s) <==> UuidShape(s)
  {
    assert UuidGroups == [8] + ([4] + ([4] + ([4] + [12])));
    InnerGroup(s, 8, [4, 4, 4, 12]);
    if |s| > 8 {
      var s1 := s[9..];
      InnerGroup(s1, 4, [4, 4, 12]);
      if |s1| > 4 {
        var s2 := s1[5..];
        InnerGroup(s2, 4, [4, 12]);
        if |s2| > 4 {
          var s3 := s2[5..];
          InnerGroup(s3, 4, [12]);
          if |s3| > 4 {
            var s4 := s3[5..];
            LastGroup(s4, 12);
            assert s4 == s[24..];
            assert s3 == s[19..] && s2 == s[14..] && s1 == s[9..];
            if UuidShape(s) {
              assert AllHex(s[..8]) && AllHex(s1[..4]) && AllHex(s2[..4]) && AllHex(s3[..4]) && AllHex(s4);
            }
            if MatchesUuidPattern(s) {
              assert |s| == 36;
              forall i | 0 <= i < 36
                ensures if IsDashPosition(i) then s[i] == '-' else IsHexDigit(s[i])
              {
                if i < 8 {
                  assert s[i] == s[..8][i];
                } else if 8 < i < 13 {
                  assert s[i] == s1[..4][i - 9];
                } else if 13 < i < 18 {
                  assert s[i] == s2[..4][i - 14];
                } else if 18 < i < 23 {
                  assert s[i] == s3[..4][i - 19];
                } else if 23 < i {
                  assert s[i] == s4[i - 24];
                }
              }
            }
          }
        }
      }
    }
  }

  predicate OccursAt(s: string, t: string, i: int) {
    0 <= i <= |s| - |t| && s[i..i + |t|] == t
  }

  /** `s.includes(t)`. */
  predicate Contains(s: string, t: string) {
    exists i :: 0 <= i <= |s| - |t| && OccursAt(s, t, i)
  }

  /** An id containing "comp-" never has the UUID shape ('o' is neither a
      hex digit nor a dash), so that test of the node never changes its verdict. */
  lemma ReservedMarkerNeverUuid(s: string)
    requires Contains(s, ReservedMarker)
    ensures !UuidShape(s)
  {
    var i :| 0 <= i <= |s| - |ReservedMarker| && OccursAt(s, ReservedMarker, i);
    assert |ReservedMarker| == 5 && ReservedMarker[1] == 'o';
    assert s[i..i + 5] == ReservedMarker;
    assert s[i + 1] == s[i..i + 5][1];
  }

  /** Whether the model's competitor id is kept: it is non-empty, does not
      contain "comp-", and matches the UUID pattern. */
  predicate KeepsCompetitorId(id: string) {
    id != "" && !Contains(id, ReservedMarker) && MatchesUuidPattern(id)
  }

  /** The id is kept exactly when it has the UUID shape. */
  lemma KeepsExactlyUuids(id: string)
    ensures KeepsCompetitorId(id) <==> UuidShape(id)
  {
    UuidPatternIsShape(id);
    if UuidShape(id) {
      if Contains(id, ReservedMarker) {
        ReservedMarkerNeverUuid(id);
      }
    }
  }

  /** The competitor as stored: its id replaced by `freshId` unless it is a UUID. */
  function NormalizedCompetitor(competitor: Product, freshId: Uuid): (r: Product)
    ensures UuidShape(r.id)
    ensures UuidShape(competitor.id) ==> r == competitor
    ensures !UuidShape(competitor.id) ==> r.id == freshId
    ensures r.(id := competitor.id) == competitor
  {
    KeepsExactlyUuids(competitor.id);
    if KeepsCompetitorId(competitor.id) then competitor else competitor.(id := freshId)
  }

  /** The update returned when either model call fails. */
  function FailureUpdate(state: State, message: string): (u: Update)
    ensures u.errors == Some(state.errors + [ErrorPrefix + message])
    ensures u.agentLogs == Some(state.agentLogs + [AgentLog(AgentName, AgentRole, 0, Error, Some(message))])
    ensures u.competitorProduct.None? && u.comparisonPage.None? && u.retryCount.None?
  {
    EmptyUpdate.(
      errors := Some(state.errors + [ErrorPrefix + message]),
      agentLogs := Some(state.agentLogs + [AgentLog(AgentName, AgentRole, 0, Error, Some(message))]))
  }

  /** What the node returns, given the outcomes of its two model calls and
      the UUID it would draw; the second call is made only after the first
      succeeded. */
  function ComparisonTemplateUpdate(state: State, competitorReply: Reply<Product>, comparisonReply: Reply<string>, freshId: Uuid): Update {
    match competitorReply
    case Fail(message) => FailureUpdate(state, message)
    case Ok(competitor, competitorTokens) =>
      match comparisonReply
      case Fail(message) => FailureUpdate(state, message)
      case Ok(document, comparisonTokens) =>
        EmptyUpdate.(
          competitorProduct := Some(Some(NormalizedCompetitor(competitor, freshId))),
          comparisonPage := Some(Some(Generated(document))),
          agentLogs := Some(state.agentLogs + [AgentLog(AgentName, AgentRole, competitorTokens + comparisonTokens, Success, None)]))
  }

  /** On success the stored competitor has a UUID id and the log charges the
      tokens of both calls; on either failure nothing but one error and one
      zero-token "error" log entry is returned, and a failed first call makes
      the second irrelevant. */
  lemma ComparisonUpdateShape(state: State, competitorReply: Reply<Product>, comparisonReply: Reply<string>, other: Reply<string>, freshId: Uuid)
    ensures var u := ComparisonTemplateUpdate(state, competitorReply, comparisonReply, freshId);
      && u.agentLogs.Some? && |u.agentLogs.value| == |state.agentLogs| + 1
      && u.retryCount.None? && u.answers.None? && u.faqPage.None? && u.productPage.None?
      && (competitorReply.Ok? && comparisonReply.Ok? ==>
            && u.errors.None?
            && u.competitorProduct.Some? && u.competitorProduct.value.Some?
            && UuidShape(u.competitorProduct.value.value.id)
            && u.competitorProduct.value.value.name == competitorReply.value.name
            && u.comparisonPage == Some(Some(Generated(comparisonReply.value)))
            && u.agentLogs.value[|state.agentLogs|]
               == AgentLog(AgentName, AgentRole, competitorReply.tokens + comparisonReply.tokens, Success, None))
      && (competitorReply.Fail? ==>
            && u == ComparisonTemplateUpdate(state, competitorReply, other, freshId)
            && u == FailureUpdate(state, competitorReply.message))
      && (competitorReply.Ok? && comparisonReply.Fail? ==>
            && u == FailureUpdate(state, comparisonReply.message))
  {
  }
}
