/**
 * Pairwise compatibility scoring of the matchmaking engine
 * (backend/services/matchingService.js): bio-tag extraction over a fixed
 * keyword vocabulary, question alignment, shared tags, a fairness bonus for
 * waiting time, a queue-size-dependent threshold and a reason classification.
 */
module MatchScore {
  import opened Common
  import opened JsText

  const WEIGHT_QUESTION: real := 2.0
  const WEIGHT_BIO: real := 1.5
  const WEIGHT_FAIRNESS: real := 0.05

  /** The questionnaire slots compared by the scorer. */
  const QUESTION_IDS: seq<string> := ["q1", "q2", "q3", "q4"]

  /** Tag name and its keywords, in the vocabulary's iteration order. */
  type Vocab = seq<(string, seq<string>)>

  const BIO_VOCAB: Vocab := [
    ("playful", ["playful", "funny", "joke", "witty", "humor"]),
    ("deep", ["deep", "thoughtful", "philosophical", "soul"]),
    ("chill", ["chill", "calm", "relaxed", "casual"]),
    ("energetic", ["energetic", "excited", "hype", "expressive"]),
    ("listener", ["listener", "quiet", "reserved", "reflective"]),
    ("curious", ["curious", "explorer", "learner", "inquisitive"])
  ]

  /** A waiting user as stored in the queue. `bio` and `answers` may be absent. */
  datatype Candidate = Candidate(
    deviceId: string,
    nickname: string,
    bio: Option<string>,
    answers: Option<map<string, string>>)

  /** Which signal explains an accepted pair. */
  datatype Strength = StrongPersonalityAlignment | SharedInterests | LowTrafficCompatibility

  /** An accepted pair's total score and its explanation. */
  datatype Match = Match(score: real, strength: Strength)

  function Label(s: Strength): string {
    match s
    case StrongPersonalityAlignment => "Strong Personality Alignment"
    case SharedInterests => "Shared Interests"
    case LowTrafficCompatibility => "Low Traffic Compatibility"
  }

  /** The reason text up to the formatted score (number formatting is not modelled). */
  function ReasonPrefix(s: Strength): string {
    "This recommendation was generated because " + Label(s) + " was detected. Score: "
  }

  /** The reason text names its strength: the classification is recoverable
      from the stored reason. */
  lemma ReasonNamesStrength(s1: Strength, s2: Strength)
    ensures ReasonPrefix(s1) == ReasonPrefix(s2) <==> s1 == s2
  {
    var lead := "This recommendation was generated because ";
    if s1 != s2 {
      var n := |lead|;
      assert ReasonPrefix(s1)[n..n + 2] == Label(s1)[..2];
      assert ReasonPrefix(s2)[n..n + 2] == Label(s2)[..2];
    }
  }

  // ---------------------------------------------------------------- bio tags

  function TagNames(vocab: Vocab): (names: seq<string>)
    ensures |names| == |vocab|
    ensures forall k :: 0 <= k < |vocab| ==> names[k] == vocab[k].0
  {
    if vocab == [] then [] else [vocab[0].0] + TagNames(vocab[1..])
  }

  /** `r` is `s` with some elements left out, order kept. */
  predicate IsSubsequence(r: seq<string>, s: seq<string>)
    decreases |s|
  {
    r == [] || (s != [] && if r[0] == s[0] then IsSubsequence(r[1..], s[1..]) else IsSubsequence(r, s[1..]))
  }

  lemma {:induction false} SubsequenceDropHead(r: seq<string>, s: seq<string>)
    requires IsSubsequence(r, s) && r != []
    ensures IsSubsequence(r[1..], s)
    decreases |s|, |r|
  {
    if r[1..] != [] {
      if r[0] == s[0] {
        SubsequenceOfTail(r[1..], s);
      } else {
        SubsequenceDropHead(r, s[1..]);
        SubsequenceOfTail(r[1..], s);
      }
    }
  }

  /** A subsequence of the tail is a subsequence of the whole. */
  lemma {:induction false} SubsequenceOfTail(r: seq<string>, s: seq<string>)
    requires s != [] && IsSubsequence(r, s[1..])
    ensures IsSubsequence(r, s)
    decreases |s|, |r|
  {
    if r != [] && r[0] == s[0] {
      SubsequenceDropHead(r, s[1..]);
    }
  }

  /** `keywords.some(kw => text.includes(kw))`. */
  function AnyKeyword(text: string, keywords: seq<string>): (b: bool)
    ensures b <==> exists k :: 0 <= k < |keywords| && Includes(text, keywords[k])
  {
    if keywords == [] then false
    else Includes(text, keywords[0]) || AnyKeyword(text, keywords[1..])
  }

  /** Every tag whose keywords occur in `text`, in vocabulary order. */
  function MatchingTags(vocab: Vocab, text: string): (r: seq<string>)
    ensures IsSubsequence(r, TagNames(vocab))
    ensures forall t :: t in r ==> exists k :: 0 <= k < |vocab| && vocab[k].0 == t && AnyKeyword(text, vocab[k].1)
    ensures forall k :: 0 <= k < |vocab| && AnyKeyword(text, vocab[k].1) ==> vocab[k].0 in r
  {
    if vocab == [] then []
    else
      var rest := MatchingTags(vocab[1..], text);
      assert TagNames(vocab) == [vocab[0].0] + TagNames(vocab[1..]);
      assert forall k :: 1 <= k < |vocab| ==> vocab[k] == vocab[1..][k - 1];
      if AnyKeyword(text, vocab[0].1) then [vocab[0].0] + rest
      else SubsequenceOfTail(rest, TagNames(vocab)); rest
  }

  lemma {:induction false} PrefixOfSubsequence(r: seq<string>, s: seq<string>, n: nat)
    requires IsSubsequence(r, s) && n <= |r|
    ensures IsSubsequence(r[..n], s)
    decreases |s|
  {
    if n > 0 {
      if r[0] == s[0] {
        PrefixOfSubsequence(r[1..], s[1..], n - 1);
        assert r[..n][1..] == r[1..][..n - 1];
      } else {
        PrefixOfSubsequence(r, s[1..], n);
      }
    }
  }

  lemma {:induction false} SubsequenceOfDistinct(r: seq<string>, s: seq<string>)
    requires IsSubsequence(r, s) && Distinct(s)
    ensures Distinct(r) && forall t :: t in r ==> t in s
    decreases |s|
  {
    if r != [] {
      assert Distinct(s[1..]);
      if r[0] == s[0] {
        SubsequenceOfDistinct(r[1..], s[1..]);
        assert r == [r[0]] + r[1..];
        assert r[0] !in s[1..];
      } else {
        SubsequenceOfDistinct(r, s[1..]);
      }
    }
  }

  lemma VocabNamesDistinct()
    ensures Distinct(TagNames(BIO_VOCAB))
  {
    var names := TagNames(BIO_VOCAB);
    assert names == ["playful", "deep", "chill", "energetic", "listener", "curious"];
  }

  /** `extractBioTags`: no tags for a missing or empty bio; otherwise the first two
      vocabulary tags whose keywords occur in the lower-cased bio. */
  function ExtractBioTags(bio: Option<string>): (r: seq<string>)
    ensures bio.None? || bio == Some("") ==> r == []
    ensures |r| <= 2
    ensures IsSubsequence(r, TagNames(BIO_VOCAB))
    ensures Distinct(r)
    ensures bio.Some? && bio.value != "" ==>
      var all := MatchingTags(BIO_VOCAB, ToLower(bio.value));
      |r| == (if |all| < 2 then |all| else 2) && r == all[..|r|]
  {
    if !TruthyString(bio) then []
    else
      var all := MatchingTags(BIO_VOCAB, ToLower(bio.value));
      var n := if |all| < 2 then |all| else 2;
      PrefixOfSubsequence(all, TagNames(BIO_VOCAB), n);
      VocabNamesDistinct();
      SubsequenceOfDistinct(all[..n], TagNames(BIO_VOCAB));
      all[..n]
  }

  /** A tag is extracted when its keywords occur and fewer than two earlier tags matched. */
  lemma ExtractedTagsAreVocabularyMatches(bio: string, t: string)
    requires t in ExtractBioTags(Some(bio))
    ensures exists k :: 0 <= k < |BIO_VOCAB| && BIO_VOCAB[k].0 == t && AnyKeyword(ToLower(bio), BIO_VOCAB[k].1)
  {
    var all := MatchingTags(BIO_VOCAB, ToLower(bio));
    assert t in all;
  }

  // ---------------------------------------------------------------- score parts

  /** A JavaScript property read: a missing answer reads as `undefined` (None). */
  function Answer(m: map<string, string>, q: string): Option<string> {
    if q in m then Some(m[q]) else None
  }

  /** Number of slots among `qs` whose answers are strictly equal
      (two missing answers are equal, as `undefined === undefined`). */
  function ExactMatches(a: map<string, string>, b: map<string, string>, qs: seq<string>): (n: nat)
    ensures n <= |qs|
    ensures n == |qs| <==> forall k :: 0 <= k < |qs| ==> Answer(a, qs[k]) == Answer(b, qs[k])
    ensures n == 0 <==> forall k :: 0 <= k < |qs| ==> Answer(a, qs[k]) != Answer(b, qs[k])
  {
    if qs == [] then 0
    else
      var rest := ExactMatches(a, b, qs[1..]);
      assert forall k :: 1 <= k < |qs| ==> qs[k] == qs[1..][k - 1];
      (if Answer(a, qs[0]) == Answer(b, qs[0]) then 1 else 0) + rest
  }

  function QuestionPoints(a: map<string, string>, b: map<string, string>): real {
    ExactMatches(a, b, QUESTION_IDS) as real * WEIGHT_QUESTION
  }

  /** Question points are 2.0 per equal slot of q1..q4. */
  lemma QuestionPointsValues(a: map<string, string>, b: map<string, string>)
    ensures QuestionPoints(a, b) in {0.0, 2.0, 4.0, 6.0, 8.0}
    ensures QuestionPoints(a, b) == 8.0 <==> forall k :: 0 <= k < 4 ==> Answer(a, QUESTION_IDS[k]) == Answer(b, QUESTION_IDS[k])
  {
    var n := ExactMatches(a, b, QUESTION_IDS);
    assert n <= 4;
  }

  /** `tagsA.filter(tag => tagsB.includes(tag)).length`. */
  function SharedCount(tagsA: seq<string>, tagsB: seq<string>): (n: nat)
    ensures n <= |tagsA|
  {
    if tagsA == [] then 0
    else (if tagsA[0] in tagsB then 1 else 0) + SharedCount(tagsA[1..], tagsB)
  }

  /** For tag lists without repeats, the shared count is the size of the intersection. */
  lemma {:induction false} SharedCountIsIntersection(tagsA: seq<string>, tagsB: seq<string>)
    requires Distinct(tagsA)
    ensures SharedCount(tagsA, tagsB) == |ToSet(tagsA) * ToSet(tagsB)|
  {
    if tagsA != [] {
      var x, rest := tagsA[0], tagsA[1..];
      assert Distinct(rest);
      SharedCountIsIntersection(rest, tagsB);
      assert x !in rest;
      var inter := ToSet(tagsA) * ToSet(tagsB);
      var interRest := ToSet(rest) * ToSet(tagsB);
      if x in tagsB {
        assert inter == interRest + {x};
        assert x !in interRest;
      } else {
        assert inter == interRest;
      }
    }
  }

  function BioPoints(a: Candidate, b: Candidate): real {
    SharedCount(ExtractBioTags(a.bio), ExtractBioTags(b.bio)) as real * WEIGHT_BIO
  }

  /** Bio points are 1.5 per tag both users have, hence at most 3.0. */
  lemma BioPointsBound(a: Candidate, b: Candidate)
    ensures BioPoints(a, b) == 1.5 * |ToSet(ExtractBioTags(a.bio)) * ToSet(ExtractBioTags(b.bio))| as real
    ensures 0.0 <= BioPoints(a, b) <= 3.0
  {
    SharedCountIsIntersection(ExtractBioTags(a.bio), ExtractBioTags(b.bio));
  }

  /** Waiting-time bonus computed from B's join time only. */
  function FairnessPoints(now: real, joinTimeB: real): (r: real)
    ensures r >= 0.0
    ensures r == 0.0 <==> now <= joinTimeB
    ensures now >= joinTimeB ==> r == (now - joinTimeB) * WEIGHT_FAIRNESS
  {
    (if now - joinTimeB > 0.0 then now - joinTimeB else 0.0) * WEIGHT_FAIRNESS
  }

  /** Minimum acceptable total, rising with congestion. */
  function Threshold(queueSize: int): real {
    if queueSize >= 10 then 6.0 else if queueSize >= 4 then 3.5 else 0.5
  }

  lemma ThresholdMonotone(n: int, m: int)
    requires n <= m
    ensures Threshold(n) <= Threshold(m)
  {
  }

  function Classify(questionPoints: real, bioPoints: real): Strength {
    if questionPoints >= 4.0 then StrongPersonalityAlignment
    else if bioPoints >= 1.5 then SharedInterests
    else LowTrafficCompatibility
  }

  function Total(a: Candidate, b: Candidate, now: real, joinTimeB: real): real
    requires a.answers.Some? && b.answers.Some?
  {
    QuestionPoints(a.answers.value, b.answers.value) + BioPoints(a, b) + FairnessPoints(now, joinTimeB)
  }

  /** `calculateMatchScore`. Reading the answers of a user without a `personalityAnswers`
      object throws; otherwise the pair is rejected exactly when the total is below the
      threshold for the queue size, and an accepted pair carries its total and reason. */
  function Score(a: Candidate, b: Candidate, now: real, joinTimeB: real, queueSize: int): (r: Outcome<Option<Match>>)
    ensures r.Threw? <==> a.answers.None? || b.answers.None?
    ensures r.Returned? ==> (r.value.None? <==> Total(a, b, now, joinTimeB) < Threshold(queueSize))
    ensures r.Returned? && r.value.Some? ==>
      r.value.value.score == Total(a, b, now, joinTimeB) && r.value.value.score >= Threshold(queueSize)
      && r.value.value.strength == Classify(QuestionPoints(a.answers.value, b.answers.value), BioPoints(a, b))
  {
    if a.answers.None? || b.answers.None? then Threw
    else
      var q := QuestionPoints(a.answers.value, b.answers.value);
      var bio := BioPoints(a, b);
      var total := q + bio + FairnessPoints(now, joinTimeB);
      if total < Threshold(queueSize) then Returned(None)
      else Returned(Some(Match(total, Classify(q, bio))))
  }

  /** Every accepted score is non-negative and at least 0.5. */
  lemma AcceptedScoreBounds(a: Candidate, b: Candidate, now: real, joinTimeB: real, queueSize: int)
    requires Score(a, b, now, joinTimeB, queueSize).Returned?
    requires Score(a, b, now, joinTimeB, queueSize).value.Some?
    ensures 0.5 <= Score(a, b, now, joinTimeB, queueSize).value.value.score
    ensures Score(a, b, now, joinTimeB, queueSize).value.value.score <= 11.0 + FairnessPoints(now, joinTimeB)
  {
    TotalBound(a, b, now, joinTimeB);
  }

  /** Questions give at most 8.0 and bios at most 3.0. */
  lemma TotalBound(a: Candidate, b: Candidate, now: real, joinTimeB: real)
    requires a.answers.Some? && b.answers.Some?
    ensures Total(a, b, now, joinTimeB) <= 11.0 + FairnessPoints(now, joinTimeB)
  {
    QuestionPointsValues(a.answers.value, b.answers.value);
    BioPointsBound(a, b);
  }

  /** A classified strength tells which threshold its signal passed. */
  lemma ClassifyMeaning(q: real, bio: real)
    ensures Classify(q, bio) == StrongPersonalityAlignment <==> q >= 4.0
    ensures Classify(q, bio) == SharedInterests <==> q < 4.0 && bio >= 1.5
    ensures Classify(q, bio) == LowTrafficCompatibility <==> q < 4.0 && bio < 1.5
  {
  }

  /** An accepted pair carries its total and the strength of its parts. */
  lemma ScoreAccepted(a: Candidate, b: Candidate, now: real, joinTimeB: real, queueSize: int)
    requires a.answers.Some? && b.answers.Some?
    requires Total(a, b, now, joinTimeB) >= Threshold(queueSize)
    ensures Score(a, b, now, joinTimeB, queueSize)
      == Returned(Some(Match(Total(a, b, now, joinTimeB), Classify(QuestionPoints(a.answers.value, b.answers.value), BioPoints(a, b)))))
  {
  }

  /** Two users without bios and with the same answer sheet, in a queue of
      one: 8.0, strong personality alignment. */
  lemma ExampleFullAgreement(now: real, answers: map<string, string>)
    ensures var a := Candidate("dev-a", "Ann", None, Some(answers));
            var b := Candidate("dev-b", "Bob", None, Some(answers));
            Score(a, b, now, now, 1) == Returned(Some(Match(8.0, StrongPersonalityAlignment)))
  {
    var a := Candidate("dev-a", "Ann", None, Some(answers));
    var b := Candidate("dev-b", "Bob", None, Some(answers));
    assert QuestionPoints(answers, answers) == 8.0 by {
      assert ExactMatches(answers, answers, QUESTION_IDS) == 4;
    }
    assert BioPoints(a, b) == 0.0;
    assert Total(a, b, now, now) == 8.0;
    ScoreAccepted(a, b, now, now, 1);
  }

  /** Two users without bios who disagree on every question, in a queue of
      twelve (threshold 6.0), B having waited 200 seconds: 10.0, low traffic
      compatibility. */
  lemma ExampleLongWait(now: real, answersA: map<string, string>, answersB: map<string, string>)
    requires forall k :: 0 <= k < |QUESTION_IDS| ==> Answer(answersA, QUESTION_IDS[k]) != Answer(answersB, QUESTION_IDS[k])
    ensures var a := Candidate("dev-a", "Ann", None, Some(answersA));
            var b := Candidate("dev-b", "Bob", None, Some(answersB));
            Score(a, b, now, now - 200.0, 12) == Returned(Some(Match(10.0, LowTrafficCompatibility)))
  {
    var a := Candidate("dev-a", "Ann", None, Some(answersA));
    var b := Candidate("dev-b", "Bob", None, Some(answersB));
    assert QuestionPoints(answersA, answersB) == 0.0 by {
      assert ExactMatches(answersA, answersB, QUESTION_IDS) == 0;
    }
    assert BioPoints(a, b) == 0.0;
    assert FairnessPoints(now, now - 200.0) == 10.0 by {
      assert now - (now - 200.0) == 200.0;
    }
    assert Total(a, b, now, now - 200.0) == 10.0;
    ScoreAccepted(a, b, now, now - 200.0, 12);
  }
}
