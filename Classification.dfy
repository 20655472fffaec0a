/**
 * Incident classification (src/pages/emergency-call-interface/components/
 * IncidentClassification.jsx): the detected keywords are scored against four
 * fixed categories, the best category is committed when its score is above
 * 0.7, and a severity is derived from critical phrases and the score.
 */
module Classification {
  import opened Text

  datatype CategoryId = Cardiac | Accident | Stroke | Other

  datatype Severity = Critical | Moderate | Stable

  /** One row of the category table: its id and its trigger phrases. */
  datatype Category = Category(id: CategoryId, keywords: seq<string>)

  /** One element of the `detectedKeywords` prop. */
  datatype DetectedKeyword = DetectedKeyword(word: string, confidence: real, severity: string)

  /** What the component reports upward through `onClassificationChange`. */
  datatype Classification = Classification(category: Option<CategoryId>, severity: Severity, confidence: real)

  /** The result of one automatic classification that commits a category. */
  datatype Outcome = Outcome(category: CategoryId, confidence: real, severity: Severity)

  /** The running maximum of the auto-classify loop: the index of the best category so far and its score. */
  datatype Best = Best(index: Option<nat>, score: real)

  const CardiacPhrases: seq<string> := ["chest pain", "heart attack", "cardiac arrest", "palpitations", "shortness of breath"]
  const AccidentPhrases: seq<string> := ["accident", "crash", "bleeding", "broken", "injured", "trauma"]
  const StrokePhrases: seq<string> := ["stroke", "seizure", "unconscious", "paralysis", "speech problems"]
  const OtherPhrases: seq<string> := ["emergency", "help", "urgent", "critical"]

  const Categories: seq<Category> := [
    Category(Cardiac, CardiacPhrases),
    Category(Accident, AccidentPhrases),
    Category(Stroke, StrokePhrases),
    Category(Other, OtherPhrases)
  ]

  const CriticalKeywords: seq<string> := ["cardiac arrest", "unconscious", "not breathing", "severe bleeding"]

  const CommitThreshold: real := 0.7
  const CriticalScore: real := 0.95
  const ModerateScore: real := 0.85

  /** The lowered `word` of `k` contains the lowered `phrases[i]`. */
  predicate Mentions(k: DetectedKeyword, phrases: seq<string>, i: nat)
    requires i < |phrases|
  {
    Contains(Lower(k.word), Lower(phrases[i]))
  }

  /** `phrases.some(p => k.word.toLowerCase().includes(p.toLowerCase()))` */
  predicate MentionsAny(k: DetectedKeyword, phrases: seq<string>)
  {
    exists i: nat :: i < |phrases| && Mentions(k, phrases, i)
  }

  /** `detected.filter(d => MentionsAny(d, c.keywords))`, in the order of `detected`. */
  function MatchingKeywords(detected: seq<DetectedKeyword>, c: Category): (r: seq<DetectedKeyword>)
    ensures |r| <= |detected|
    ensures forall k :: k in r <==> k in detected && MentionsAny(k, c.keywords)
  {
    if detected == [] then []
    else
      var rest := MatchingKeywords(detected[1..], c);
      if MentionsAny(detected[0], c.keywords) then [detected[0]] + rest else rest
  }

  /** The sum of the confidences, as `reduce((sum, kw) => sum + kw.confidence, 0)` computes it. */
  function SumConfidence(ks: seq<DetectedKeyword>): real
  {
    if ks == [] then 0.0 else ks[0].confidence + SumConfidence(ks[1..])
  }

  /** Every confidence lies in [0, 1]. */
  predicate ConfidencesInUnitRange(ks: seq<DetectedKeyword>)
  {
    forall k :: k in ks ==> 0.0 <= k.confidence <= 1.0
  }

  /** The score of category `c`: the mean confidence of its matching keywords, if any. */
  function Score(detected: seq<DetectedKeyword>, c: Category): Option<real>
  {
    var m := MatchingKeywords(detected, c);
    if |m| > 0 then Some(SumConfidence(m) / (|m| as real)) else None
  }

  /** The state of the `forEach` over the first `n` categories. */
  function BestUpTo(detected: seq<DetectedKeyword>, n: nat): (r: Best)
    requires n <= |Categories|
    ensures r.index.Some? ==> r.index.value < n
  {
    if n == 0 then Best(None, 0.0)
    else
      var b := BestUpTo(detected, n - 1);
      var s := Score(detected, Categories[n - 1]);
      if s.Some? && s.value > b.score then Best(Some(n - 1), s.value) else b
  }

  /** Some detected word contains one of the critical phrases. */
  predicate HasCriticalKeyword(detected: seq<DetectedKeyword>)
  {
    exists k :: k in detected && MentionsAny(k, CriticalKeywords)
  }

  /** The severity the effect assigns once a category is committed with `score`. */
  function SeverityFor(detected: seq<DetectedKeyword>, score: real): Severity
  {
    if HasCriticalKeyword(detected) || score > CriticalScore then Critical
    else if score > ModerateScore then Moderate
    else Stable
  }

  /** What the auto-classify effect commits for `detected`, or `None` when it leaves the state alone. */
  function Classify(detected: seq<DetectedKeyword>): Option<Outcome>
  {
    if |detected| == 0 then None
    else
      var b := BestUpTo(detected, |Categories|);
      if b.index.Some? && b.score > CommitThreshold then
        Some(Outcome(Categories[b.index.value].id, b.score, SeverityFor(detected, b.score)))
      else None
  }

  /**
   * The reference definition of the winner: category `i` has a positive score,
   * no category scores higher, and every earlier category scores strictly lower.
   */
  predicate IsEarliestBest(detected: seq<DetectedKeyword>, i: nat)
  {
    && i < |Categories|
    && var si := Score(detected, Categories[i]);
    && si.Some? && si.value > 0.0
    && (forall j :: 0 <= j < |Categories| && Score(detected, Categories[j]).Some? ==>
          Score(detected, Categories[j]).value <= si.value)
    && (forall j :: 0 <= j < i && Score(detected, Categories[j]).Some? ==>
          Score(detected, Categories[j]).value < si.value)
  }

  // ---------------------------------------------------------------------------
  // Lemmas

  /** The running maximum of the loop after `n` categories. */
  lemma {:induction false} BestUpToIsRunningMaximum(detected: seq<DetectedKeyword>, n: nat)
    requires n <= |Categories|
    ensures var b := BestUpTo(detected, n);
      && b.score >= 0.0
      && (forall j :: 0 <= j < n && Score(detected, Categories[j]).Some? ==>
            Score(detected, Categories[j]).value <= b.score)
      && (b.index.None? ==> b.score == 0.0)
      && (b.index.Some? ==>
            && b.index.value < n
            && Score(detected, Categories[b.index.value]) == Some(b.score)
            && b.score > 0.0
            && forall j :: 0 <= j < b.index.value && Score(detected, Categories[j]).Some? ==>
                 Score(detected, Categories[j]).value < b.score)
  {
    if n > 0 {
      BestUpToIsRunningMaximum(detected, n - 1);
    }
  }

  /** The loop picks exactly the earliest category with the highest positive score. */
  lemma BestIsEarliestBest(detected: seq<DetectedKeyword>, i: nat)
    ensures BestUpTo(detected, |Categories|).index == Some(i) <==> IsEarliestBest(detected, i)
  {
    BestUpToIsRunningMaximum(detected, |Categories|);
  }

  /** Of two categories with equal scores, the later one is never chosen. */
  lemma TieGoesToEarlierCategory(detected: seq<DetectedKeyword>, i: nat, j: nat)
    requires i < j < |Categories|
    requires Score(detected, Categories[i]).Some?
    requires Score(detected, Categories[i]) == Score(detected, Categories[j])
    ensures BestUpTo(detected, |Categories|).index != Some(j)
  {
    BestIsEarliestBest(detected, j);
  }

  /** A keyword counts for a category exactly when its lowered word contains one of the category's lowered phrases. */
  lemma MatchingIsFilter(detected: seq<DetectedKeyword>, c: Category, k: DetectedKeyword)
    ensures k in MatchingKeywords(detected, c) <==>
            k in detected && exists i: nat :: i < |c.keywords| && Contains(Lower(k.word), Lower(c.keywords[i]))
  {
    if k in MatchingKeywords(detected, c) {
      assert MentionsAny(k, c.keywords);
      var i: nat :| i < |c.keywords| && Mentions(k, c.keywords, i);
    } else if k in detected && exists i: nat :: i < |c.keywords| && Contains(Lower(k.word), Lower(c.keywords[i])) {
      var i: nat :| i < |c.keywords| && Contains(Lower(k.word), Lower(c.keywords[i]));
      assert Mentions(k, c.keywords, i);
    }
  }

  lemma {:induction false} SumConfidenceBounds(ks: seq<DetectedKeyword>)
    requires ConfidencesInUnitRange(ks)
    ensures 0.0 <= SumConfidence(ks) <= |ks| as real
  {
    if ks != [] {
      assert ConfidencesInUnitRange(ks[1..]) by {
        forall k | k in ks[1..] ensures 0.0 <= k.confidence <= 1.0 {
          assert k in ks;
        }
      }
      SumConfidenceBounds(ks[1..]);
      assert ks[0] in ks;
    }
  }

  lemma MatchingKeepsRange(detected: seq<DetectedKeyword>, c: Category)
    requires ConfidencesInUnitRange(detected)
    ensures ConfidencesInUnitRange(MatchingKeywords(detected, c))
  {
  }

  /** A category's score is a mean of unit-range confidences, so it lies in [0, 1]. */
  lemma ScoreInUnitRange(detected: seq<DetectedKeyword>, c: Category)
    requires ConfidencesInUnitRange(detected)
    requires Score(detected, c).Some?
    ensures 0.0 <= Score(detected, c).value <= 1.0
  {
    var m := MatchingKeywords(detected, c);
    MatchingKeepsRange(detected, c);
    SumConfidenceBounds(m);
    MeanInUnitRange(SumConfidence(m), |m| as real);
  }

  /** A sum between 0 and `n`, divided by `n`, lies in [0, 1]. */
  lemma MeanInUnitRange(sum: real, n: real)
    requires 0.0 < n && 0.0 <= sum <= n
    ensures 0.0 <= sum / n <= 1.0
  {
    var q := sum / n;
    assert q * n == sum;
    assert (1.0 - q) * n == n - sum;
  }

  /** An empty keyword list never commits anything (the effect returns early). */
  lemma EmptyKeywordsCommitNothing()
    ensures Classify([]) == None
  {
  }

  /**
   * A committed category is the earliest best one, with confidence equal to its
   * score, above 0.7; when confidences lie in [0, 1] the confidence is at most 1.
   */
  lemma CommittedOutcome(detected: seq<DetectedKeyword>)
    requires Classify(detected).Some?
    ensures var o := Classify(detected).value;
      && o.confidence > CommitThreshold
      && (exists i: nat :: IsEarliestBest(detected, i) && Categories[i].id == o.category &&
                      Score(detected, Categories[i]) == Some(o.confidence))
      && (ConfidencesInUnitRange(detected) ==> o.confidence <= 1.0)
  {
    var b := BestUpTo(detected, |Categories|);
    BestUpToIsRunningMaximum(detected, |Categories|);
    var i := b.index.value;
    BestIsEarliestBest(detected, i);
    if ConfidencesInUnitRange(detected) {
      ScoreInUnitRange(detected, Categories[i]);
    }
  }

  /** Nothing is committed when no category scores above 0.7. */
  lemma NoCommitBelowThreshold(detected: seq<DetectedKeyword>)
    requires forall j :: 0 <= j < |Categories| && Score(detected, Categories[j]).Some? ==>
               Score(detected, Categories[j]).value <= CommitThreshold
    ensures Classify(detected) == None
  {
    BestUpToIsRunningMaximum(detected, |Categories|);
  }

  /** A category is committed whenever some category scores above 0.7. */
  lemma CommitAboveThreshold(detected: seq<DetectedKeyword>, j: nat)
    requires j < |Categories|
    requires Score(detected, Categories[j]).Some? && Score(detected, Categories[j]).value > CommitThreshold
    ensures Classify(detected).Some?
  {
    BestUpToIsRunningMaximum(detected, |Categories|);
  }

  /**
   * The severity rule: critical whenever any detected word (of any category)
   * holds a critical phrase or the score is above 0.95; otherwise moderate
   * above 0.85; otherwise stable.
   */
  lemma SeverityRule(detected: seq<DetectedKeyword>)
    requires Classify(detected).Some?
    ensures var o := Classify(detected).value;
      && (o.severity == Critical <==> HasCriticalKeyword(detected) || o.confidence > CriticalScore)
      && (o.severity == Moderate <==> !HasCriticalKeyword(detected) && ModerateScore < o.confidence <= CriticalScore)
      && (o.severity == Stable <==> !HasCriticalKeyword(detected) && o.confidence <= ModerateScore)
  {
  }

  /** A higher score never yields a lower severity. */
  lemma SeverityMonotoneInScore(detected: seq<DetectedKeyword>, s1: real, s2: real)
    requires s1 <= s2
    ensures SeverityFor(detected, s1) == Critical ==> SeverityFor(detected, s2) == Critical
    ensures SeverityFor(detected, s1) == Moderate ==> SeverityFor(detected, s2) != Stable
  {
  }

  // ---------------------------------------------------------------------------
  // The component state

  class IncidentClassifier {
    var selectedCategory: Option<CategoryId>
    var severity: Severity
    var confidence: real

    /** The initial state: no category, `moderate`, confidence 0. */
    constructor ()
      ensures selectedCategory == None && severity == Moderate && confidence == 0.0
    {
      selectedCategory := None;
      severity := Moderate;
      confidence := 0.0;
    }

    /** The object passed to `onClassificationChange`. */
    function Current(): Classification
      reads this
    {
      Classification(selectedCategory, severity, confidence)
    }

    /** The auto-classify effect, run when `detectedKeywords` changes. */
    method AutoClassify(detected: seq<DetectedKeyword>)
      modifies this
      ensures Classify(detected).None? ==>
                selectedCategory == old(selectedCategory) && severity == old(severity) && confidence == old(confidence)
      ensures Classify(detected).Some? ==>
                var o := Classify(detected).value;
                selectedCategory == Some(o.category) && confidence == o.confidence && severity == o.severity
    {
      if |detected| == 0 {
        return;
      }
      var bestMatch: Option<nat> := None;
      var highestScore := 0.0;
      for i := 0 to |Categories|
        invariant Best(bestMatch, highestScore) == BestUpTo(detected, i)
      {
        var matching := MatchingKeywords(detected, Categories[i]);
        if |matching| > 0 {
          var score := SumConfidence(matching) / (|matching| as real);
          if score > highestScore {
            highestScore := score;
            bestMatch := Some(i);
          }
        }
      }
      if bestMatch.Some? && highestScore > CommitThreshold {
        selectedCategory := Some(Categories[bestMatch.value].id);
        confidence := highestScore;
        var hasCritical := exists k :: k in detected && MentionsAny(k, CriticalKeywords);
        if hasCritical || highestScore > CriticalScore {
          severity := Critical;
        } else if highestScore > ModerateScore {
          severity := Moderate;
        } else {
          severity := Stable;
        }
      }
    }

    /** `handleCategorySelect`: a manual pick pins the confidence to 1.0 and keeps the severity. */
    method SelectCategory(id: CategoryId)
      modifies this
      ensures selectedCategory == Some(id) && confidence == 1.0 && severity == old(severity)
    {
      selectedCategory := Some(id);
      confidence := 1.0;
    }

    /** The severity buttons call `setSeverity` directly. */
    method SelectSeverity(level: Severity)
      modifies this
      ensures severity == level
      ensures selectedCategory == old(selectedCategory) && confidence == old(confidence)
    {
      severity := level;
    }
  }
}
