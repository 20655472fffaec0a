/**
 * The keyword list the emergency call page starts with
 * (src/pages/emergency-call-interface/index.jsx) and what the classifier
 * makes of it: only "chest pain" matches a category phrase, so cardiac wins
 * with its confidence 0.98, which is also above the critical score.
 */
module ClassificationFixture {
  import opened Text
  import opened Classification

  const CallKeywords: seq<DetectedKeyword> := [
    DetectedKeyword("chest pain", 0.98, "high"),
    DetectedKeyword("can't breathe", 0.95, "high"),
    DetectedKeyword("pale", 0.92, "medium"),
    DetectedKeyword("sweating", 0.89, "medium")
  ]

  /**
   * A word mentions none of the phrases when each phrase `ps[i]` has a
   * character, at index `at[i]`, that the word lacks (ignoring case).
   */
  lemma NoMentionByAbsentChars(k: DetectedKeyword, ps: seq<string>, at: seq<nat>)
    requires |at| == |ps|
    requires forall i :: 0 <= i < |ps| ==> at[i] < |ps[i]|
    requires forall i, j :: 0 <= i < |ps| && 0 <= j < |k.word| ==> LowerChar(k.word[j]) != LowerChar(ps[i][at[i]])
    ensures !MentionsAny(k, ps)
  {
    forall i: nat | i < |ps|
      ensures !Mentions(k, ps, i)
    {
      NotContainsWithoutChar(Lower(k.word), Lower(ps[i]), at[i]);
    }
  }

  lemma ChestPainMentionsAccidentNothing()
    ensures !MentionsAny(CallKeywords[0], AccidentPhrases)
  {
    NoMentionByAbsentChars(CallKeywords[0], AccidentPhrases, [4, 1, 0, 0, 2, 1]);
  }

  lemma ChestPainMentionsStrokeNothing()
    ensures !MentionsAny(CallKeywords[0], StrokePhrases)
  {
    NoMentionByAbsentChars(CallKeywords[0], StrokePhrases, [2, 3, 0, 2, 8]);
  }

  lemma ChestPainMentionsOtherNothing()
    ensures !MentionsAny(CallKeywords[0], OtherPhrases)
  {
    NoMentionByAbsentChars(CallKeywords[0], OtherPhrases, [1, 2, 0, 1]);
  }

  lemma CantBreatheMentionsCardiacNothing()
    ensures !MentionsAny(CallKeywords[1], CardiacPhrases)
  {
    NoMentionByAbsentChars(CallKeywords[1], CardiacPhrases, [3, 11, 3, 0, 0]);
  }

  lemma CantBreatheMentionsAccidentNothing()
    ensures !MentionsAny(CallKeywords[1], AccidentPhrases)
  {
    NoMentionByAbsentChars(CallKeywords[1], AccidentPhrases, [3, 3, 1, 2, 0, 3]);
  }

  lemma CantBreatheMentionsStrokeNothing()
    ensures !MentionsAny(CallKeywords[1], StrokePhrases)
  {
    NoMentionByAbsentChars(CallKeywords[1], StrokePhrases, [0, 0, 0, 0, 0]);
  }

  lemma CantBreatheMentionsOtherNothing()
    ensures !MentionsAny(CallKeywords[1], OtherPhrases)
  {
    NoMentionByAbsentChars(CallKeywords[1], OtherPhrases, [1, 2, 0, 2]);
  }

  lemma PaleMentionsCardiacNothing()
    ensures !MentionsAny(CallKeywords[2], CardiacPhrases)
  {
    NoMentionByAbsentChars(CallKeywords[2], CardiacPhrases, [0, 0, 0, 4, 0]);
  }

  lemma PaleMentionsAccidentNothing()
    ensures !MentionsAny(CallKeywords[2], AccidentPhrases)
  {
    NoMentionByAbsentChars(CallKeywords[2], AccidentPhrases, [1, 0, 0, 0, 0, 0]);
  }

  lemma PaleMentionsStrokeNothing()
    ensures !MentionsAny(CallKeywords[2], StrokePhrases)
  {
    NoMentionByAbsentChars(CallKeywords[2], StrokePhrases, [0, 0, 0, 2, 0]);
  }

  lemma PaleMentionsOtherNothing()
    ensures !MentionsAny(CallKeywords[2], OtherPhrases)
  {
    NoMentionByAbsentChars(CallKeywords[2], OtherPhrases, [1, 0, 0, 0]);
  }

  lemma SweatingMentionsCardiacNothing()
    ensures !MentionsAny(CallKeywords[3], CardiacPhrases)
  {
    NoMentionByAbsentChars(CallKeywords[3], CardiacPhrases, [0, 0, 0, 0, 1]);
  }

  lemma SweatingMentionsAccidentNothing()
    ensures !MentionsAny(CallKeywords[3], AccidentPhrases)
  {
    NoMentionByAbsentChars(CallKeywords[3], AccidentPhrases, [1, 0, 0, 0, 2, 1]);
  }

  lemma SweatingMentionsStrokeNothing()
    ensures !MentionsAny(CallKeywords[3], StrokePhrases)
  {
    NoMentionByAbsentChars(CallKeywords[3], StrokePhrases, [2, 3, 0, 0, 1]);
  }

  lemma SweatingMentionsOtherNothing()
    ensures !MentionsAny(CallKeywords[3], OtherPhrases)
  {
    NoMentionByAbsentChars(CallKeywords[3], OtherPhrases, [1, 0, 0, 0]);
  }

  lemma ChestPainMentionsCardiac()
    ensures Mentions(CallKeywords[0], CardiacPhrases, 0)
  {
    ContainsSelf(Lower("chest pain"));
  }

  /** A keyword that mentions nothing of `c` is skipped by the filter. */
  lemma SkipsUnmentioned(ks: seq<DetectedKeyword>, c: Category)
    requires ks != [] && !MentionsAny(ks[0], c.keywords)
    ensures MatchingKeywords(ks, c) == MatchingKeywords(ks[1..], c)
  {
  }

  /** When the last three keywords mention nothing of `c`, none of them matches it. */
  lemma TailMatchesNothing(c: Category)
    requires forall i :: 1 <= i < |CallKeywords| ==> !MentionsAny(CallKeywords[i], c.keywords)
    ensures MatchingKeywords(CallKeywords[1..], c) == []
  {
    SkipsUnmentioned(CallKeywords[1..], c);
    assert CallKeywords[1..][1..] == CallKeywords[2..];
    SkipsUnmentioned(CallKeywords[2..], c);
    assert CallKeywords[2..][1..] == CallKeywords[3..];
    SkipsUnmentioned(CallKeywords[3..], c);
    assert CallKeywords[3..][1..] == [];
  }

  lemma CardiacScore()
    ensures Score(CallKeywords, Categories[0]) == Some(0.98)
  {
    CantBreatheMentionsCardiacNothing();
    PaleMentionsCardiacNothing();
    SweatingMentionsCardiacNothing();
    TailMatchesNothing(Categories[0]);
    ChestPainMentionsCardiac();
    assert MatchingKeywords(CallKeywords, Categories[0]) == [CallKeywords[0]];
  }

  lemma AccidentScoresNothing()
    ensures Score(CallKeywords, Categories[1]) == None
  {
    CantBreatheMentionsAccidentNothing();
    PaleMentionsAccidentNothing();
    SweatingMentionsAccidentNothing();
    TailMatchesNothing(Categories[1]);
    ChestPainMentionsAccidentNothing();
    SkipsUnmentioned(CallKeywords, Categories[1]);
  }

  lemma StrokeScoresNothing()
    ensures Score(CallKeywords, Categories[2]) == None
  {
    CantBreatheMentionsStrokeNothing();
    PaleMentionsStrokeNothing();
    SweatingMentionsStrokeNothing();
    TailMatchesNothing(Categories[2]);
    ChestPainMentionsStrokeNothing();
    SkipsUnmentioned(CallKeywords, Categories[2]);
  }

  lemma OtherScoresNothing()
    ensures Score(CallKeywords, Categories[3]) == None
  {
    CantBreatheMentionsOtherNothing();
    PaleMentionsOtherNothing();
    SweatingMentionsOtherNothing();
    TailMatchesNothing(Categories[3]);
    ChestPainMentionsOtherNothing();
    SkipsUnmentioned(CallKeywords, Categories[3]);
  }

  /** The call's keywords commit cardiac with confidence 0.98 and severity critical. */
  lemma CallKeywordsClassifyAsCriticalCardiac()
    ensures Classify(CallKeywords) == Some(Outcome(Cardiac, 0.98, Critical))
  {
    CardiacScore();
    AccidentScoresNothing();
    StrokeScoresNothing();
    OtherScoresNothing();
    assert BestUpTo(CallKeywords, 1) == Best(Some(0), 0.98);
    assert BestUpTo(CallKeywords, 2) == Best(Some(0), 0.98);
    assert BestUpTo(CallKeywords, 3) == Best(Some(0), 0.98);
    assert BestUpTo(CallKeywords, 4) == Best(Some(0), 0.98);
  }
}
