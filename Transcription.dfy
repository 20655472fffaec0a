/**
 * The live transcription panel
 * (src/pages/emergency-call-interface/components/LiveTranscription.jsx):
 * a text that grows by one mock chunk per timer tick while the call is
 * active, keyword highlighting by global case-insensitive replacement, and
 * the word count shown under the text.
 */
module Transcription {
  import opened Text

  /** The ten lines the interval appends, in order. */
  const Chunks: seq<string> := [
    "Hello, 911, what's your emergency?",
    "My husband is having chest pain and he can't breathe properly.",
    "Okay, I understand. Is he conscious right now?",
    "Yes, but he looks very pale and he's sweating a lot.",
    "Can you tell me your exact location?",
    "We're at 1234 Main Street, apartment 5B in downtown.",
    "I'm dispatching an ambulance to your location right now.",
    "Please stay on the line with me. Is he still conscious?",
    "Yes, he's sitting on the couch but he says the pain is getting worse.",
    "I need you to help him take slow, deep breaths..."
  ]

  const Separator: string := "\n\n"

  /** The text after one tick: the chunk, preceded by a blank line unless the text was empty. */
  function Append(prev: string, chunk: string): (r: string)
    ensures prev <= r
    ensures |r| == |prev| + |chunk| + (if prev == [] then 0 else |Separator|)
  {
    prev + (if prev != [] then Separator else []) + chunk
  }

  /** The text built by appending `cs` one tick at a time to the empty text. */
  function Joined(cs: seq<string>): string
  {
    if cs == [] then [] else Append(Joined(cs[..|cs| - 1]), cs[|cs| - 1])
  }

  /** The reference definition: the chunks separated by blank lines, as `join("\n\n")` would give. */
  function JoinWithBlankLines(cs: seq<string>): string
  {
    if cs == [] then []
    else if |cs| == 1 then cs[0]
    else cs[0] + Separator + JoinWithBlankLines(cs[1..])
  }

  predicate NonEmptyChunks(cs: seq<string>)
  {
    forall i :: 0 <= i < |cs| ==> cs[i] != []
  }

  lemma {:induction false} JoinWithBlankLinesSnoc(cs: seq<string>, c: string)
    requires cs != []
    ensures JoinWithBlankLines(cs + [c]) == JoinWithBlankLines(cs) + Separator + c
    decreases |cs|
  {
    if |cs| == 1 {
      assert cs + [c] == [cs[0], c];
    } else {
      assert (cs + [c])[1..] == cs[1..] + [c];
      JoinWithBlankLinesSnoc(cs[1..], c);
    }
  }

  lemma {:induction false} JoinedNonEmpty(cs: seq<string>)
    requires NonEmptyChunks(cs) && cs != []
    ensures Joined(cs) != []
  {
    assert cs[|cs| - 1] != [];
  }

  /** With non-empty chunks, tick-by-tick appending gives the chunks joined by blank lines. */
  lemma {:induction false} JoinedIsJoinWithBlankLines(cs: seq<string>)
    requires NonEmptyChunks(cs)
    ensures Joined(cs) == JoinWithBlankLines(cs)
    decreases |cs|
  {
    if cs != [] {
      var init := cs[..|cs| - 1];
      assert NonEmptyChunks(init) by {
        forall i | 0 <= i < |init| ensures init[i] != [] {
          assert init[i] == cs[i];
        }
      }
      JoinedIsJoinWithBlankLines(init);
      assert cs == init + [cs[|cs| - 1]];
      if init != [] {
        JoinedNonEmpty(init);
        JoinWithBlankLinesSnoc(init, cs[|cs| - 1]);
      } else {
        assert cs == [cs[0]];
      }
    }
  }

  /** Showing one more chunk of `cs` is one more append. */
  lemma JoinedStep(cs: seq<string>, lo: nat, hi: nat)
    requires lo <= hi < |cs|
    ensures Joined(cs[lo..hi + 1]) == Append(Joined(cs[lo..hi]), cs[hi])
  {
    assert cs[lo..hi + 1][..hi - lo] == cs[lo..hi];
  }

  /** `text` is what appending the chunks `cs[lo..hi]` one tick at a time gives. */
  predicate Shows(text: string, cs: seq<string>, lo: nat, hi: nat)
  {
    lo <= hi <= |cs| && text == Joined(cs[lo..hi])
  }

  /** A tick that appends the next chunk keeps the text showing the chunks from `lo` on. */
  lemma ShowsNext(text: string, cs: seq<string>, lo: nat, hi: nat)
    requires Shows(text, cs, lo, hi) && hi < |cs|
    ensures Shows(Append(text, cs[hi]), cs, lo, hi + 1)
  {
    JoinedStep(cs, lo, hi);
  }

  // ---------------------------------------------------------------------------
  // The text state

  class LiveTranscript {
    var currentText: string
    var isCallActive: bool
    /** The interval's counter: how many chunks this run of the interval has appended. */
    var textIndex: nat
    /** Where the shown text starts in `Chunks`: after the last clear. */
    ghost var shownFrom: nat

    ghost predicate Valid()
      reads this
    {
      && Shows(currentText, Chunks, shownFrom, textIndex)
      && (!isCallActive ==> currentText == [])
    }

    /** Mounting runs the effect once for the initial `isCallActive`. */
    constructor (active: bool)
      ensures Valid()
      ensures currentText == [] && isCallActive == active && textIndex == 0
    {
      currentText := [];
      isCallActive := active;
      textIndex := 0;
      shownFrom := 0;
    }

    /**
     * A new `isCallActive` prop. The effect only reruns when the value changes:
     * going inactive clears the text, going active starts a fresh interval.
     */
    method SetCallActive(active: bool)
      requires Valid()
      modifies this
      ensures Valid()
      ensures isCallActive == active
      ensures active == old(isCallActive) ==> currentText == old(currentText) && textIndex == old(textIndex)
      ensures active != old(isCallActive) && !active ==> currentText == []
      ensures active != old(isCallActive) && active ==> textIndex == 0 && currentText == []
    {
      if active == isCallActive {
        return;
      }
      isCallActive := active;
      if !active {
        currentText := [];
        shownFrom := textIndex;
      } else {
        textIndex := 0;
        shownFrom := 0;
      }
    }

    /** One firing of the interval: the next chunk is appended while there is one. */
    method Tick()
      requires Valid()
      modifies this
      ensures Valid()
      ensures isCallActive == old(isCallActive)
      ensures old(currentText) <= currentText
      ensures isCallActive && old(textIndex) < |Chunks| ==>
                currentText == Append(old(currentText), Chunks[old(textIndex)]) && textIndex == old(textIndex) + 1
      ensures !(isCallActive && old(textIndex) < |Chunks|) ==>
                currentText == old(currentText) && textIndex == old(textIndex)
    {
      if isCallActive && textIndex < |Chunks| {
        ShowsNext(currentText, Chunks, shownFrom, textIndex);
        currentText := Append(currentText, Chunks[textIndex]);
        textIndex := textIndex + 1;
      }
    }

    /** `handleClearTranscription` */
    method Clear()
      requires Valid()
      modifies this
      ensures Valid()
      ensures currentText == [] && isCallActive == old(isCallActive) && textIndex == old(textIndex)
    {
      currentText := [];
      shownFrom := textIndex;
    }
  }

  /** From a fresh activation, `n` ticks show exactly the first `min(n, 10)` chunks joined by blank lines. */
  lemma TicksShowPrefixOfChunks(n: nat)
    ensures n <= |Chunks| ==> Joined(Chunks[0..n]) == JoinWithBlankLines(Chunks[..n])
  {
    if n <= |Chunks| {
      assert NonEmptyChunks(Chunks[..n]) by {
        forall i | 0 <= i < n ensures Chunks[..n][i] != [] {
          assert Chunks[i] != [];
        }
      }
      assert Chunks[0..n] == Chunks[..n];
      JoinedIsJoinWithBlankLines(Chunks[..n]);
    }
  }

  // ---------------------------------------------------------------------------
  // Keyword highlighting

  datatype Keyword = Keyword(word: string, confidence: real, severity: string)

  /** The panel's own keyword table; the `emergencyKeywords` prop is never read. */
  const Keywords: seq<Keyword> := [
    Keyword("chest pain", 0.98, "high"),
    Keyword("can't breathe", 0.95, "high"),
    Keyword("pale", 0.92, "medium"),
    Keyword("sweating", 0.89, "medium"),
    Keyword("pain getting worse", 0.96, "high")
  ]

  /** The opening tag for a colour of the theme: `<mark class="bg-C/20 text-C px-1 rounded font-medium">`. */
  function OpenTagFor(color: string): string
  {
    "<mark class=\"bg-" + color + "/20 text-" + color + " px-1 rounded font-medium\">"
  }

  const OpenError: string := OpenTagFor("error")
  const OpenWarning: string := OpenTagFor("warning")
  const CloseMark: string := "</mark>"

  /** The characters of the tags the proofs below look at. */
  lemma TagChars()
    ensures OpenError[0] == '<' && OpenError[1] == 'm' && OpenError[16] == 'e' && OpenError[|OpenError| - 1] == '>'
    ensures OpenWarning[0] == '<' && OpenWarning[1] == 'm' && OpenWarning[16] == 'w' && OpenWarning[|OpenWarning| - 1] == '>'
    ensures CloseMark[0] == '<' && CloseMark[1] == '/' && CloseMark[|CloseMark| - 1] == '>'
  {
  }

  /** High severity gets the error class, anything else the warning class. */
  function OpenTag(k: Keyword): string
  {
    if k.severity == "high" then OpenError else OpenWarning
  }

  predicate StartsWith(s: string, p: string)
  {
    |p| <= |s| && s[..|p|] == p
  }

  /** The window of `s` at `i` equals `w` up to ASCII case. */
  predicate MatchesAt(s: string, w: string, i: nat)
  {
    i + |w| <= |s| && Lower(s[i..i + |w|]) == Lower(w)
  }

  /**
   * `s.replace(new RegExp("(" + w + ")", "gi"), open + "$1" + close)`: every
   * case-insensitive occurrence, taken left to right without overlap, is
   * wrapped with its original casing kept.
   */
  function ReplaceAll(s: string, w: string, open: string): string
    requires w != []
    decreases |s|
  {
    if |s| < |w| then s
    else if MatchesAt(s, w, 0) then open + s[..|w|] + CloseMark + ReplaceAll(s[|w|..], w, open)
    else [s[0]] + ReplaceAll(s[1..], w, open)
  }

  predicate KeywordsNonEmpty()
  {
    forall i :: 0 <= i < |Keywords| ==> Keywords[i].word != []
  }

  lemma KeywordWordsNonEmpty()
    ensures KeywordsNonEmpty()
  {
  }

  /** The text after the first `n` keywords of the table have been applied. */
  function HighlightUpTo(text: string, n: nat): string
    requires n <= |Keywords|
  {
    KeywordWordsNonEmpty();
    if n == 0 then text
    else
      var k := Keywords[n - 1];
      ReplaceAll(HighlightUpTo(text, n - 1), k.word, OpenTag(k))
  }

  /** `highlightKeywords(text)`: the loop over the keyword table reassigning `highlightedText`. */
  method HighlightKeywords(text: string) returns (highlighted: string)
    ensures text == [] ==> highlighted == []
    ensures text != [] ==> highlighted == HighlightUpTo(text, |Keywords|)
  {
    if text == [] {
      return text;
    }
    highlighted := text;
    KeywordWordsNonEmpty();
    for i := 0 to |Keywords|
      invariant highlighted == HighlightUpTo(text, i)
    {
      var keyword := Keywords[i];
      var open := if keyword.severity == "high" then OpenError else OpenWarning;
      highlighted := ReplaceAll(highlighted, keyword.word, open);
    }
  }

  // ---------------------------------------------------------------------------
  // Removing the markup again

  predicate StartsWithTag(s: string)
  {
    StartsWith(s, OpenError) || StartsWith(s, OpenWarning) || StartsWith(s, CloseMark)
  }

  /** The text with every inserted `<mark …>` and `</mark>` removed. */
  function Unmark(s: string): string
    decreases |s|
  {
    if s == [] then []
    else if StartsWith(s, OpenError) then Unmark(s[|OpenError|..])
    else if StartsWith(s, OpenWarning) then Unmark(s[|OpenWarning|..])
    else if StartsWith(s, CloseMark) then Unmark(s[|CloseMark|..])
    else [s[0]] + Unmark(s[1..])
  }

  /** `s` reads as plain characters and whole tags. */
  predicate Marked(s: string)
    decreases |s|
  {
    if s == [] then true
    else if StartsWith(s, OpenError) then Marked(s[|OpenError|..])
    else if StartsWith(s, OpenWarning) then Marked(s[|OpenWarning|..])
    else if StartsWith(s, CloseMark) then Marked(s[|CloseMark|..])
    else s[0] != '<' && Marked(s[1..])
  }

  /** A text with no `<`: no markup in it to begin with. */
  predicate NoAngle(s: string)
  {
    forall j :: 0 <= j < |s| ==> s[j] != '<'
  }

  /**
   * What "the keyword never occurs inside the markup" means: the word is
   * non-empty, has no `<` or `>`, and no tag contains it up to case.
   */
  predicate OutsideMarkup(w: string)
  {
    && w != []
    && (forall j :: 0 <= j < |w| ==> w[j] != '<' && w[j] != '>')
    && !Contains(Lower(OpenError), Lower(w))
    && !Contains(Lower(OpenWarning), Lower(w))
    && !Contains(Lower(CloseMark), Lower(w))
  }

  lemma NoAngleMeansPlainWindow(s: string, w: string, i: nat)
    requires OutsideMarkup(w) && MatchesAt(s, w, i)
    ensures forall j :: i <= j < i + |w| ==> s[j] != '<' && s[j] != '>'
  {
    forall j | i <= j < i + |w|
      ensures s[j] != '<' && s[j] != '>'
    {
      assert Lower(s[i..i + |w|])[j - i] == Lower(w)[j - i];
      assert s[i..i + |w|][j - i] == s[j];
    }
  }

  lemma TagsDiffer(x: string)
    ensures !StartsWith(OpenWarning + x, OpenError)
    ensures !StartsWith(CloseMark + x, OpenError) && !StartsWith(CloseMark + x, OpenWarning)
  {
    TagChars();
    if |OpenError| <= |OpenWarning + x| {
      assert (OpenWarning + x)[..|OpenError|][16] == OpenWarning[16];
    }
    if |OpenError| <= |CloseMark + x| {
      assert (CloseMark + x)[..|OpenError|][1] == CloseMark[1];
    }
    if |OpenWarning| <= |CloseMark + x| {
      assert (CloseMark + x)[..|OpenWarning|][1] == CloseMark[1];
    }
  }

  lemma UnmarkTag(tag: string, x: string)
    requires tag == OpenError || tag == OpenWarning || tag == CloseMark
    ensures Unmark(tag + x) == Unmark(x)
    ensures Marked(x) ==> Marked(tag + x)
  {
    TagsDiffer(x);
    assert (tag + x)[..|tag|] == tag;
    assert (tag + x)[|tag|..] == x;
  }

  /** A prefix with no `<` is kept by `Unmark` and is read as plain characters. */
  lemma {:induction false} UnmarkPlainPrefix(p: string, x: string)
    requires forall j :: 0 <= j < |p| ==> p[j] != '<'
    ensures Unmark(p + x) == p + Unmark(x)
    ensures Marked(p + x) <==> Marked(x)
    decreases |p|
  {
    if p != [] {
      assert !StartsWithTag(p + x) by {
        TagChars();
        assert (p + x)[0] == p[0];
      }
      assert (p + x)[1..] == p[1..] + x;
      UnmarkPlainPrefix(p[1..], x);
    } else {
      assert p + x == x;
    }
  }

  /** `ReplaceAll` leaves a prefix alone when no occurrence starts in it. */
  lemma {:induction false} ReplaceSkips(s: string, w: string, open: string, k: nat)
    requires w != [] && k <= |s|
    requires forall i :: 0 <= i < k ==> !MatchesAt(s, w, i)
    ensures ReplaceAll(s, w, open) == s[..k] + ReplaceAll(s[k..], w, open)
    decreases k
  {
    if k > 0 {
      if |s| < |w| {
        assert ReplaceAll(s[k..], w, open) == s[k..];
        assert s == s[..k] + s[k..];
      } else {
        assert !MatchesAt(s, w, 0);
        forall i | 0 <= i < k - 1
          ensures !MatchesAt(s[1..], w, i)
        {
          assert !MatchesAt(s, w, i + 1);
          if i + |w| <= |s[1..]| {
            assert s[1..][i..i + |w|] == s[i + 1..i + 1 + |w|];
          }
        }
        ReplaceSkips(s[1..], w, open, k - 1);
        assert s[1..][k - 1..] == s[k..];
        assert s[..k] == [s[0]] + s[1..][..k - 1];
      }
    }
  }

  /** A window that lies inside the tag at the front of `s` cannot match a word the tag does not contain. */
  lemma NoMatchWithinTag(s: string, w: string, tag: string, i: nat)
    requires StartsWith(s, tag) && i + |w| <= |tag|
    requires !Contains(Lower(tag), Lower(w))
    ensures !MatchesAt(s, w, i)
  {
    ContainsIsExists(Lower(tag), Lower(w));
    assert s[i..i + |w|] == tag[i..i + |w|];
    assert Lower(tag)[i..i + |w|] == Lower(tag[i..i + |w|]);
    assert !OccursAt(Lower(tag), Lower(w), i);
  }

  /** A window that runs over the closing `>` of the tag cannot match a word without `>`. */
  lemma NoMatchAcrossTagEnd(s: string, w: string, tag: string, i: nat)
    requires StartsWith(s, tag) && tag != [] && tag[|tag| - 1] == '>'
    requires i < |tag| < i + |w|
    requires forall j :: 0 <= j < |w| ==> w[j] != '>'
    ensures !MatchesAt(s, w, i)
  {
    if i + |w| <= |s| {
      var k := |tag| - 1 - i;
      assert s[i..i + |w|][k] == s[..|tag|][|tag| - 1] == '>';
      assert w[k] != '>';
      assert Lower(s[i..i + |w|])[k] != Lower(w)[k];
    }
  }

  /** No occurrence of a word starts inside a tag ending in `>` that does not contain it. */
  lemma NoMatchInClosedTag(s: string, w: string, tag: string)
    requires StartsWith(s, tag) && tag != [] && tag[|tag| - 1] == '>'
    requires !Contains(Lower(tag), Lower(w))
    requires forall j :: 0 <= j < |w| ==> w[j] != '>'
    ensures forall i :: 0 <= i < |tag| ==> !MatchesAt(s, w, i)
  {
    forall i: nat | i < |tag|
      ensures !MatchesAt(s, w, i)
    {
      if i + |w| <= |tag| {
        NoMatchWithinTag(s, w, tag, i);
      } else {
        NoMatchAcrossTagEnd(s, w, tag, i);
      }
    }
  }

  /** No occurrence of a word outside the markup starts inside a tag at the front of `s`. */
  lemma NoMatchInsideTag(s: string, w: string, tag: string)
    requires OutsideMarkup(w)
    requires tag == OpenError || tag == OpenWarning || tag == CloseMark
    requires StartsWith(s, tag)
    ensures forall i :: 0 <= i < |tag| ==> !MatchesAt(s, w, i)
  {
    TagChars();
    NoMatchInClosedTag(s, w, tag);
  }

  /** The pass over a text that starts with a tag copies the tag. */
  lemma ReplaceKeepsTag(s: string, w: string, open: string, tag: string)
    requires OutsideMarkup(w)
    requires tag == OpenError || tag == OpenWarning || tag == CloseMark
    requires StartsWith(s, tag)
    ensures s == tag + s[|tag|..]
    ensures ReplaceAll(s, w, open) == tag + ReplaceAll(s[|tag|..], w, open)
  {
    NoMatchInsideTag(s, w, tag);
    ReplaceSkips(s, w, open, |tag|);
  }

  /** The pass over a text that starts with a tag: the tag is copied and the pass goes on after it. */
  lemma ReplaceAfterTag(s: string, w: string, open: string, tag: string)
    requires OutsideMarkup(w) && (open == OpenError || open == OpenWarning)
    requires tag == OpenError || tag == OpenWarning || tag == CloseMark
    requires StartsWith(s, tag)
    requires Marked(ReplaceAll(s[|tag|..], w, open))
    requires Unmark(ReplaceAll(s[|tag|..], w, open)) == Unmark(s[|tag|..])
    ensures Marked(ReplaceAll(s, w, open))
    ensures Unmark(ReplaceAll(s, w, open)) == Unmark(s)
  {
    var rest := s[|tag|..];
    ReplaceKeepsTag(s, w, open, tag);
    UnmarkTag(tag, rest);
    UnmarkTag(tag, ReplaceAll(rest, w, open));
  }

  /** A wrapped occurrence removes to the occurrence itself. */
  lemma UnmarkWrapped(open: string, word: string, r: string)
    requires open == OpenError || open == OpenWarning
    requires NoAngle(word)
    ensures Unmark(open + word + CloseMark + r) == word + Unmark(r)
    ensures Marked(r) ==> Marked(open + word + CloseMark + r)
  {
    assert open + word + CloseMark + r == open + (word + (CloseMark + r));
    UnmarkTag(CloseMark, r);
    UnmarkPlainPrefix(word, CloseMark + r);
    UnmarkTag(open, word + (CloseMark + r));
  }

  /** The pass over a text that starts with an occurrence: it is wrapped and the pass goes on after it. */
  lemma ReplaceAfterMatch(s: string, w: string, open: string)
    requires OutsideMarkup(w) && (open == OpenError || open == OpenWarning)
    requires MatchesAt(s, w, 0)
    requires Marked(ReplaceAll(s[|w|..], w, open))
    requires Unmark(ReplaceAll(s[|w|..], w, open)) == Unmark(s[|w|..])
    ensures Marked(ReplaceAll(s, w, open))
    ensures Unmark(ReplaceAll(s, w, open)) == Unmark(s)
  {
    var word := s[..|w|];
    NoAngleMeansPlainWindow(s, w, 0);
    assert NoAngle(word);
    UnmarkPlainPrefix(word, s[|w|..]);
    assert s == word + s[|w|..];
    UnmarkWrapped(open, word, ReplaceAll(s[|w|..], w, open));
  }

  /** The marked text before a pass starts either with a tag, or with a plain character. */
  lemma MarkedFront(s: string)
    requires Marked(s) && s != [] && !StartsWithTag(s)
    ensures s[0] != '<' && Marked(s[1..])
  {
  }

  /** The pass over a text that starts with a plain character outside any occurrence. */
  lemma ReplaceAfterChar(s: string, w: string, open: string)
    requires w != [] && |w| <= |s| && !MatchesAt(s, w, 0) && s[0] != '<'
    requires Marked(ReplaceAll(s[1..], w, open))
    requires Unmark(ReplaceAll(s[1..], w, open)) == Unmark(s[1..])
    ensures Marked(ReplaceAll(s, w, open))
    ensures Unmark(ReplaceAll(s, w, open)) == Unmark(s)
  {
    var r := ReplaceAll(s[1..], w, open);
    UnmarkPlainPrefix([s[0]], r);
    UnmarkPlainPrefix([s[0]], s[1..]);
    assert s == [s[0]] + s[1..];
  }

  /** One keyword pass keeps the text well formed and removes to the same plain text. */
  lemma {:induction false} ReplaceAllUnmarks(s: string, w: string, open: string)
    requires OutsideMarkup(w) && (open == OpenError || open == OpenWarning)
    requires Marked(s)
    ensures Marked(ReplaceAll(s, w, open))
    ensures Unmark(ReplaceAll(s, w, open)) == Unmark(s)
    decreases |s|
  {
    if |s| < |w| {
    } else if StartsWithTag(s) {
      var tag := if StartsWith(s, OpenError) then OpenError
                 else if StartsWith(s, OpenWarning) then OpenWarning else CloseMark;
      ReplaceAllUnmarks(s[|tag|..], w, open);
      ReplaceAfterTag(s, w, open, tag);
    } else if MatchesAt(s, w, 0) {
      NoAngleMeansPlainWindow(s, w, 0);
      UnmarkPlainPrefix(s[..|w|], s[|w|..]);
      assert s == s[..|w|] + s[|w|..];
      ReplaceAllUnmarks(s[|w|..], w, open);
      ReplaceAfterMatch(s, w, open);
    } else {
      MarkedFront(s);
      ReplaceAllUnmarks(s[1..], w, open);
      ReplaceAfterChar(s, w, open);
    }
  }

  lemma {:induction false} HighlightUpToUnmarks(text: string, n: nat)
    requires n <= |Keywords| && NoAngle(text)
    requires forall i :: 0 <= i < |Keywords| ==> OutsideMarkup(Keywords[i].word)
    ensures Marked(HighlightUpTo(text, n)) && Unmark(HighlightUpTo(text, n)) == text
  {
    if n == 0 {
      UnmarkPlainPrefix(text, []);
      assert text + [] == text;
    } else {
      HighlightUpToUnmarks(text, n - 1);
      var k := Keywords[n - 1];
      ReplaceAllUnmarks(HighlightUpTo(text, n - 1), k.word, OpenTag(k));
    }
  }

  /**
   * Removing the markup from the highlighted text gives back the text,
   * provided the text has no markup of its own and no keyword occurs inside the markup.
   */
  lemma HighlightRoundTrip(text: string, highlighted: string)
    requires NoAngle(text)
    requires forall i :: 0 <= i < |Keywords| ==> OutsideMarkup(Keywords[i].word)
    requires highlighted == (if text == [] then [] else HighlightUpTo(text, |Keywords|))
    ensures Unmark(highlighted) == text
  {
    if text != [] {
      HighlightUpToUnmarks(text, |Keywords|);
    }
  }

  /** The leftmost occurrence is wrapped with its casing kept, and the text before it is copied. */
  lemma LeftmostOccurrenceWrapped(s: string, w: string, open: string, i: nat)
    requires w != [] && MatchesAt(s, w, i)
    requires forall j :: 0 <= j < i ==> !MatchesAt(s, w, j)
    ensures ReplaceAll(s, w, open) == s[..i] + (open + s[i..i + |w|] + CloseMark + ReplaceAll(s[i + |w|..], w, open))
  {
    ReplaceSkips(s, w, open, i);
    ReplaceAtFront(s[i..], w, open);
    assert s[i..][..|w|] == s[i..i + |w|];
    assert s[i..][|w|..] == s[i + |w|..];
  }

  lemma ReplaceAtFront(t: string, w: string, open: string)
    requires w != [] && MatchesAt(t, w, 0)
    ensures ReplaceAll(t, w, open) == open + t[..|w|] + CloseMark + ReplaceAll(t[|w|..], w, open)
  {
  }

  // ---------------------------------------------------------------------------
  // The word count under the text

  /** `s.split(' ')`: the pieces between single spaces, empty pieces included. */
  function SplitOnSpace(s: string): (r: seq<string>)
    ensures |r| >= 1
    decreases |s|
  {
    if s == [] then [[]]
    else
      var rest := SplitOnSpace(s[1..]);
      if s[0] == ' ' then [[]] + rest else [[s[0]] + rest[0]] + rest[1..]
  }

  /** `pieces.join(' ')` */
  function JoinWithSpace(pieces: seq<string>): string
    requires |pieces| >= 1
  {
    if |pieces| == 1 then pieces[0] else pieces[0] + " " + JoinWithSpace(pieces[1..])
  }

  predicate NoSpace(s: string)
  {
    forall j :: 0 <= j < |s| ==> s[j] != ' '
  }

  /** Splitting loses nothing: the pieces hold no space and join back to the text. */
  lemma {:induction false} SplitOnSpaceJoins(s: string)
    ensures JoinWithSpace(SplitOnSpace(s)) == s
    ensures forall k :: 0 <= k < |SplitOnSpace(s)| ==> NoSpace(SplitOnSpace(s)[k])
    decreases |s|
  {
    if s != [] {
      var rest := SplitOnSpace(s[1..]);
      SplitOnSpaceJoins(s[1..]);
      if s[0] == ' ' {
        assert ([[]] + rest)[1..] == rest;
        assert s == [] + " " + s[1..];
      } else {
        var r := [[s[0]] + rest[0]] + rest[1..];
        if |rest| == 1 {
          assert s == [s[0]] + s[1..];
        } else {
          assert r[1..] == rest[1..];
          assert JoinWithSpace(rest) == rest[0] + " " + JoinWithSpace(rest[1..]);
        }
        forall k | 0 <= k < |r| ensures NoSpace(r[k]) {
          if k == 0 {
            assert NoSpace(rest[0]);
          } else {
            assert r[k] == rest[k];
          }
        }
      }
    }
  }

  /** `pieces.filter(word => word.length > 0).length` */
  function NonEmptyCount(pieces: seq<string>): nat
  {
    if pieces == [] then 0 else (if pieces[0] != [] then 1 else 0) + NonEmptyCount(pieces[1..])
  }

  /** The number shown as "Words". */
  function WordCount(text: string): nat
  {
    NonEmptyCount(SplitOnSpace(text))
  }

  /**
   * The reference count: the positions where a word begins, a non-space
   * character that is first or follows a space.
   */
  function WordStarts(s: string, afterSpace: bool): nat
  {
    if s == [] then 0
    else (if s[0] != ' ' && afterSpace then 1 else 0) + WordStarts(s[1..], s[0] == ' ')
  }

  lemma {:induction false} WordStartsAfterChar(s: string)
    ensures WordStarts(s, true) == WordStarts(s, false) + (if s != [] && s[0] != ' ' then 1 else 0)
  {
  }

  /** The word count is the number of word beginnings. */
  lemma {:induction false} WordCountIsWordStarts(s: string)
    ensures WordCount(s) == WordStarts(s, true)
    decreases |s|
  {
    if s != [] {
      var rest := SplitOnSpace(s[1..]);
      WordCountIsWordStarts(s[1..]);
      if s[0] == ' ' {
        assert ([[]] + rest)[1..] == rest;
      } else {
        var r := [[s[0]] + rest[0]] + rest[1..];
        assert r[1..] == rest[1..];
        assert NonEmptyCount(rest) == (if rest[0] != [] then 1 else 0) + NonEmptyCount(rest[1..]);
        assert rest[0] != [] <==> (s[1..] != [] && s[1..][0] != ' ');
        WordStartsAfterChar(s[1..]);
      }
    }
  }

  /** Newlines do not separate words: a non-empty text without spaces is one word. */
  lemma {:induction false} TextWithoutSpacesIsOneWord(s: string)
    requires s != [] && NoSpace(s)
    ensures WordCount(s) == 1
  {
    WordCountIsWordStarts(s);
    assert WordStarts(s, true) == 1 + WordStarts(s[1..], false);
    NoWordStartsWithoutSpace(s[1..]);
  }

  lemma {:induction false} NoWordStartsWithoutSpace(s: string)
    requires NoSpace(s)
    ensures WordStarts(s, false) == 0
    decreases |s|
  {
    if s != [] {
      NoWordStartsWithoutSpace(s[1..]);
    }
  }
}
