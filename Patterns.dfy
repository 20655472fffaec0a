/**
 * The five regular expressions of the field extractor
 * (src/pages/emergency-call-interface/components/ExtractedInformation.jsx),
 * written as hand matchers over the lowercased transcript. Each one is given
 * as a function that tries one start position (following the backtracking
 * order of a JavaScript regex) and a leftmost search over start positions,
 * and is checked against a declarative description of the strings the
 * pattern accepts.
 */
module Patterns {
  import opened Text

  datatype CharClass = Digit | Space | Word | WordOrSpace

  /** `\w` */
  predicate IsWordChar(c: char)
  {
    'a' <= c <= 'z' || 'A' <= c <= 'Z' || '0' <= c <= '9' || c == '_'
  }

  predicate InClass(c: char, k: CharClass)
  {
    match k
    case Digit => IsDigit(c)
    case Space => IsWhitespace(c)
    case Word => IsWordChar(c)
    case WordOrSpace => IsWordChar(c) || IsWhitespace(c)
  }

  /** Every character of `t[i..j]` belongs to class `k`. */
  predicate AllIn(t: string, i: nat, j: nat, k: CharClass)
  {
    i <= j <= |t| && forall x :: i <= x < j ==> InClass(t[x], k)
  }

  /** The end of the longest run of class `k` that starts at `i`: what a greedy `+` or `*` consumes. */
  function RunEnd(t: string, i: nat, k: CharClass): (r: nat)
    requires i <= |t|
    ensures i <= r <= |t| && AllIn(t, i, r, k)
    ensures r == |t| || !InClass(t[r], k)
    decreases |t| - i
  {
    if i < |t| && InClass(t[i], k) then RunEnd(t, i + 1, k) else i
  }

  /** Any run of class `k` from `i` ends no later than the greedy one. */
  lemma RunEndIsLongest(t: string, i: nat, j: nat, k: CharClass)
    requires i <= |t| && AllIn(t, i, j, k)
    ensures j <= RunEnd(t, i, k)
  {
    var r := RunEnd(t, i, k);
    assert AllIn(t, i, j, k);
  }

  /** A run of class `k` from `i` that cannot be extended is the greedy one. */
  lemma RunEndExact(t: string, i: nat, j: nat, k: CharClass)
    requires i <= |t| && AllIn(t, i, j, k) && (j == |t| || !InClass(t[j], k))
    ensures RunEnd(t, i, k) == j
  {
    RunEndIsLongest(t, i, j, k);
  }

  /** Whitespace is neither a digit nor a word character. */
  lemma ClassesDisjoint(c: char)
    ensures IsWhitespace(c) ==> !IsDigit(c) && !IsWordChar(c)
  {
  }

  /** The index of the first of `lits[i..]` that occurs at `j`: the order in which alternatives are tried. */
  function FirstLiteralAt(t: string, lits: seq<string>, j: nat, i: nat): (r: Option<nat>)
    ensures r.Some? ==> i <= r.value < |lits| && OccursAt(t, lits[r.value], j)
    ensures r.Some? ==> forall x :: i <= x < r.value ==> !OccursAt(t, lits[x], j)
    ensures r.None? ==> forall x :: i <= x < |lits| ==> !OccursAt(t, lits[x], j)
    decreases |lits| - i
  {
    if i >= |lits| then None
    else if OccursAt(t, lits[i], j) then Some(i)
    else FirstLiteralAt(t, lits, j, i + 1)
  }

  /** The leftmost start position `p' >= p` at which `at` succeeds, with what it found there. */
  function Leftmost<M>(t: string, at: nat -> Option<M>, p: nat): (r: Option<(nat, M)>)
    ensures r.Some? ==> p <= r.value.0 <= |t| && at(r.value.0) == Some(r.value.1)
    ensures r.Some? ==> forall x :: p <= x < r.value.0 ==> at(x).None?
    ensures r.None? ==> forall x :: p <= x <= |t| ==> at(x).None?
    decreases |t| + 1 - p
  {
    if p > |t| then None
    else
      match at(p)
      case Some(m) => Some((p, m))
      case None => Leftmost(t, at, p + 1)
  }

  // ---------------------------------------------------------------------------
  // (\d+\s+[\w\s]+(?:street|st|avenue|ave|road|rd|drive|dr|boulevard|blvd|lane|ln|court|ct|place|pl))

  const StreetSuffixes: seq<string> :=
    ["street", "st", "avenue", "ave", "road", "rd", "drive", "dr",
     "boulevard", "blvd", "lane", "ln", "court", "ct", "place", "pl"]

  /** Where the street suffix starts and which alternative matched there. */
  datatype SuffixHit = SuffixHit(at: nat, alt: nat)

  /** The strings the address pattern accepts from `p`, split at its parts: digits, whitespace, `[\w\s]` run, suffix. */
  predicate AddressParts(t: string, p: nat, d: nat, s: nat, j: nat, a: nat)
  {
    && p < d < s < j
    && a < |StreetSuffixes|
    && AllIn(t, p, d, Digit)
    && AllIn(t, d, s, Space)
    && AllIn(t, s, j, WordOrSpace)
    && OccursAt(t, StreetSuffixes[a], j)
  }

  /**
   * The suffix positions `j - 1` down to `lo`, in the order backtracking gives
   * characters back from the greedy `[\w\s]+`; at each one the alternatives
   * are tried in the order they are written.
   */
  function LastSuffix(t: string, lits: seq<string>, lo: nat, j: nat): (r: Option<SuffixHit>)
    ensures r.Some? ==> lo <= r.value.at < j && FirstLiteralAt(t, lits, r.value.at, 0) == Some(r.value.alt)
    ensures r.Some? ==> forall x :: r.value.at < x < j ==> FirstLiteralAt(t, lits, x, 0).None?
    ensures r.None? ==> forall x :: lo <= x < j ==> FirstLiteralAt(t, lits, x, 0).None?
    decreases j
  {
    if j <= lo then None
    else
      match FirstLiteralAt(t, lits, j - 1, 0)
      case Some(a) => Some(SuffixHit(j - 1, a))
      case None => LastSuffix(t, lits, lo, j - 1)
  }

  /** The address pattern tried at `p`, with the street suffixes `lits`. */
  function AddressAtWith(t: string, lits: seq<string>, p: nat): Option<SuffixHit>
  {
    if p >= |t| || !IsDigit(t[p]) then None
    else
      var q := RunEnd(t, p, Digit);
      if q >= |t| || !IsWhitespace(t[q]) then None
      else LastSuffix(t, lits, q + 2, RunEnd(t, q, WordOrSpace))
  }

  /** The address pattern tried at `p`. */
  function AddressAt(t: string, p: nat): Option<SuffixHit>
  {
    AddressAtWith(t, StreetSuffixes, p)
  }

  /** `text.match(address)?.[0]` */
  function AddressMatch(t: string): Option<string>
  {
    match Leftmost(t, p => AddressAt(t, p), 0)
    case None => None
    case Some((p, h)) =>
      var e := h.at + |StreetSuffixes[h.alt]|;
      if p <= e <= |t| then Some(t[p..e]) else None
  }

  lemma SuffixesStartWithLetters(a: nat)
    requires a < |StreetSuffixes|
    ensures |StreetSuffixes[a]| > 0 && 'a' <= StreetSuffixes[a][0] <= 'z'
  {
  }

  /** A suffix hit is an occurrence of the alternative it names, inside the range searched. */
  lemma SuffixHitOccurs(t: string, lits: seq<string>, lo: nat, j: nat)
    requires LastSuffix(t, lits, lo, j).Some?
    ensures var h := LastSuffix(t, lits, lo, j).value;
      lo <= h.at < j && h.alt < |lits| && OccursAt(t, lits[h.alt], h.at)
  {
  }

  /** The matcher at `p`: a digit run, then whitespace, then the suffix search over the `[\w\s]` run after it. */
  lemma AddressAtUnfold(t: string, lits: seq<string>, p: nat)
    requires AddressAtWith(t, lits, p).Some?
    ensures var q := RunEnd(t, p, Digit);
      && p < q < |t| && IsWhitespace(t[q])
      && AddressAtWith(t, lits, p) == LastSuffix(t, lits, q + 2, RunEnd(t, q, WordOrSpace))
  {
  }

  /** The parts of an accepted address, put together from the runs the matcher consumed. */
  lemma AddressPartsOfRuns(t: string, p: nat, q: nat, m: nat, j: nat, a: nat)
    requires p < q < |t| && AllIn(t, p, q, Digit) && IsWhitespace(t[q])
    requires AllIn(t, q, m, WordOrSpace) && q + 2 <= j < m
    requires a < |StreetSuffixes| && OccursAt(t, StreetSuffixes[a], j)
    ensures AddressParts(t, p, q, q + 1, j, a)
  {
    assert AllIn(t, q, q + 1, Space);
    assert AllIn(t, q + 1, j, WordOrSpace);
  }

  /** What the matcher finds at `p` is accepted by the pattern. */
  lemma AddressAtSound(t: string, p: nat)
    requires AddressAt(t, p).Some?
    ensures var h := AddressAt(t, p).value;
      exists d: nat, s: nat :: AddressParts(t, p, d, s, h.at, h.alt)
  {
    var h := AddressAt(t, p).value;
    var q := RunEnd(t, p, Digit);
    var m := RunEnd(t, q, WordOrSpace);
    AddressAtUnfold(t, StreetSuffixes, p);
    SuffixHitOccurs(t, StreetSuffixes, q + 2, m);
    AddressPartsOfRuns(t, p, q, m, h.at, h.alt);
  }

  /**
   * Whenever the pattern accepts something from `p`, the matcher succeeds at
   * `p`; its suffix starts no earlier, and at the same position the
   * alternative it takes is written no later.
   */
  lemma AddressAtComplete(t: string, p: nat, d: nat, s: nat, j: nat, a: nat)
    requires AddressParts(t, p, d, s, j, a)
    ensures AddressAt(t, p).Some?
    ensures j <= AddressAt(t, p).value.at
    ensures j == AddressAt(t, p).value.at ==> AddressAt(t, p).value.alt <= a
  {
    assert InClass(t[d], Space);
    ClassesDisjoint(t[d]);
    RunEndExact(t, p, d, Digit);
    var q := d;
    SuffixesStartWithLetters(a);
    assert t[j] == StreetSuffixes[a][0];
    assert AllIn(t, q, j + 1, WordOrSpace) by {
      forall x | q <= x < j + 1
        ensures InClass(t[x], WordOrSpace)
      {
        if x < s {
          assert InClass(t[x], Space);
        } else if x < j {
          assert InClass(t[x], WordOrSpace);
        }
      }
    }
    var m := RunEnd(t, q, WordOrSpace);
    RunEndIsLongest(t, q, j + 1, WordOrSpace);
    var first := FirstLiteralAt(t, StreetSuffixes, j, 0);
    assert first.Some? && first.value <= a;
  }

  /** Nothing the pattern accepts starts where the matcher fails. */
  lemma AddressAtNone(t: string, p: nat)
    requires AddressAt(t, p).None?
    ensures forall d: nat, s: nat, j: nat, a: nat :: !AddressParts(t, p, d, s, j, a)
  {
    forall d: nat, s: nat, j: nat, a: nat
      ensures !AddressParts(t, p, d, s, j, a)
    {
      if AddressParts(t, p, d, s, j, a) {
        AddressAtComplete(t, p, d, s, j, a);
      }
    }
  }

  /**
   * The address pattern finds something exactly when it accepts some
   * substring. What it finds starts at the leftmost position where the
   * pattern accepts anything, and among what is accepted from there its
   * street suffix starts last, taking the first alternative written.
   */
  lemma AddressMatchSpec(t: string)
    ensures AddressMatch(t).Some? <==> exists p: nat, d: nat, s: nat, j: nat, a: nat :: AddressParts(t, p, d, s, j, a)
    ensures AddressMatch(t).Some? ==> exists p: nat, d: nat, s: nat, j: nat, a: nat ::
      && AddressParts(t, p, d, s, j, a)
      && AddressMatch(t).value == t[p..j + |StreetSuffixes[a]|]
      && (forall p': nat, d': nat, s': nat, j': nat, a': nat :: p' < p ==> !AddressParts(t, p', d', s', j', a'))
      && (forall d': nat, s': nat, j': nat, a': nat ::
            AddressParts(t, p, d', s', j', a') ==> j' < j || (j' == j && a <= a'))
  {
    var at := (p: nat) => AddressAt(t, p);
    var r := Leftmost(t, at, 0);
    if r.Some? {
      var (p, h) := r.value;
      assert at(p) == Some(h);
      AddressAtSound(t, p);
      var d, s :| AddressParts(t, p, d, s, h.at, h.alt);
      forall p': nat, d': nat, s': nat, j': nat, a': nat | p' < p
        ensures !AddressParts(t, p', d', s', j', a')
      {
        assert at(p').None?;
        AddressAtNone(t, p');
      }
      forall d': nat, s': nat, j': nat, a': nat | AddressParts(t, p, d', s', j', a')
        ensures j' < h.at || (j' == h.at && h.alt <= a')
      {
        AddressAtComplete(t, p, d', s', j', a');
      }
      assert AddressMatch(t).value == t[p..h.at + |StreetSuffixes[h.alt]|];
    } else {
      forall p: nat, d: nat, s: nat, j: nat, a: nat
        ensures !AddressParts(t, p, d, s, j, a)
      {
        if p <= |t| {
          assert at(p).None?;
          AddressAtNone(t, p);
        }
      }
    }
  }

  // ---------------------------------------------------------------------------
  // apartment\s+(\w+)|apt\s+(\w+)|unit\s+(\w+)

  const UnitWords: seq<string> := ["apartment", "apt", "unit"]

  /** The strings alternative `k` of the apartment pattern accepts at `p`: the word, whitespace up to `w`, a word up to `e`. */
  predicate UnitParts(t: string, p: nat, k: nat, w: nat, e: nat)
  {
    && k < |UnitWords|
    && OccursAt(t, UnitWords[k], p)
    && p + |UnitWords[k]| < w < e
    && AllIn(t, p + |UnitWords[k]|, w, Space)
    && AllIn(t, w, e, Word)
  }

  /** Alternatives `k` onward of the apartment pattern at `p`; the result is the end of the whole match. */
  function UnitFrom(t: string, p: nat, k: nat): (r: Option<nat>)
    decreases |UnitWords| - k
  {
    if k >= |UnitWords| then None
    else if OccursAt(t, UnitWords[k], p) then
      var w := RunEnd(t, p + |UnitWords[k]|, Space);
      var e := RunEnd(t, w, Word);
      if p + |UnitWords[k]| < w < e then Some(e) else UnitFrom(t, p, k + 1)
    else UnitFrom(t, p, k + 1)
  }

  /** `text.match(apartment)?.[0]` */
  function UnitMatch(t: string): Option<string>
  {
    match Leftmost(t, p => UnitFrom(t, p, 0), 0)
    case None => None
    case Some((p, e)) => if p <= e <= |t| then Some(t[p..e]) else None
  }

  lemma {:induction false} UnitFromSound(t: string, p: nat, k: nat)
    requires UnitFrom(t, p, k).Some?
    ensures var e := UnitFrom(t, p, k).value;
      && (exists k': nat, w: nat :: k <= k' && UnitParts(t, p, k', w, e))
      && (e == |t| || !IsWordChar(t[e]))
    decreases |UnitWords| - k
  {
    if OccursAt(t, UnitWords[k], p) {
      var w := RunEnd(t, p + |UnitWords[k]|, Space);
      var e := RunEnd(t, w, Word);
      if p + |UnitWords[k]| < w < e {
        assert UnitParts(t, p, k, w, e);
        return;
      }
    }
    UnitFromSound(t, p, k + 1);
  }

  lemma {:induction false} UnitFromComplete(t: string, p: nat, k: nat, k': nat, w: nat, e: nat)
    requires k <= k' && UnitParts(t, p, k', w, e)
    ensures UnitFrom(t, p, k).Some?
    decreases |UnitWords| - k
  {
    if k < k' {
      if !(OccursAt(t, UnitWords[k], p) &&
           p + |UnitWords[k]| < RunEnd(t, p + |UnitWords[k]|, Space) < RunEnd(t, RunEnd(t, p + |UnitWords[k]|, Space), Word)) {
        UnitFromComplete(t, p, k + 1, k', w, e);
      }
    } else {
      var lit := p + |UnitWords[k]|;
      assert InClass(t[w], Word);
      ClassesDisjoint(t[w]);
      RunEndExact(t, lit, w, Space);
      RunEndIsLongest(t, w, e, Word);
    }
  }

  lemma UnitFromNone(t: string, p: nat)
    requires UnitFrom(t, p, 0).None?
    ensures forall k: nat, w: nat, e: nat :: !UnitParts(t, p, k, w, e)
  {
    forall k: nat, w: nat, e: nat
      ensures !UnitParts(t, p, k, w, e)
    {
      if UnitParts(t, p, k, w, e) {
        UnitFromComplete(t, p, 0, k, w, e);
      }
    }
  }

  /**
   * The apartment pattern finds something exactly when it accepts some
   * substring; what it finds is accepted, starts at the leftmost acceptable
   * position and ends at the end of a word.
   */
  lemma UnitMatchSpec(t: string)
    ensures UnitMatch(t).Some? <==> exists p: nat, k: nat, w: nat, e: nat :: UnitParts(t, p, k, w, e)
    ensures UnitMatch(t).Some? ==> exists p: nat, k: nat, w: nat, e: nat ::
      && UnitParts(t, p, k, w, e) && UnitMatch(t).value == t[p..e]
      && (e == |t| || !IsWordChar(t[e]))
      && forall p': nat, k': nat, w': nat, e': nat :: p' < p ==> !UnitParts(t, p', k', w', e')
  {
    var at := (p: nat) => UnitFrom(t, p, 0);
    var r := Leftmost(t, at, 0);
    if r.Some? {
      var (p, e) := r.value;
      assert at(p) == Some(e);
      UnitFromSound(t, p, 0);
      var k, w :| 0 <= k && UnitParts(t, p, k, w, e);
      forall p': nat, k': nat, w': nat, e': nat | p' < p
        ensures !UnitParts(t, p', k', w', e')
      {
        assert at(p').None?;
        UnitFromNone(t, p');
      }
    } else {
      forall p: nat, k: nat, w: nat, e: nat
        ensures !UnitParts(t, p, k, w, e)
      {
        if p <= |t| {
          assert at(p).None?;
          UnitFromNone(t, p);
        }
      }
    }
  }

  // ---------------------------------------------------------------------------
  // (\d+)\s+(?:people|person|patient|victim)

  const PatientNouns: seq<string> := ["people", "person", "patient", "victim"]

  /** The strings the patient pattern accepts from `p`: digits up to `d`, whitespace up to `s`, then noun `k`. */
  predicate PatientParts(t: string, p: nat, d: nat, s: nat, k: nat)
  {
    && p < d < s
    && k < |PatientNouns|
    && AllIn(t, p, d, Digit)
    && AllIn(t, d, s, Space)
    && OccursAt(t, PatientNouns[k], s)
  }

  /** The patient pattern tried at `p`; the result is the end of the digit group. */
  function PatientAt(t: string, p: nat): Option<nat>
  {
    if p >= |t| || !IsDigit(t[p]) then None
    else
      var q := RunEnd(t, p, Digit);
      var s := RunEnd(t, q, Space);
      if s > q && FirstLiteralAt(t, PatientNouns, s, 0).Some? then Some(q) else None
  }

  /** `text.match(patient)?.[1]`: the digit group. */
  function PatientMatch(t: string): Option<string>
  {
    match Leftmost(t, p => PatientAt(t, p), 0)
    case None => None
    case Some((p, q)) => if p <= q <= |t| then Some(t[p..q]) else None
  }

  lemma NounsStartWithLetters(k: nat)
    requires k < |PatientNouns|
    ensures |PatientNouns[k]| > 0 && 'a' <= PatientNouns[k][0] <= 'z'
  {
  }

  lemma PatientAtExact(t: string, p: nat, d: nat, s: nat, k: nat)
    requires PatientParts(t, p, d, s, k)
    ensures PatientAt(t, p) == Some(d)
  {
    assert InClass(t[d], Space);
    ClassesDisjoint(t[d]);
    RunEndExact(t, p, d, Digit);
    NounsStartWithLetters(k);
    assert t[s] == PatientNouns[k][0];
    RunEndExact(t, d, s, Space);
    assert FirstLiteralAt(t, PatientNouns, s, 0).Some?;
  }

  lemma PatientAtNone(t: string, p: nat)
    requires PatientAt(t, p).None?
    ensures forall d: nat, s: nat, k: nat :: !PatientParts(t, p, d, s, k)
  {
    forall d: nat, s: nat, k: nat
      ensures !PatientParts(t, p, d, s, k)
    {
      if PatientParts(t, p, d, s, k) {
        PatientAtExact(t, p, d, s, k);
      }
    }
  }

  /** At the start of "2\U{00A0}people" the pattern takes the digit "2", then the no-break space, then "people". */
  lemma PatientAtNoBreakSpace(t: string)
    requires t == "2\U{00A0}people"
    ensures PatientAt(t, 0) == Some(1)
  {
    assert RunEnd(t, 1, Digit) == 1 by { assert !InClass(t[1], Digit); }
    assert RunEnd(t, 0, Digit) == 1;
    assert RunEnd(t, 2, Space) == 2 by { assert !InClass(t[2], Space); }
    assert RunEnd(t, 1, Space) == 2;
    assert OccursAt(t, PatientNouns[0], 2) by { assert t[2..2 + |PatientNouns[0]|] == PatientNouns[0]; }
  }

  /** A no-break space between the number and the noun is white space too, as it is for `\s`. */
  lemma PatientMatchAcrossNoBreakSpace()
    ensures PatientMatch("2\U{00A0}people") == Some("2")
  {
    var t := "2\U{00A0}people";
    PatientAtNoBreakSpace(t);
    assert Leftmost(t, p => PatientAt(t, p), 0) == Some((0, 1));
    assert t[0..1] == "2";
  }

  /**
   * The patient pattern finds something exactly when it accepts some
   * substring; its group is the whole digit run of the leftmost acceptable
   * start.
   */
  lemma PatientMatchSpec(t: string)
    ensures PatientMatch(t).Some? <==> exists p: nat, d: nat, s: nat, k: nat :: PatientParts(t, p, d, s, k)
    ensures PatientMatch(t).Some? ==> exists p: nat, d: nat, s: nat, k: nat ::
      && PatientParts(t, p, d, s, k) && PatientMatch(t).value == t[p..d]
      && forall p': nat, d': nat, s': nat, k': nat :: p' < p ==> !PatientParts(t, p', d', s', k')
  {
    var at := (p: nat) => PatientAt(t, p);
    var r := Leftmost(t, at, 0);
    if r.Some? {
      var (p, q) := r.value;
      assert at(p) == Some(q);
      var s := RunEnd(t, q, Space);
      var k := FirstLiteralAt(t, PatientNouns, s, 0).value;
      assert PatientParts(t, p, q, s, k);
      forall p': nat, d': nat, s': nat, k': nat | p' < p
        ensures !PatientParts(t, p', d', s', k')
      {
        assert at(p').None?;
        PatientAtNone(t, p');
      }
    } else {
      forall p: nat, d: nat, s: nat, k: nat
        ensures !PatientParts(t, p, d, s, k)
      {
        if p <= |t| {
          assert at(p).None?;
          PatientAtNone(t, p);
        }
      }
    }
  }

  // ---------------------------------------------------------------------------
  // my name is (\w+\s+\w+)|i'm (\w+\s+\w+)|this is (\w+\s+\w+)

  const NameLeads: seq<string> := ["my name is ", "i'm ", "this is "]

  /** Alternative `k` accepts at `p`: the lead-in, a word up to `w`, whitespace up to `s`, a word up to `e`. */
  predicate NameParts(t: string, p: nat, k: nat, w: nat, s: nat, e: nat)
  {
    && k < |NameLeads|
    && OccursAt(t, NameLeads[k], p)
    && p + |NameLeads[k]| < w < s < e
    && AllIn(t, p + |NameLeads[k]|, w, Word)
    && AllIn(t, w, s, Space)
    && AllIn(t, s, e, Word)
  }

  /** Where the captured name starts and ends. */
  datatype Span = Span(start: nat, end: nat)

  /** Alternatives `k` onward of the name pattern at `p`. */
  function NameFrom(t: string, p: nat, k: nat): (r: Option<Span>)
    decreases |NameLeads| - k
  {
    if k >= |NameLeads| then None
    else if OccursAt(t, NameLeads[k], p) then
      var a := p + |NameLeads[k]|;
      var w := RunEnd(t, a, Word);
      var s := RunEnd(t, w, Space);
      var e := RunEnd(t, s, Word);
      if a < w < s < e then Some(Span(a, e)) else NameFrom(t, p, k + 1)
    else NameFrom(t, p, k + 1)
  }

  /** The captured group of `text.match(name)`, whichever alternative matched. */
  function NameMatch(t: string): Option<string>
  {
    match Leftmost(t, p => NameFrom(t, p, 0), 0)
    case None => None
    case Some((_, sp)) => if sp.start <= sp.end <= |t| then Some(t[sp.start..sp.end]) else None
  }

  lemma {:induction false} NameFromSound(t: string, p: nat, k: nat)
    requires NameFrom(t, p, k).Some?
    ensures var sp := NameFrom(t, p, k).value;
      && (exists k': nat, w: nat, s: nat :: k <= k' && NameParts(t, p, k', w, s, sp.end) && sp.start == p + |NameLeads[k']|)
      && (sp.end == |t| || !IsWordChar(t[sp.end]))
    decreases |NameLeads| - k
  {
    if OccursAt(t, NameLeads[k], p) {
      var a := p + |NameLeads[k]|;
      var w := RunEnd(t, a, Word);
      var s := RunEnd(t, w, Space);
      var e := RunEnd(t, s, Word);
      if a < w < s < e {
        NamePartsOfRuns(t, p, k);
        return;
      }
    }
    NameFromSound(t, p, k + 1);
  }

  /** Where alternative `k` occurs at `p` and the three greedy runs after it are non-empty, the pattern accepts them. */
  lemma NamePartsOfRuns(t: string, p: nat, k: nat)
    requires k < |NameLeads| && OccursAt(t, NameLeads[k], p)
    ensures var a := p + |NameLeads[k]|;
      var w := RunEnd(t, a, Word);
      var s := RunEnd(t, w, Space);
      var e := RunEnd(t, s, Word);
      a < w < s < e ==> NameParts(t, p, k, w, s, e) && (e == |t| || !IsWordChar(t[e]))
  {
  }

  lemma NamePartsForced(t: string, p: nat, k: nat, w: nat, s: nat, e: nat)
    requires NameParts(t, p, k, w, s, e)
    ensures var a := p + |NameLeads[k]|;
      && w == RunEnd(t, a, Word)
      && s == RunEnd(t, w, Space)
      && e <= RunEnd(t, s, Word)
  {
    var a := p + |NameLeads[k]|;
    assert InClass(t[w], Space);
    ClassesDisjoint(t[w]);
    RunEndExact(t, a, w, Word);
    assert InClass(t[s], Word);
    ClassesDisjoint(t[s]);
    assert !InClass(t[s], Space);
    RunEndExact(t, w, s, Space);
    RunEndIsLongest(t, s, e, Word);
  }

  lemma {:induction false} NameFromComplete(t: string, p: nat, k: nat, k': nat, w: nat, s: nat, e: nat)
    requires k <= k' && NameParts(t, p, k', w, s, e)
    ensures NameFrom(t, p, k).Some?
    decreases |NameLeads| - k
  {
    if k < k' {
      if NameFrom(t, p, k).None? {
        NameFromComplete(t, p, k + 1, k', w, s, e);
      }
    } else {
      NamePartsForced(t, p, k, w, s, e);
    }
  }

  lemma NameFromNone(t: string, p: nat)
    requires NameFrom(t, p, 0).None?
    ensures forall k: nat, w: nat, s: nat, e: nat :: !NameParts(t, p, k, w, s, e)
  {
    forall k: nat, w: nat, s: nat, e: nat
      ensures !NameParts(t, p, k, w, s, e)
    {
      if NameParts(t, p, k, w, s, e) {
        NameFromComplete(t, p, 0, k, w, s, e);
      }
    }
  }

  /**
   * The name pattern finds something exactly when it accepts some substring;
   * the group it reports is two words separated by whitespace, the second one
   * taken whole, at the leftmost acceptable start.
   */
  lemma NameMatchSpec(t: string)
    ensures NameMatch(t).Some? <==> exists p: nat, k: nat, w: nat, s: nat, e: nat :: NameParts(t, p, k, w, s, e)
    ensures NameMatch(t).Some? ==> exists p: nat, k: nat, w: nat, s: nat, e: nat ::
      && NameParts(t, p, k, w, s, e) && NameMatch(t).value == t[p + |NameLeads[k]|..e]
      && (e == |t| || !IsWordChar(t[e]))
      && forall p': nat, k': nat, w': nat, s': nat, e': nat :: p' < p ==> !NameParts(t, p', k', w', s', e')
  {
    var at := (p: nat) => NameFrom(t, p, 0);
    var r := Leftmost(t, at, 0);
    if r.Some? {
      var (p, sp) := r.value;
      assert at(p) == Some(sp);
      NameFromSound(t, p, 0);
      var k, w, s :| 0 <= k && NameParts(t, p, k, w, s, sp.end) && sp.start == p + |NameLeads[k]|;
      forall p': nat, k': nat, w': nat, s': nat, e': nat | p' < p
        ensures !NameParts(t, p', k', w', s', e')
      {
        assert at(p').None?;
        NameFromNone(t, p');
      }
    } else {
      forall p: nat, k: nat, w: nat, s: nat, e: nat
        ensures !NameParts(t, p, k, w, s, e)
      {
        if p <= |t| {
          assert at(p).None?;
          NameFromNone(t, p);
        }
      }
    }
  }

  // ---------------------------------------------------------------------------
  // my (husband|wife|son|daughter|father|mother|brother|sister|friend)

  const Relations: seq<string> :=
    ["husband", "wife", "son", "daughter", "father", "mother", "brother", "sister", "friend"]

  /** The relationship pattern tried at `p`: the index of the relation word. */
  function RelationAt(t: string, p: nat): Option<nat>
  {
    if OccursAt(t, "my ", p) then FirstLiteralAt(t, Relations, p + 3, 0) else None
  }

  /** `text.match(relationship)?.[1]` */
  function RelationMatch(t: string): (r: Option<string>)
    ensures r.Some? ==> r.value in Relations
  {
    match Leftmost(t, p => RelationAt(t, p), 0)
    case None => None
    case Some((_, k)) => Some(Relations[k])
  }

  /**
   * The relation found is the first word of the list written after the
   * leftmost `my ` that is followed by one of them; nothing is found when no
   * `my ` is followed by one.
   */
  lemma RelationMatchSpec(t: string)
    ensures RelationMatch(t).Some? <==>
      exists p: nat, k :: 0 <= k < |Relations| && OccursAt(t, "my ", p) && OccursAt(t, Relations[k], p + 3)
    ensures RelationMatch(t).Some? ==> exists p: nat, k ::
      && 0 <= k < |Relations| && OccursAt(t, "my ", p) && OccursAt(t, Relations[k], p + 3)
      && RelationMatch(t).value == Relations[k]
      && (forall k' :: 0 <= k' < k ==> !OccursAt(t, Relations[k'], p + 3))
      && forall p': nat, k' :: p' < p && 0 <= k' < |Relations| && OccursAt(t, "my ", p') ==> !OccursAt(t, Relations[k'], p' + 3)
  {
    if RelationMatch(t).Some? {
      RelationMatchFound(t);
    }
    forall p: nat, k | 0 <= k < |Relations| && OccursAt(t, "my ", p) && OccursAt(t, Relations[k], p + 3)
      ensures RelationMatch(t).Some?
    {
      RelationAfterMyIsFound(t, p, k);
    }
  }

  /** The relation found is at the leftmost `my `, and is the first listed word there. */
  lemma RelationMatchFound(t: string)
    requires RelationMatch(t).Some?
    ensures exists p: nat, k ::
      && 0 <= k < |Relations| && OccursAt(t, "my ", p) && OccursAt(t, Relations[k], p + 3)
      && RelationMatch(t).value == Relations[k]
      && (forall k' :: 0 <= k' < k ==> !OccursAt(t, Relations[k'], p + 3))
      && forall p': nat, k' :: p' < p && 0 <= k' < |Relations| && OccursAt(t, "my ", p') ==> !OccursAt(t, Relations[k'], p' + 3)
  {
    var at := (p: nat) => RelationAt(t, p);
    var (p, k) := Leftmost(t, at, 0).value;
    assert RelationAt(t, p) == Some(k);
    assert OccursAt(t, "my ", p);
    forall p': nat, k' | p' < p && 0 <= k' < |Relations| && OccursAt(t, "my ", p')
      ensures !OccursAt(t, Relations[k'], p' + 3)
    {
      assert at(p').None?;
      assert FirstLiteralAt(t, Relations, p' + 3, 0).None?;
    }
  }

  /** A listed word after some `my ` is found. */
  lemma RelationAfterMyIsFound(t: string, p: nat, k: nat)
    requires k < |Relations| && OccursAt(t, "my ", p) && OccursAt(t, Relations[k], p + 3)
    ensures RelationMatch(t).Some?
  {
    var at := (p: nat) => RelationAt(t, p);
    assert FirstLiteralAt(t, Relations, p + 3, 0).Some?;
    assert at(p).Some?;
    assert p <= |t|;
  }
}
