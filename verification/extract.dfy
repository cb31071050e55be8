/** The tolerant JSON extraction of services/geminiService.ts: whole-text parse,
    then the body of the first "```json" fence, then the widest `[ … { … } … ]`
    span, else the error "Could not parse JSON response from Gemini.".

    Each regular expression is specified twice: declaratively, as the set of
    index tuples it matches together with the match JavaScript's backtracking
    reports, and operationally, as a finder built from plain searches. The
    finders are proved to return exactly the reported match. */
module Extract {
  import opened Results
  import opened Text
  import opened Json

  const FenceOpen: string := "```json"
  const FenceClose: string := "```"
  const ExtractionFailed: string := "Could not parse JSON response from Gemini."

  // ---------------------------------------------------------------------------
  // Stage 2: /```json\s*([\s\S]*?)\s*```/
  // ---------------------------------------------------------------------------

  /** The regex matches s[i..e + 3] with group 1 = s[g0..g1]: the opening fence at
      i, whitespace up to g0, the group, whitespace from g1 up to the closing fence
      at e. */
  predicate FenceMatch(s: string, i: int, g0: int, g1: int, e: int) {
    && HasAt(s, i, FenceOpen)
    && AllSpace(s, i + |FenceOpen|, g0)
    && g0 <= g1
    && AllSpace(s, g1, e)
    && HasAt(s, e, FenceClose)
  }

  /** The match String.prototype.match reports: the leftmost start; at that start
      the greedy `\s*` takes as much as it can, then the lazy group as little as
      it can. */
  ghost predicate SelectedFence(s: string, i: int, g0: int, g1: int, e: int) {
    && FenceMatch(s, i, g0, g1, e)
    && forall i', g0', g1', e' :: FenceMatch(s, i', g0', g1', e') ==>
         && i <= i'
         && (i' == i ==> g0' <= g0)
         && (i' == i && g0' == g0 ==> g1 <= g1')
  }

  datatype FenceHit = FenceHit(start: nat, capStart: nat, capEnd: nat, close: nat)

  /** First "```json", skip whitespace, first "```" after that, and the group
      ends where the whitespace before that "```" begins. */
  function FindFence(s: string): (r: Option<FenceHit>)
    ensures r.Some? ==> FenceMatch(s, r.value.start, r.value.capStart, r.value.capEnd, r.value.close)
  {
    match IndexOf(s, FenceOpen, 0)
    case None => None
    case Some(i) =>
      var b := SkipSpaces(s, i + |FenceOpen|);
      match IndexOf(s, FenceClose, b)
      case None => None
      case Some(q) => Some(FenceHit(i, b, TrimSpacesBack(s, b, q), q))
  }

  lemma CharsOf(s: string, i: int, w: string)
    requires HasAt(s, i, w)
    ensures forall k :: 0 <= k < |w| ==> s[i + k] == w[k]
  {
    forall k | 0 <= k < |w|
      ensures s[i + k] == w[k]
    {
      assert s[i..i + |w|][k] == s[i + k];
    }
  }

  /** Two occurrences of "```json" cannot overlap. */
  lemma FenceOpenNoOverlap(s: string, i: int, i': int)
    requires HasAt(s, i, FenceOpen) && HasAt(s, i', FenceOpen) && i < i'
    ensures i + |FenceOpen| <= i'
  {
    assert FenceOpen == ['`', '`', '`', 'j', 's', 'o', 'n'];
    CharsOf(s, i, FenceOpen);
    CharsOf(s, i', FenceOpen);
    assert s[i' + 0] == FenceOpen[0] && s[i' + 1] == FenceOpen[1] && s[i' + 2] == FenceOpen[2];
    assert s[i + 3] == FenceOpen[3] && s[i + 4] == FenceOpen[4] && s[i + 5] == FenceOpen[5] && s[i + 6] == FenceOpen[6];
  }

  /** Any fence match starts at or after the first "```json", closes no earlier
      than the end b of the whitespace after it, and, when it starts there, its
      leading whitespace stops at or before b. */
  lemma FenceMatchBounds(s: string, i: nat, i': int, g0: int, g1: int, e: int)
    requires HasAt(s, i, FenceOpen)
    requires forall k :: 0 <= k < i ==> !HasAt(s, k, FenceOpen)
    requires FenceMatch(s, i', g0, g1, e)
    ensures i <= i'
    ensures e >= SkipSpaces(s, i + |FenceOpen|)
    ensures i' == i ==> g0 <= SkipSpaces(s, i + |FenceOpen|)
  {
    CharsOf(s, e, FenceClose);
    CharsOf(s, i', FenceOpen);
    assert s[e] == '`' && s[i'] == '`';
    if i' == i {
      SkipSpacesPastRun(s, i + |FenceOpen|, g0);
      SkipSpacesStops(s, i + |FenceOpen|, e);
    } else {
      FenceOpenNoOverlap(s, i, i');
      SkipSpacesStops(s, i + |FenceOpen|, i');
    }
  }

  /** FindFence returns exactly the match the regex reports, and nothing when
      the regex does not match. */
  lemma FindFenceSelects(s: string)
    ensures FindFence(s).Some? ==>
      var h := FindFence(s).value; SelectedFence(s, h.start, h.capStart, h.capEnd, h.close)
    ensures FindFence(s).None? <==> forall i, g0, g1, e :: !FenceMatch(s, i, g0, g1, e)
  {
    match IndexOf(s, FenceOpen, 0)
    case None =>
      forall i, g0, g1, e
        ensures !FenceMatch(s, i, g0, g1, e)
      {
      }
    case Some(i) =>
      var b := SkipSpaces(s, i + |FenceOpen|);
      match IndexOf(s, FenceClose, b)
      case None =>
        forall i', g0, g1, e
          ensures !FenceMatch(s, i', g0, g1, e)
        {
          if FenceMatch(s, i', g0, g1, e) {
            FenceMatchBounds(s, i, i', g0, g1, e);
          }
        }
      case Some(q) =>
        var c := TrimSpacesBack(s, b, q);
        forall i', g0, g1, e | FenceMatch(s, i', g0, g1, e)
          ensures i <= i'
          ensures i' == i ==> g0 <= b
          ensures i' == i && g0 == b ==> c <= g1
        {
          FenceMatchBounds(s, i, i', g0, g1, e);
          if b <= g1 <= q {
            TrimSpacesBackMinimal(s, b, q, g1);
          }
        }
  }

  /** Neighbouring matches: moving a boundary of the group across a whitespace
      character at its edge, or ending the group at a closing fence inside it,
      again gives a match. */
  lemma FenceMatchNeighbours(s: string, i: int, g0: int, g1: int, e: int)
    requires FenceMatch(s, i, g0, g1, e)
    ensures g0 < g1 && IsSpace(s[g0]) ==> FenceMatch(s, i, g0 + 1, g1, e)
    ensures g0 < g1 && IsSpace(s[g1 - 1]) ==> FenceMatch(s, i, g0, g1 - 1, e)
    ensures forall k :: g0 <= k < g1 && HasAt(s, k, FenceClose) ==> FenceMatch(s, i, g0, k, k)
  {
  }

  /** The reported capture is trimmed of whitespace at both ends and never
      contains the closing fence: the lazy group stops at the first "```". */
  lemma FenceCaptureShape(s: string, i: int, g0: int, g1: int, e: int)
    requires SelectedFence(s, i, g0, g1, e)
    ensures g0 < g1 ==> !IsSpace(s[g0]) && !IsSpace(s[g1 - 1])
    ensures forall k :: g0 <= k < g1 ==> !HasAt(s, k, FenceClose)
  {
    FenceMatchNeighbours(s, i, g0, g1, e);
  }

  /** The reported fence match is unique. */
  lemma SelectedFenceUnique(s: string, i: int, g0: int, g1: int, e: int,
                                       i': int, g0': int, g1': int, e': int)
    requires SelectedFence(s, i, g0, g1, e) && SelectedFence(s, i', g0', g1', e')
    ensures i == i' && g0 == g0' && g1 == g1' && e == e'
  {
    CharsOf(s, e, FenceClose);
    CharsOf(s, e', FenceClose);
    SkipSpacesUnique(s, g1, e);
    SkipSpacesUnique(s, g1', e');
  }

  // ---------------------------------------------------------------------------
  // Stage 3: /\[\s*\{[\s\S]*\}\s*\]/
  // ---------------------------------------------------------------------------

  /** The regex matches s[i..k + 1]: '[' at i, whitespace, '{' at j, anything,
      '}' at p, whitespace, ']' at k. */
  predicate ArrayMatch(s: string, i: int, j: int, p: int, k: int) {
    && 0 <= i < |s| && s[i] == '['
    && AllSpace(s, i + 1, j) && j < |s| && s[j] == '{'
    && j < p && AllSpace(s, p + 1, k) && k < |s|
    && s[p] == '}' && s[k] == ']'
  }

  /** The match JavaScript reports: the leftmost start, then the greedy body
      `[\s\S]*` reaching the last possible '}'. */
  ghost predicate SelectedArray(s: string, i: int, j: int, p: int, k: int) {
    && ArrayMatch(s, i, j, p, k)
    && forall i', j', p', k' :: ArrayMatch(s, i', j', p', k') ==>
         i <= i' && (i' == i ==> p' <= p)
  }

  /** '[' at i followed, after optional whitespace, by '{'. */
  predicate OpensArray(s: string, i: int) {
    0 <= i < |s| && s[i] == '[' && SkipSpaces(s, i + 1) < |s| && s[SkipSpaces(s, i + 1)] == '{'
  }

  /** '}' at p followed, after optional whitespace, by ']'. */
  predicate ClosesArray(s: string, p: int) {
    0 <= p < |s| && s[p] == '}' && SkipSpaces(s, p + 1) < |s| && s[SkipSpaces(s, p + 1)] == ']'
  }

  /** The leftmost opener at or after `from`. */
  function FirstOpener(s: string, from: nat): (r: Option<nat>)
    ensures r.Some? ==> from <= r.value && OpensArray(s, r.value)
    ensures r.Some? ==> forall i :: from <= i < r.value ==> !OpensArray(s, i)
    ensures r.None? ==> forall i :: from <= i ==> !OpensArray(s, i)
    decreases |s| - from
  {
    if from >= |s| then None
    else if OpensArray(s, from) then Some(from)
    else FirstOpener(s, from + 1)
  }

  /** The rightmost closer in [lo, hi). */
  function LastCloser(s: string, lo: nat, hi: nat): (r: Option<nat>)
    requires hi <= |s|
    ensures r.Some? ==> lo <= r.value < hi && ClosesArray(s, r.value)
    ensures r.Some? ==> forall p :: r.value < p < hi ==> !ClosesArray(s, p)
    ensures r.None? ==> forall p :: lo <= p < hi ==> !ClosesArray(s, p)
    decreases hi
  {
    if hi <= lo then None
    else if ClosesArray(s, hi - 1) then Some(hi - 1)
    else LastCloser(s, lo, hi - 1)
  }

  datatype ArrayHit = ArrayHit(start: nat, brace: nat, close: nat, end: nat)

  /** First opener, then the last closer after its '{'. */
  function FindArray(s: string): (r: Option<ArrayHit>)
    ensures r.Some? ==> ArrayMatch(s, r.value.start, r.value.brace, r.value.close, r.value.end)
  {
    match FirstOpener(s, 0)
    case None => None
    case Some(i) =>
      var j := SkipSpaces(s, i + 1);
      match LastCloser(s, j + 1, |s|)
      case None => None
      case Some(p) => Some(ArrayHit(i, j, p, SkipSpaces(s, p + 1)))
  }

  /** Every match starts at an opener and ends at a closer. */
  lemma ArrayMatchEnds(s: string, i: int, j: int, p: int, k: int)
    requires ArrayMatch(s, i, j, p, k)
    ensures OpensArray(s, i) && j == SkipSpaces(s, i + 1)
    ensures ClosesArray(s, p) && k == SkipSpaces(s, p + 1)
  {
    SkipSpacesUnique(s, i + 1, j);
    SkipSpacesUnique(s, p + 1, k);
  }

  /** An opener after the first one has its '{' after the first one's '{'. */
  lemma LaterOpenerLaterBrace(s: string, i: nat, i': int)
    requires OpensArray(s, i) && OpensArray(s, i') && i < i'
    ensures SkipSpaces(s, i + 1) < i'
  {
    SkipSpacesStops(s, i + 1, i');
  }

  /** FindArray returns exactly the match the regex reports, and nothing when
      the regex does not match. */
  lemma FindArraySelects(s: string)
    ensures FindArray(s).Some? ==>
      var h := FindArray(s).value; SelectedArray(s, h.start, h.brace, h.close, h.end)
    ensures FindArray(s).None? <==> forall i, j, p, k :: !ArrayMatch(s, i, j, p, k)
  {
    match FirstOpener(s, 0)
    case None =>
      forall i, j, p, k
        ensures !ArrayMatch(s, i, j, p, k)
      {
        if ArrayMatch(s, i, j, p, k) {
          ArrayMatchEnds(s, i, j, p, k);
        }
      }
    case Some(i0) =>
      var j0 := SkipSpaces(s, i0 + 1);
      var found := LastCloser(s, j0 + 1, |s|);
      forall i, j, p, k | ArrayMatch(s, i, j, p, k)
        ensures i0 <= i && j0 + 1 <= p
        ensures i == i0 ==> j == j0
      {
        ArrayMatchEnds(s, i, j, p, k);
        if i0 < i {
          LaterOpenerLaterBrace(s, i0, i);
        }
      }
      if found.None? {
        forall i, j, p, k
          ensures !ArrayMatch(s, i, j, p, k)
        {
          if ArrayMatch(s, i, j, p, k) {
            ArrayMatchEnds(s, i, j, p, k);
          }
        }
      } else {
        forall i, j, p, k | ArrayMatch(s, i, j, p, k)
          ensures i == i0 ==> p <= found.value
        {
          ArrayMatchEnds(s, i, j, p, k);
        }
      }
  }

  /** The reported array match is unique. */
  lemma SelectedArrayUnique(s: string, i: int, j: int, p: int, k: int,
                                       i': int, j': int, p': int, k': int)
    requires SelectedArray(s, i, j, p, k) && SelectedArray(s, i', j', p', k')
    ensures i == i' && j == j' && p == p' && k == k'
  {
    ArrayMatchEnds(s, i, j, p, k);
    ArrayMatchEnds(s, i', j', p', k');
  }

  /** Neither regex can match text without a backquote or a '['. */
  lemma NoMatchWithout(s: string, i: int, g0: int, g1: int, e: int, j: int, p: int, k: int)
    ensures FenceMatch(s, i, g0, g1, e) ==> 0 <= i < |s| && s[i] == '`'
    ensures ArrayMatch(s, i, j, p, k) ==> 0 <= i < |s| && s[i] == '['
  {
    if FenceMatch(s, i, g0, g1, e) {
      CharsOf(s, i, FenceOpen);
    }
  }

  // ---------------------------------------------------------------------------
  // The fallback chain
  // ---------------------------------------------------------------------------

  /** Stage 2: the parse of the fenced capture; None when the regex does not
      match, when the capture is empty (a falsy `match[1]`), or when the capture
      does not parse. */
  function FenceStage(parse: Parser, text: string): (r: Option<Json>)
    ensures r.Some? ==> exists lo, hi ::
      && 0 <= lo < hi <= |text| && parse(text[lo..hi]) == r
      && !IsSpace(text[lo]) && !IsSpace(text[hi - 1])
      && forall k :: lo <= k < hi ==> !HasAt(text, k, FenceClose)
  {
    match FindFence(text)
    case None => None
    case Some(h) =>
      FindFenceSelects(text);
      FenceCaptureShape(text, h.start, h.capStart, h.capEnd, h.close);
      if h.capStart < h.capEnd then parse(text[h.capStart..h.capEnd]) else None
  }

  /** Stage 3: the parse of the matched span, None when there is no match or
      the span does not parse. */
  function ArrayStage(parse: Parser, text: string): (r: Option<Json>)
    ensures r.Some? ==> exists lo, hi ::
      && 0 <= lo < hi <= |text| && parse(text[lo..hi]) == r
      && text[lo] == '[' && text[hi - 1] == ']'
  {
    match FindArray(text)
    case None => None
    case Some(h) => parse(text[h.start..h.end + 1])
  }

  /** extractJson: the first stage that yields a value wins; when none does, the
      call throws. The value is always the parse of a contiguous piece of the
      text: malformed JSON is located, never repaired. */
  function ExtractJson(parse: Parser, text: string): (r: Result<Json, string>)
    ensures parse(text).Some? ==> r == Ok(parse(text).value)
    ensures r.Err? ==> r.error == ExtractionFailed
    ensures r.Ok? ==> exists lo, hi :: 0 <= lo <= hi <= |text| && parse(text[lo..hi]) == Some(r.value)
  {
    match parse(text)
    case Some(v) =>
      assert text[0..|text|] == text;
      Ok(v)
    case None =>
      match FenceStage(parse, text)
      case Some(v) => Ok(v)
      case None =>
        match ArrayStage(parse, text)
        case Some(v) => Ok(v)
        case None => Err(ExtractionFailed)
  }

  /** Every reported fence match has an empty capture or one that does not
      parse (vacuously so when the regex does not match). */
  ghost predicate FenceFallsThrough(parse: Parser, text: string) {
    forall i, g0, g1, e :: SelectedFence(text, i, g0, g1, e) ==> g0 == g1 || parse(text[g0..g1]).None?
  }

  /** Every reported array match fails to parse (vacuously so when the regex
      does not match). */
  ghost predicate ArrayFails(parse: Parser, text: string) {
    forall i, j, p, k :: SelectedArray(text, i, j, p, k) ==> parse(text[i..k + 1]).None?
  }

  /** Stage 2 in terms of the regex: it yields the parse of the reported
      non-empty capture, and nothing exactly when the stage falls through. */
  lemma FenceStageMeaning(parse: Parser, text: string)
    ensures FenceStage(parse, text).None? <==> FenceFallsThrough(parse, text)
    ensures forall i, g0, g1, e :: SelectedFence(text, i, g0, g1, e) && g0 < g1 ==>
      FenceStage(parse, text) == parse(text[g0..g1])
  {
    FindFenceSelects(text);
    match FindFence(text)
    case None =>
    case Some(h) =>
      forall i, g0, g1, e | SelectedFence(text, i, g0, g1, e)
        ensures i == h.start && g0 == h.capStart && g1 == h.capEnd
      {
        SelectedFenceUnique(text, i, g0, g1, e, h.start, h.capStart, h.capEnd, h.close);
      }
  }

  /** Stage 3 in terms of the regex: it yields the parse of the reported span,
      and nothing exactly when that fails or there is no match. */
  lemma ArrayStageMeaning(parse: Parser, text: string)
    ensures ArrayStage(parse, text).None? <==> ArrayFails(parse, text)
    ensures forall i, j, p, k :: SelectedArray(text, i, j, p, k) ==>
      ArrayStage(parse, text) == parse(text[i..k + 1])
  {
    FindArraySelects(text);
    match FindArray(text)
    case None =>
    case Some(h) =>
      forall i, j, p, k | SelectedArray(text, i, j, p, k)
        ensures i == h.start && k == h.end
      {
        SelectedArrayUnique(text, i, j, p, k, h.start, h.brace, h.close, h.end);
      }
  }

  /** When the whole text does not parse, a non-empty fenced capture that
      parses is the result; the array stage is not consulted. */
  lemma ExtractFromFence(parse: Parser, text: string, i: int, g0: int, g1: int, e: int)
    requires parse(text).None?
    requires SelectedFence(text, i, g0, g1, e) && g0 < g1 && parse(text[g0..g1]).Some?
    ensures ExtractJson(parse, text) == Ok(parse(text[g0..g1]).value)
  {
    FenceStageMeaning(parse, text);
  }

  /** When the fence stage falls through, the reported array span decides. */
  lemma ExtractFromArray(parse: Parser, text: string, i: int, j: int, p: int, k: int)
    requires parse(text).None? && FenceFallsThrough(parse, text)
    requires SelectedArray(text, i, j, p, k)
    ensures parse(text[i..k + 1]).Some? ==> ExtractJson(parse, text) == Ok(parse(text[i..k + 1]).value)
    ensures parse(text[i..k + 1]).None? ==> ExtractJson(parse, text) == Err(ExtractionFailed)
  {
    FenceStageMeaning(parse, text);
    ArrayStageMeaning(parse, text);
  }

  /** extractJson throws exactly when all three stages come up empty. */
  lemma ExtractFailsIff(parse: Parser, text: string)
    ensures ExtractJson(parse, text).Err? <==>
      parse(text).None? && FenceFallsThrough(parse, text) && ArrayFails(parse, text)
  {
    FenceStageMeaning(parse, text);
    ArrayStageMeaning(parse, text);
  }
}
