/** The text extractors of `backend/app/utils.py`, whose regular expressions are
    also repeated inline in `agent.py` and `orchestration.py`.

    Question extraction searches `(?:^|[\.\n])\s*([^\.]+\?)`. Because `[^\.]`
    also matches newlines and whitespace, a match can never cross a `.`, the
    group always ends at the last `?` before the next `.`, and a match that
    starts after a newline is always preceded by one that starts at the
    beginning of the same `.`-separated piece. So the search is the same as:
    split the text on `.`, take the first piece holding a `?` at offset 1 or
    more, and keep that piece up to its last `?`; `strip()` then removes the
    whitespace `\s*` may or may not have consumed. A `?` at offset 1 or more
    in its piece is exactly a `?` whose predecessor is not a `.`
    (`QualifyingMark`), which gives the characterisations below.

    JSON extraction searches a fenced block (leftmost opening, shortest body,
    `re.DOTALL`), then the span from the first `{` to the last `}`. */
module Extract {
  import opened Wrappers
  import opened Strings
  import opened Json

  /** A half-open index range `[lo, hi)` of a text. */
  datatype Span = Span(lo: nat, hi: nat)

  // ---------------------------------------------------------------- questions

  /** Index of the first `.` at or after `from`, or `|text|`. */
  function NextDot(text: string, from: nat): (k: nat)
    requires from <= |text|
    ensures from <= k <= |text|
    ensures k < |text| ==> text[k] == '.'
    ensures forall i :: from <= i < k ==> text[i] != '.'
    decreases |text| - from
  {
    if from == |text| || text[from] == '.' then from else NextDot(text, from + 1)
  }

  /** A `?` that the question regex can end a match on: it is not the first
      character of its `.`-separated piece. */
  predicate QualifyingMark(text: string, q: int) {
    1 <= q < |text| && text[q] == '?' && text[q - 1] != '.'
  }

  /** The last `?` in `text[lo+1..hi]`. */
  function LastMark(text: string, lo: nat, hi: nat): (q: Option<nat>)
    requires lo <= hi <= |text|
    ensures q.Some? ==> lo < q.value < hi && text[q.value] == '?'
    ensures q.Some? ==> forall k :: q.value < k < hi ==> text[k] != '?'
    ensures q.None? ==> forall k :: lo < k < hi ==> text[k] != '?'
    decreases hi
  {
    if hi <= lo + 1 then None
    else if text[hi - 1] == '?' then Some(hi - 1)
    else LastMark(text, lo, hi - 1)
  }

  /** `sp` is the regex group (before stripping) of the first match at or after
      the piece starting at `start`. */
  ghost predicate IsQuestionSpan(text: string, start: nat, sp: Span) {
    && start <= sp.lo && sp.lo + 2 <= sp.hi <= |text|
    && (sp.lo == 0 || text[sp.lo - 1] == '.')
    && text[sp.hi - 1] == '?'
    && (forall k :: sp.lo <= k < sp.hi ==> text[k] != '.')
    && sp.hi <= NextDot(text, sp.lo)
    && (forall k :: sp.hi <= k < NextDot(text, sp.lo) ==> text[k] != '?')
    && (forall q :: start <= q < sp.lo ==> !QualifyingMark(text, q))
  }

  /** The search, piece by piece, from the piece that starts at `start`. */
  function QuestionSpanFrom(text: string, start: nat): (r: Option<Span>)
    requires start <= |text|
    requires start == 0 || text[start - 1] == '.'
    ensures r.None? <==> forall q :: start <= q < |text| ==> !QualifyingMark(text, q)
    ensures r.Some? ==> IsQuestionSpan(text, start, r.value)
    decreases |text| - start
  {
    var end := NextDot(text, start);
    match LastMark(text, start, end)
    case Some(q) =>
      assert QualifyingMark(text, q);
      Some(Span(start, q + 1))
    case None =>
      if end == |text| then None
      else
        var r := QuestionSpanFrom(text, end + 1);
        assert forall q :: start <= q <= end ==> !QualifyingMark(text, q);
        r
  }

  /** The group of `re.search(r'(?:^|[\.\n])\s*([^\.]+\?)', text)`, unstripped. */
  function QuestionSpan(text: string): Option<Span> {
    QuestionSpanFrom(text, 0)
  }

  /** The stripped group still ends with its `?`, has no `.`, and lies inside `text`. */
  lemma StripGroup(text: string, sp: Span)
    requires sp.lo + 1 <= sp.hi <= |text| && text[sp.hi - 1] == '?'
    requires forall k :: sp.lo <= k < sp.hi ==> text[k] != '.'
    ensures var s := Strip(text[sp.lo..sp.hi]);
      && |s| >= 1 && s[|s| - 1] == '?' && !IsSpace(s[0])
      && (forall k :: 0 <= k < |s| ==> s[k] != '.')
      && IsSubstring(s, text)
  {
    var g := text[sp.lo..sp.hi];
    var s := Strip(g);
    var o := StripOffset(g);
    assert g[|g| - 1] == '?' && !IsSpace('?');
    assert o + |s| == |g| by {
      assert !IsSpace(g[|g| - 1]);
    }
    assert |s| >= 1;
    assert s[|s| - 1] == g[|g| - 1];
    SliceOfSlice(text, sp.lo, sp.hi, o, o + |s|);
    assert s == text[sp.lo + o..sp.lo + o + |s|];
    assert OccursAt(text, sp.lo + o, s);
  }

  /** `match.group(1).strip()` when the question regex matches `text`. */
  function QuestionMatch(text: string): (r: Option<string>)
    ensures r.None? <==> forall q :: 0 <= q < |text| ==> !QualifyingMark(text, q)
    ensures r.Some? ==> |r.value| >= 1 && r.value[|r.value| - 1] == '?' && !IsSpace(r.value[0])
    ensures r.Some? ==> forall k :: 0 <= k < |r.value| ==> r.value[k] != '.'
    ensures r.Some? ==> IsSubstring(r.value, text)
  {
    match QuestionSpan(text)
    case None => None
    case Some(sp) =>
      StripGroup(text, sp);
      Some(Strip(text[sp.lo..sp.hi]))
  }

  /** `extract_question_from_text`: the stripped question the regex finds, or
      the whole stripped text when it finds none. Without a `?` the regex can end
      on, in particular without any `?`, the extraction is the stripped text;
      with one, it is a question ending in `?` and holding no `.`. Either way it
      is a piece of `text`. */
  function ExtractQuestion(text: string): (r: string)
    ensures (forall q :: 0 <= q < |text| ==> !QualifyingMark(text, q)) ==> r == Strip(text)
    ensures !Contains(text, '?') ==> r == Strip(text)
    ensures (exists q :: 0 <= q < |text| && QualifyingMark(text, q)) ==>
              |r| >= 1 && r[|r| - 1] == '?' && forall k :: 0 <= k < |r| ==> r[k] != '.'
    ensures IsSubstring(r, text)
  {
    match QuestionMatch(text)
    case Some(g) => g
    case None =>
      assert OccursAt(text, StripOffset(text), Strip(text));
      Strip(text)
  }

  /** A stripped question without `.` is its own extraction. */
  lemma {:induction false} QuestionIsFixedPoint(r: string)
    requires |r| >= 1 && r[|r| - 1] == '?'
    requires forall k :: 0 <= k < |r| ==> r[k] != '.'
    requires !IsSpace(r[0])
    ensures ExtractQuestion(r) == r
  {
    StripTight(r);
    if |r| >= 2 {
      assert QualifyingMark(r, |r| - 1);
      var sp := QuestionSpan(r).value;
      assert NextDot(r, 0) == |r|;
      assert sp.hi == |r|;
      assert sp.lo == 0;
      assert r[sp.lo..sp.hi] == r;
    } else {
      assert forall q :: 0 <= q < |r| ==> !QualifyingMark(r, q);
    }
  }

  /** Stripping cannot create a `?` the question regex can end on. */
  lemma {:induction false} StripKeepsNoMark(text: string)
    requires forall q :: 0 <= q < |text| ==> !QualifyingMark(text, q)
    ensures forall q :: 0 <= q < |Strip(text)| ==> !QualifyingMark(Strip(text), q)
  {
    var r := Strip(text);
    var o := StripOffset(text);
    forall q | 0 <= q < |r|
      ensures !QualifyingMark(r, q)
    {
      if QualifyingMark(r, q) {
        assert r[q] == text[o + q] && r[q - 1] == text[o + q - 1];
        assert QualifyingMark(text, o + q);
      }
    }
  }

  /** Extracting a question from an extracted question changes nothing. */
  lemma ExtractQuestionIdempotent(text: string)
    ensures ExtractQuestion(ExtractQuestion(text)) == ExtractQuestion(text)
  {
    if QuestionMatch(text).Some? {
      IdempotentOnMatch(text);
    } else {
      IdempotentWithoutMatch(text);
    }
  }

  lemma IdempotentOnMatch(text: string)
    requires QuestionMatch(text).Some?
    ensures ExtractQuestion(ExtractQuestion(text)) == ExtractQuestion(text)
  {
    var r := QuestionMatch(text).value;
    assert ExtractQuestion(text) == r;
    QuestionIsFixedPoint(r);
  }

  lemma IdempotentWithoutMatch(text: string)
    requires QuestionMatch(text).None?
    ensures ExtractQuestion(ExtractQuestion(text)) == ExtractQuestion(text)
  {
    assert ExtractQuestion(text) == Strip(text);
    StripKeepsNoMark(text);
    assert QuestionMatch(Strip(text)).None?;
    StripIdempotent(text);
  }

  // ---------------------------------------------------------------- JSON

  const FenceOpenTagged: string := "```json\n"
  const FenceOpenPlain: string := "```\n"
  const FenceClose: string := "\n```"

  /** Where a fence body starts if a fence opens at `p`: `(?:json)?` is greedy, so
      the `json` tag is tried first. With `tagged` only the tagged opening counts
      (the `'```json\n(.*?)\n```'` pattern of `agent.py`). */
  function OpeningAt(text: string, p: nat, tagged: bool): (s: Option<nat>)
    ensures s.Some? ==> s.value <= |text|
    ensures s.Some? ==> (HasAt(text, p, FenceOpenTagged) && s.value == p + 8)
                        || (!tagged && HasAt(text, p, FenceOpenPlain) && s.value == p + 4)
    ensures s.None? ==> !HasAt(text, p, FenceOpenTagged) && (tagged || !HasAt(text, p, FenceOpenPlain))
  {
    if HasAt(text, p, FenceOpenTagged) then Some(p + 8)
    else if !tagged && HasAt(text, p, FenceOpenPlain) then Some(p + 4)
    else None
  }

  /** The first closing `\n```` at or after `from`: the lazy body stops there. */
  function CloseFrom(text: string, from: nat): (e: Option<nat>)
    requires from <= |text|
    ensures e.Some? ==> from <= e.value && HasAt(text, e.value, FenceClose)
    ensures e.Some? ==> forall k :: from <= k < e.value ==> !HasAt(text, k, FenceClose)
    ensures e.None? ==> forall k :: from <= k <= |text| ==> !HasAt(text, k, FenceClose)
    decreases |text| - from
  {
    if from + |FenceClose| > |text| then None
    else if HasAt(text, from, FenceClose) then Some(from)
    else CloseFrom(text, from + 1)
  }

  /** A plain opening is never a tagged one: they differ at the fourth character. */
  lemma OpeningsExclusive(text: string, p: nat)
    ensures HasAt(text, p, FenceOpenPlain) ==> !HasAt(text, p, FenceOpenTagged)
  {
    if HasAt(text, p, FenceOpenPlain) && p + 8 <= |text| {
      assert text[p..p + 8][3] == text[p + 3] == text[p..p + 4][3] == '\n';
    }
  }

  /** The body of a fence whose opening starts at `p`, if it is closed: it starts
      right after the opening (tagged when `tagged` is set, the tag tried first),
      and ends at the first closing after its start. An opening followed by any
      closing gives a body. */
  function FenceAt(text: string, p: nat, tagged: bool): (body: Option<Span>)
    ensures body.Some? ==> body.value.lo <= body.value.hi && HasAt(text, body.value.hi, FenceClose)
    ensures body.Some? ==>
      || (HasAt(text, p, FenceOpenTagged) && body.value.lo == p + 8)
      || (!tagged && !HasAt(text, p, FenceOpenTagged) && HasAt(text, p, FenceOpenPlain) && body.value.lo == p + 4)
    ensures body.Some? ==> forall k :: body.value.lo <= k < body.value.hi ==> !HasAt(text, k, FenceClose)
    ensures HasAt(text, p, FenceOpenTagged) && (exists k :: p + 8 <= k && HasAt(text, k, FenceClose)) ==> body.Some?
    ensures !tagged && HasAt(text, p, FenceOpenPlain) && (exists k :: p + 4 <= k && HasAt(text, k, FenceClose)) ==>
      body.Some?
  {
    OpeningsExclusive(text, p);
    match OpeningAt(text, p, tagged)
    case None => None
    case Some(s) =>
      match CloseFrom(text, s)
      case None => None
      case Some(e) => Some(Span(s, e))
  }

  /** A fence found by `re.search`: where it opens and where its body lies. */
  datatype Fence = Fence(open: nat, body: Span)

  /** Whether a fence opens at each position of `text`. */
  function FenceScan(text: string, tagged: bool): (opens: nat -> bool)
    ensures forall k: nat :: opens(k) == FenceAt(text, k, tagged).Some?
  {
    (k: nat) => FenceAt(text, k, tagged).Some?
  }

  /** The leftmost fence opening at or after `p`. */
  function FindFence(text: string, p: nat, tagged: bool): (r: Option<Fence>)
    requires p <= |text|
    ensures r.Some? ==> p <= r.value.open <= |text| && FenceAt(text, r.value.open, tagged) == Some(r.value.body)
  {
    match Leftmost(FenceScan(text, tagged), p, |text|)
    case None => None
    case Some(k) => Some(Fence(k, FenceAt(text, k, tagged).value))
  }

  /** The search finds a fence exactly when one opens at or after `p`, and no
      fence opens before the one it finds. */
  lemma FindFenceLeftmost(text: string, p: nat, tagged: bool)
    requires p <= |text|
    ensures FindFence(text, p, tagged).None? <==> forall k :: p <= k <= |text| ==> FenceAt(text, k, tagged).None?
    ensures FindFence(text, p, tagged).Some? ==>
      forall k :: p <= k < FindFence(text, p, tagged).value.open ==> FenceAt(text, k, tagged).None?
  {
    var opens := FenceScan(text, tagged);
    LeftmostFound(opens, p, |text|);
    if FindFence(text, p, tagged).Some? {
      LeftmostIsFirst(opens, p, |text|);
    }
  }

  /** The text of the first fenced block's body, if there is one: the body of the
      leftmost opening that is closed. */
  function FencedCandidate(text: string, tagged: bool): (c: Option<string>)
    ensures c.Some? ==> IsSubstring(c.value, text)
    ensures c.Some? <==> exists p :: 0 <= p <= |text| && FenceAt(text, p, tagged).Some?
    ensures c.Some? ==> exists p ::
      && 0 <= p <= |text| && FenceAt(text, p, tagged).Some?
      && (forall q :: 0 <= q < p ==> FenceAt(text, q, tagged).None?)
      && c.value == text[FenceAt(text, p, tagged).value.lo..FenceAt(text, p, tagged).value.hi]
  {
    FindFenceLeftmost(text, 0, tagged);
    match FindFence(text, 0, tagged)
    case None => None
    case Some(f) =>
      assert OccursAt(text, f.body.lo, text[f.body.lo..f.body.hi]);
      Some(text[f.body.lo..f.body.hi])
  }

  /** The first `c` in `text[from..]`. */
  function FirstIndex(text: string, c: char, from: nat): (r: Option<nat>)
    requires from <= |text|
    ensures r.Some? ==> from <= r.value < |text| && text[r.value] == c
    ensures r.Some? ==> forall k :: from <= k < r.value ==> text[k] != c
    ensures r.None? ==> forall k :: from <= k < |text| ==> text[k] != c
    decreases |text| - from
  {
    if from == |text| then None
    else if text[from] == c then Some(from)
    else FirstIndex(text, c, from + 1)
  }

  /** The last `c` in `text[..hi]`. */
  function LastIndex(text: string, c: char, hi: nat): (r: Option<nat>)
    requires hi <= |text|
    ensures r.Some? ==> r.value < hi && text[r.value] == c
    ensures r.Some? ==> forall k :: r.value < k < hi ==> text[k] != c
    ensures r.None? ==> forall k :: 0 <= k < hi ==> text[k] != c
    decreases hi
  {
    if hi == 0 then None
    else if text[hi - 1] == c then Some(hi - 1)
    else LastIndex(text, c, hi - 1)
  }

  /** The match of `re.search(r'\{.*\}', text, re.DOTALL)`: from the first `{` to the
      last `}`, present exactly when some `}` follows some `{`. */
  function BraceSpan(text: string): (r: Option<Span>)
    ensures r.Some? ==> r.value.lo < r.value.hi <= |text|
    ensures r.Some? ==> text[r.value.lo] == '{' && text[r.value.hi - 1] == '}'
    ensures r.Some? ==> forall k :: 0 <= k < r.value.lo ==> text[k] != '{'
    ensures r.Some? ==> forall k :: r.value.hi <= k < |text| ==> text[k] != '}'
    ensures r.None? <==> forall i, j :: 0 <= i < j < |text| && text[i] == '{' ==> text[j] != '}'
  {
    match FirstIndex(text, '{', 0)
    case None => None
    case Some(i) =>
      match LastIndex(text, '}', |text|)
      case None => None
      case Some(j) =>
        if i < j then Some(Span(i, j + 1)) else None
  }

  /** The text of the brace span, if there is one. */
  function BraceCandidate(text: string): (c: Option<string>)
    ensures c.Some? ==> |c.value| >= 2 && c.value[0] == '{' && c.value[|c.value| - 1] == '}'
    ensures c.Some? ==> IsSubstring(c.value, text)
  {
    match BraceSpan(text)
    case None => None
    case Some(sp) =>
      assert OccursAt(text, sp.lo, text[sp.lo..sp.hi]);
      Some(text[sp.lo..sp.hi])
  }

  /** `parse` accepts the candidate. */
  predicate Parses(parse: Parser, c: Option<string>) {
    c.Some? && parse(c.value).Some?
  }

  /** `extract_json_from_text`: the fenced candidate if it parses, else the brace
      candidate if it parses, else `{}`. It never raises, and whatever it returns
      is `{}` or the parse of some contiguous piece of `text`. */
  function ExtractJson(text: string, parse: Parser): (r: Json)
    ensures r == EmptyObject || exists c :: IsSubstring(c, text) && parse(c) == Some(r)
  {
    var fenced := FencedCandidate(text, false);
    var brace := BraceCandidate(text);
    if Parses(parse, fenced) then parse(fenced.value).value
    else if Parses(parse, brace) then parse(brace.value).value
    else EmptyObject
  }

  /** A fenced block that parses wins over any brace candidate. */
  lemma FenceWins(text: string, parse: Parser)
    requires Parses(parse, FencedCandidate(text, false))
    ensures ExtractJson(text, parse) == parse(FencedCandidate(text, false).value).value
  {
  }

  /** A fenced block that does not parse falls through to the brace candidate. */
  lemma UnparsableFenceFallsThrough(text: string, parse: Parser)
    requires !Parses(parse, FencedCandidate(text, false))
    requires Parses(parse, BraceCandidate(text))
    ensures ExtractJson(text, parse) == parse(BraceCandidate(text).value).value
  {
  }

  /** With neither candidate parsing, the result is `{}`. */
  lemma NothingParsesGivesEmpty(text: string, parse: Parser)
    requires !Parses(parse, FencedCandidate(text, false))
    requires !Parses(parse, BraceCandidate(text))
    ensures ExtractJson(text, parse) == EmptyObject
  {
  }
}
