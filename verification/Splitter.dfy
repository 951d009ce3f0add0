/**
 The document splitter's sliding window: windows of at most maxChars characters, ended at a
 paragraph or sentence break when there is one in the second half, each starting overlapChars
 before the end of the one before it.
 */
module Splitter {
  import opened Basics

  // ---------------------------------------------------------------- Python strings

  /** How Python reads a slice bound: negative ones count from the end, all are clamped. */
  function Bound(i: int, n: nat): nat {
    if i < 0 then (if i + n < 0 then 0 else i + n) else if i > n then n else i
  }

  function Slice(text: string, lo: int, hi: int): string {
    var l, h := Bound(lo, |text|), Bound(hi, |text|);
    if l < h then text[l..h] else []
  }

  /** What that comes to: an ordinary slice, one that runs over the end, one that counts from the end. */
  lemma SliceIs(text: string, lo: int, hi: int)
    ensures 0 <= lo <= hi <= |text| ==> Slice(text, lo, hi) == text[lo..hi]
    ensures 0 <= lo <= |text| < hi ==> Slice(text, lo, hi) == text[lo..]
    ensures 0 <= hi <= lo ==> Slice(text, lo, hi) == []
    ensures -|text| <= lo < 0 ==> Slice(text, lo, |text|) == text[|text| + lo..]
    ensures lo < -|text| ==> Slice(text, lo, hi) == Slice(text, 0, hi)
    ensures -|text| <= hi < 0 ==> Slice(text, 0, hi) == text[..|text| + hi]
  {}

  /** The last occurrence that starts in [lo, p], or -1. */
  function LastOccurrence(text: string, pattern: string, lo: nat, p: int): (r: int)
    requires p + |pattern| <= |text|
    ensures r == -1 || lo <= r <= p
    decreases p - lo + 1
  {
    if p < lo then -1
    else if text[p..p + |pattern|] == pattern then p
    else LastOccurrence(text, pattern, lo, p - 1)
  }

  lemma {:induction false} LastOccurrenceIsLast(text: string, pattern: string, lo: nat, p: int)
    requires p + |pattern| <= |text|
    ensures var r := LastOccurrence(text, pattern, lo, p);
            && (r == -1 || OccursAt(text, pattern, r))
            && (forall q :: r < q <= p && lo <= q ==> !OccursAt(text, pattern, q))
    decreases p - lo + 1
  {
    if p >= lo && text[p..p + |pattern|] != pattern { LastOccurrenceIsLast(text, pattern, lo, p - 1); }
  }

  /** `text.rfind(pattern, lo, hi)` */
  function RFind(text: string, pattern: string, lo: int, hi: int): int {
    LastOccurrence(text, pattern, Bound(lo, |text|), Bound(hi, |text|) - |pattern|)
  }

  /** `str.isspace` for one character. */
  predicate IsSpace(c: char) {
    || '\U{9}' <= c <= '\U{D}' || '\U{1C}' <= c <= '\U{20}' || c == '\U{85}' || c == '\U{A0}'
    || c == '\U{1680}' || '\U{2000}' <= c <= '\U{200A}' || c == '\U{2028}' || c == '\U{2029}'
    || c == '\U{202F}' || c == '\U{205F}' || c == '\U{3000}'
  }

  /** One by one. */
  lemma SpacesAre(c: char)
    ensures IsSpace(c) <==>
              c in {'\t', '\n', '\U{B}', '\U{C}', '\r', '\U{1C}', '\U{1D}', '\U{1E}', '\U{1F}', ' ', '\U{85}', '\U{A0}', '\U{1680}',
                    '\U{2000}', '\U{2001}', '\U{2002}', '\U{2003}', '\U{2004}', '\U{2005}', '\U{2006}', '\U{2007}', '\U{2008}',
                    '\U{2009}', '\U{200A}', '\U{2028}', '\U{2029}', '\U{202F}', '\U{205F}', '\U{3000}'}
  {}

  ghost predicate Blank(s: string) { forall c :: c in s ==> IsSpace(c) }

  lemma BlankConcat(a: string, b: string)
    ensures Blank(a + b) <==> Blank(a) && Blank(b)
  {
    assert forall c :: c in a + b <==> c in a || c in b;
  }

  function StripLeft(s: string): string {
    if s != [] && IsSpace(s[0]) then StripLeft(s[1..]) else s
  }

  function StripRight(s: string): string {
    if s != [] && IsSpace(s[|s| - 1]) then StripRight(s[..|s| - 1]) else s
  }

  /** `s.strip()` */
  function Strip(s: string): string { StripRight(StripLeft(s)) }

  lemma {:induction false} StripLeftSplits(s: string) returns (left: string)
    ensures s == left + StripLeft(s) && Blank(left)
    ensures StripLeft(s) != [] ==> !IsSpace(StripLeft(s)[0])
  {
    left := [];
    if s != [] && IsSpace(s[0]) {
      var rest := StripLeftSplits(s[1..]);
      left := [s[0]] + rest;
      assert s == [s[0]] + s[1..];
    }
  }

  lemma {:induction false} StripRightSplits(s: string) returns (right: string)
    ensures s == StripRight(s) + right && Blank(right)
    ensures StripRight(s) != [] ==> !IsSpace(StripRight(s)[|StripRight(s)| - 1])
  {
    right := [];
    if s != [] && IsSpace(s[|s| - 1]) {
      var rest := StripRightSplits(s[..|s| - 1]);
      right := rest + [s[|s| - 1]];
      assert s == s[..|s| - 1] + [s[|s| - 1]];
    }
  }

  /** Stripping cuts whitespace off both ends and nothing else; only blank text vanishes. */
  lemma StripOnlyCutsSpace(s: string) returns (left: string, right: string)
    ensures s == left + Strip(s) + right && Blank(left) && Blank(right)
    ensures Strip(s) == [] <==> Blank(s)
    ensures Strip(s) != [] ==> !IsSpace(Strip(s)[0]) && !IsSpace(Strip(s)[|Strip(s)| - 1])
  {
    left := StripLeftSplits(s);
    right := StripRightSplits(StripLeft(s));
    BlankConcat(left + Strip(s), right);
    BlankConcat(left, Strip(s));
    assert s == left + Strip(s) + right;
    assert Strip(s) != [] ==> Strip(s)[0] == StripLeft(s)[0] && Strip(s)[0] in Strip(s);
  }

  // ---------------------------------------------------------------- the window loop

  /** A paragraph break in the second half of the window wins, then a sentence break, then the full size. */
  function ChooseEnd(n: nat, maxChars: nat, start: int, paragraph: int, sentence: int): int {
    var end := start + maxChars;
    if end >= n then end
    else if paragraph > start + maxChars / 2 then paragraph + 2
    else if sentence > start + maxChars / 2 then sentence + 1
    else end
  }

  function SentenceBreak(text: string, lo: int, hi: int): int {
    Max(Max(RFind(text, "\U{3002}", lo, hi), RFind(text, ".", lo, hi)), RFind(text, "\n", lo, hi))
  }

  /** Where the window that starts at `start` ends. */
  function WindowEnd(text: string, maxChars: nat, start: int): int {
    var end := start + maxChars;
    ChooseEnd(|text|, maxChars, start, RFind(text, "\n\n", start, end), SentenceBreak(text, start, end))
  }

  /** The least a window advances, whatever the text. */
  function LeastAdvance(maxChars: nat): nat { Min(maxChars, maxChars / 2 + 2) }

  predicate Advances(maxChars: nat, overlapChars: int) {
    maxChars >= 1 && overlapChars < LeastAdvance(maxChars)
  }

  lemma WindowBounds(text: string, maxChars: nat, start: int)
    requires 0 <= start < |text| && maxChars >= 1
    ensures start + LeastAdvance(maxChars) <= WindowEnd(text, maxChars, start) <= start + maxChars
  {}

  /** A rule that says where the window starting at a position ends. */
  type EndRule = int -> int

  function TextEnds(text: string, maxChars: nat): EndRule { start => WindowEnd(text, maxChars, start) }

  /** All the window theory asks of a rule: windows are bounded and outrun their overlap. */
  ghost predicate GoodRule(ends: EndRule, n: nat, maxChars: nat, overlapChars: int) {
    forall start :: 0 <= start < n ==> GoodAt(ends, maxChars, overlapChars, start)
  }

  predicate GoodAt(ends: EndRule, maxChars: nat, overlapChars: int, start: int) {
    start < ends(start) <= start + maxChars && start < ends(start) - overlapChars
  }

  lemma TextRuleIsGood(text: string, maxChars: nat, overlapChars: int)
    requires Advances(maxChars, overlapChars)
    ensures GoodRule(TextEnds(text, maxChars), |text|, maxChars, overlapChars)
  {
    forall start | 0 <= start < |text| { WindowBounds(text, maxChars, start); }
  }

  type Window = (nat, nat)

  /** The windows from `start` on, as the pairs (start, end) of the loop's variables. */
  ghost function Windows(ends: EndRule, n: nat, maxChars: nat, overlapChars: int, start: nat): seq<Window>
    requires GoodRule(ends, n, maxChars, overlapChars)
    decreases n - start
  {
    if start >= n then []
    else
      assert GoodAt(ends, maxChars, overlapChars, start);
      [(start, ends(start))] + Windows(ends, n, maxChars, overlapChars, ends(start) - overlapChars)
  }

  /** What a run of windows looks like: each one ends by the rule, and the next starts one overlap before that end. */
  ghost predicate Slides(w: seq<Window>, ends: EndRule, n: nat, maxChars: nat, overlapChars: int, start: nat) {
    && w != [] && w[0].0 == start
    && (forall i :: 0 <= i < |w| ==> Placed(w[i], ends, n, maxChars))
    && (forall i, j :: 0 <= i && j == i + 1 < |w| ==> w[j].0 == w[i].1 - overlapChars)
    && w[|w| - 1].1 - overlapChars >= n
  }

  predicate Placed(window: Window, ends: EndRule, n: nat, maxChars: nat) {
    window.0 < n && window.1 == ends(window.0) && window.0 < window.1 <= window.0 + maxChars
  }

  lemma {:induction false} WindowsSlide(ends: EndRule, n: nat, maxChars: nat, overlapChars: int, start: nat)
    requires GoodRule(ends, n, maxChars, overlapChars) && start < n
    ensures Slides(Windows(ends, n, maxChars, overlapChars, start), ends, n, maxChars, overlapChars, start)
    decreases n - start
  {
    assert GoodAt(ends, maxChars, overlapChars, start);
    var next := ends(start) - overlapChars;
    var w, v := Windows(ends, n, maxChars, overlapChars, start), Windows(ends, n, maxChars, overlapChars, next);
    assert w == [(start, ends(start))] + v;
    if next < n { WindowsSlide(ends, n, maxChars, overlapChars, next); }
  }

  ghost function TextWindows(text: string, maxChars: nat, overlapChars: int): seq<Window>
    requires Advances(maxChars, overlapChars)
  {
    TextRuleIsGood(text, maxChars, overlapChars);
    Windows(TextEnds(text, maxChars), |text|, maxChars, overlapChars, 0)
  }

  /** The text a window shows, without the white space around it. */
  function ChunkOf(text: string, window: Window): string { Strip(Slice(text, window.0, window.1)) }

  /** The non-empty chunks of the first k windows. */
  ghost function Chunks(text: string, windows: seq<Window>, k: nat): seq<string>
    requires k <= |windows|
  {
    if k == 0 then [] else Append(Chunks(text, windows, k - 1), ChunkOf(text, windows[k - 1]))
  }

  function Append(chunks: seq<string>, chunk: string): seq<string> {
    if chunk == [] then chunks else chunks + [chunk]
  }

  /** The loop's `start` when the first k windows are behind it. */
  ghost function StartAt(windows: seq<Window>, overlapChars: int, k: nat): int
    requires k <= |windows|
  {
    if k < |windows| then windows[k].0 else if k == 0 then 0 else windows[k - 1].1 - overlapChars
  }

  /** The loop of the splitter, for any rule that places the window ends. */
  method CollectChunks(text: string, maxChars: nat, overlapChars: int, ends: EndRule) returns (chunks: seq<string>)
    requires GoodRule(ends, |text|, maxChars, overlapChars)
    ensures var w := Windows(ends, |text|, maxChars, overlapChars, 0); chunks == Chunks(text, w, |w|)
  {
    ghost var w := Windows(ends, |text|, maxChars, overlapChars, 0);
    if |text| > 0 { WindowsSlide(ends, |text|, maxChars, overlapChars, 0); }
    chunks := [];
    var start := 0;
    ghost var k := 0;
    while start < |text|
      invariant k <= |w| && start == StartAt(w, overlapChars, k)
      invariant chunks == Chunks(text, w, k)
      decreases |w| - k
    {
      var end := ends(start);
      assert w[k] == (start, end);
      var chunk := ChunkOf(text, (start, end));
      if chunk != [] { chunks := chunks + [chunk]; }
      start, k := end - overlapChars, k + 1;
    }
  }

  method SplitText(text: string, maxChars: nat, overlapChars: int) returns (chunks: seq<string>)
    requires Advances(maxChars, overlapChars)
    ensures |text| <= maxChars ==> chunks == if Blank(text) then [] else [text]
    ensures |text| > maxChars ==>
              var w := TextWindows(text, maxChars, overlapChars); chunks == Chunks(text, w, |w|)
  {
    if |text| <= maxChars {
      var _, _ := StripOnlyCutsSpace(text);
      return if Strip(text) != [] then [text] else [];
    }
    TextRuleIsGood(text, maxChars, overlapChars);
    chunks := CollectChunks(text, maxChars, overlapChars, TextEnds(text, maxChars));
  }

  // ---------------------------------------------------------------- where a window ends

  predicate IsStop(text: string, q: int) {
    0 <= q < |text| && text[q] in {'\U{3002}', '.', '\n'}
  }

  ghost predicate ParagraphIn(text: string, lo: int, hi: int, p: int) {
    lo < p && p + 2 <= hi && OccursAt(text, "\n\n", p)
  }

  lemma StopFound(text: string, stop: char, lo: nat, hi: nat)
    requires hi <= |text|
    ensures var r := RFind(text, [stop], lo, hi);
            && (r == -1 || (lo <= r < hi && text[r] == stop))
            && (forall q :: r < q < hi && lo <= q ==> text[q] != stop)
  {
    LastOccurrenceIsLast(text, [stop], lo, hi - 1);
    assert forall q :: 0 <= q < |text| ==> text[q..q + 1] == [text[q]];
    forall q | RFind(text, [stop], lo, hi) < q < hi && lo <= q ensures text[q] != stop {
      assert !OccursAt(text, [stop], q);
    }
  }

  /** The last sentence end in [lo, hi), or -1. */
  ghost predicate IsLastStop(text: string, lo: int, hi: int, r: int) {
    && (r == -1 || (lo <= r < hi && IsStop(text, r)))
    && (forall q :: r < q < hi && lo <= q ==> !IsStop(text, q))
  }

  /** The last paragraph break that fits in [lo, hi), or -1. */
  ghost predicate IsLastParagraph(text: string, lo: int, hi: int, r: int) {
    && (r == -1 || (lo <= r <= hi - 2 && OccursAt(text, "\n\n", r)))
    && (forall q :: r < q <= hi - 2 && lo <= q ==> !OccursAt(text, "\n\n", q))
  }

  lemma SentenceFound(text: string, lo: nat, hi: nat)
    requires hi <= |text|
    ensures IsLastStop(text, lo, hi, SentenceBreak(text, lo, hi))
  {
    StopFound(text, '\U{3002}', lo, hi);
    StopFound(text, '.', lo, hi);
    StopFound(text, '\n', lo, hi);
  }

  lemma ParagraphFound(text: string, lo: nat, hi: nat)
    requires hi <= |text|
    ensures IsLastParagraph(text, lo, hi, RFind(text, "\n\n", lo, hi))
  {
    LastOccurrenceIsLast(text, "\n\n", lo, hi - 2);
  }

  /** Just after the last paragraph break in (half, full), else after the last sentence end, else at full. */
  ghost predicate EndsAtBreak(text: string, half: int, full: int, end: int) {
    if exists p :: ParagraphIn(text, half, full, p) then
      ParagraphIn(text, half, full, end - 2) && forall p :: ParagraphIn(text, half, full, p) ==> p <= end - 2
    else if exists q :: half < q < full && IsStop(text, q) then
      half < end - 1 < full && IsStop(text, end - 1) && forall q :: half < q < full && IsStop(text, q) ==> q <= end - 1
    else end == full
  }

  lemma ChoiceEndsAtBreak(text: string, maxChars: nat, start: nat, paragraph: int, sentence: int, end: int)
    requires maxChars >= 1 && start + maxChars < |text| && end == ChooseEnd(|text|, maxChars, start, paragraph, sentence)
    requires IsLastParagraph(text, start, start + maxChars, paragraph) && IsLastStop(text, start, start + maxChars, sentence)
    ensures EndsAtBreak(text, start + maxChars / 2, start + maxChars, end)
  {
    if paragraph > start + maxChars / 2 {
      assert ParagraphIn(text, start + maxChars / 2, start + maxChars, paragraph);
    }
  }

  lemma WindowEndIs(text: string, maxChars: nat, start: int)
    ensures WindowEnd(text, maxChars, start)
            == ChooseEnd(|text|, maxChars, start, RFind(text, "\n\n", start, start + maxChars),
                         SentenceBreak(text, start, start + maxChars))
  {}

  /**
   A window that leaves text over ends just after the last paragraph break of its second half;
   without one, just after the last sentence end there; without either, at its full size.
   */
  lemma WindowEndsAtBreak(text: string, maxChars: nat, start: nat)
    requires maxChars >= 1 && start + maxChars < |text|
    ensures EndsAtBreak(text, start + maxChars / 2, start + maxChars, WindowEnd(text, maxChars, start))
  {
    var full := start + maxChars;
    ParagraphFound(text, start, full);
    SentenceFound(text, start, full);
    WindowEndIs(text, maxChars, start);
    ChoiceEndsAtBreak(text, maxChars, start, RFind(text, "\n\n", start, full), SentenceBreak(text, start, full),
                      WindowEnd(text, maxChars, start));
  }

  // ---------------------------------------------------------------- what the windows are

  /** The windows of a text obey the size and overlap rules. */
  lemma TextWindowsShape(text: string, maxChars: nat, overlapChars: int)
    requires Advances(maxChars, overlapChars) && text != []
    ensures var w := TextWindows(text, maxChars, overlapChars);
            && w != [] && w[0].0 == 0
            && (forall i :: 0 <= i < |w| ==> w[i].0 < |text| && w[i].0 < w[i].1 <= w[i].0 + maxChars)
            && (forall i :: 0 <= i < |w| ==> 0 < |Slice(text, w[i].0, w[i].1)| <= maxChars)
            && (forall i, j :: 0 <= i && j == i + 1 < |w| ==> w[j].0 == w[i].1 - overlapChars)
            && w[|w| - 1].1 - overlapChars >= |text|
  {
    var w, ends := TextWindows(text, maxChars, overlapChars), TextEnds(text, maxChars);
    TextRuleIsGood(text, maxChars, overlapChars);
    WindowsSlide(ends, |text|, maxChars, overlapChars, 0);
    forall i | 0 <= i < |w|
      ensures w[i].0 < |text| && w[i].0 < w[i].1 <= w[i].0 + maxChars
      ensures 0 < |Slice(text, w[i].0, w[i].1)| <= maxChars
    {
      assert Placed(w[i], ends, |text|, maxChars);
      SliceSize(text, w[i].0, w[i].1, maxChars);
    }
  }

  lemma SliceSize(text: string, lo: nat, hi: nat, size: nat)
    requires lo < |text| && lo < hi <= lo + size
    ensures 0 < |Slice(text, lo, hi)| <= size
  {}

  function Drop(s: string, n: nat): string { if n <= |s| then s[n..] else [] }

  /** The texts of the first k windows joined, each after the first without its leading `overlap` characters. */
  ghost function Joined(text: string, windows: seq<Window>, overlap: nat, k: nat): string
    requires k <= |windows|
  {
    if k == 0 then []
    else
      var shown := Slice(text, windows[k - 1].0, windows[k - 1].1);
      Joined(text, windows, overlap, k - 1) + Drop(shown, if k == 1 then 0 else overlap)
  }

  /** A window that starts `overlap` before `from` adds the text from there to its own end. */
  lemma DropSlice(text: string, start: nat, end: nat, overlap: nat, from: nat)
    requires from == start + overlap && start < end && from <= end
    ensures Slice(text, 0, from) + Drop(Slice(text, start, end), overlap) == Slice(text, 0, end)
  {
    if from < |text| {
      SliceParts(text, start, from, Min(end, |text|), overlap);
    } else {
      NothingLeft(text, start, end, overlap);
    }
  }

  lemma SliceParts(text: string, start: nat, from: nat, stop: nat, overlap: nat)
    requires from == start + overlap && from <= stop <= |text|
    ensures text[..from] + text[start..stop][overlap..] == text[..stop]
  {}

  lemma NothingLeft(text: string, start: nat, end: nat, overlap: nat)
    requires |text| <= start + overlap
    ensures Drop(Slice(text, start, end), overlap) == []
  {}

  lemma {:induction false} JoinedIsPrefix(text: string, w: seq<Window>, ends: EndRule, maxChars: nat, overlap: nat, k: nat)
    requires Slides(w, ends, |text|, maxChars, overlap, 0) && 1 <= k <= |w|
    requires GoodRule(ends, |text|, maxChars, overlap)
    ensures Joined(text, w, overlap, k) == Slice(text, 0, w[k - 1].1)
  {
    var last := w[k - 1];
    assert Placed(last, ends, |text|, maxChars) && GoodAt(ends, maxChars, overlap, last.0);
    if k == 1 {
      assert Joined(text, w, overlap, 0) == [];
    } else {
      JoinedIsPrefix(text, w, ends, maxChars, overlap, k - 1);
      DropSlice(text, last.0, last.1, overlap, w[k - 2].1);
    }
  }

  /** The round trip: the first window and the later ones less their overlap are the text again. */
  lemma {:induction false} WindowsReconstructText(text: string, maxChars: nat, overlap: nat)
    requires Advances(maxChars, overlap)
    ensures var w := TextWindows(text, maxChars, overlap); Joined(text, w, overlap, |w|) == text
  {
    var w := TextWindows(text, maxChars, overlap);
    TextRuleIsGood(text, maxChars, overlap);
    if text != [] {
      WindowsSlide(TextEnds(text, maxChars), |text|, maxChars, overlap, 0);
      JoinedIsPrefix(text, w, TextEnds(text, maxChars), maxChars, overlap, |w|);
    }
  }

  /** The chunk is the stretch of text from `lo` on, and position i lies in it. */
  predicate Covers(text: string, chunk: string, lo: nat, i: nat) {
    lo <= i < lo + |chunk| <= |text| && text[lo..lo + |chunk|] == chunk
  }

  lemma {:induction false} SomeWindowShows(w: seq<Window>, ends: EndRule, n: nat, maxChars: nat, overlap: nat, i: nat, k: nat)
    returns (j: nat)
    requires Slides(w, ends, n, maxChars, overlap, 0) && i < n && k < |w| && i < w[k].1
    ensures j <= k && w[j].0 <= i < w[j].1
  {
    j := k;
    if i < w[k].0 { j := SomeWindowShows(w, ends, n, maxChars, overlap, i, k - 1); }
  }

  lemma {:induction false} ChunkEmitted(text: string, w: seq<Window>, j: nat, k: nat, chunk: string)
    requires j < k <= |w| && chunk == ChunkOf(text, w[j]) && chunk != []
    ensures chunk in Chunks(text, w, k)
  {
    if j < k - 1 { ChunkEmitted(text, w, j, k - 1, chunk); }
    AppendHolds(Chunks(text, w, k - 1), ChunkOf(text, w[k - 1]), chunk);
  }

  lemma AppendHolds(chunks: seq<string>, last: string, chunk: string)
    requires chunk in chunks || (chunk == last && last != [])
    ensures chunk in Append(chunks, last)
  {
    if chunk == last && last != [] { assert Append(chunks, last)[|chunks|] == chunk; }
  }

  /** A window gives a chunk exactly when it shows anything but white space; chunks come in the windows' order. */
  lemma {:induction false} ChunksAre(text: string, w: seq<Window>, k: nat)
    requires k <= |w|
    ensures forall chunk :: chunk in Chunks(text, w, k) ==> chunk != []
    ensures k > 0 && Blank(Slice(text, w[k - 1].0, w[k - 1].1)) ==> Chunks(text, w, k) == Chunks(text, w, k - 1)
    ensures k > 0 && !Blank(Slice(text, w[k - 1].0, w[k - 1].1)) ==>
              Chunks(text, w, k) == Chunks(text, w, k - 1) + [ChunkOf(text, w[k - 1])]
  {
    if k > 0 {
      ChunksAre(text, w, k - 1);
      var _, _ := StripOnlyCutsSpace(Slice(text, w[k - 1].0, w[k - 1].1));
      AppendIs(Chunks(text, w, k - 1), ChunkOf(text, w[k - 1]));
    }
  }

  lemma AppendIs(chunks: seq<string>, chunk: string)
    ensures Append(chunks, chunk) == if chunk == [] then chunks else chunks + [chunk]
    ensures (forall c :: c in chunks ==> c != []) ==> forall c :: c in Append(chunks, chunk) ==> c != []
  {}

  /** No visible character is lost: each position lies in a window, and in the chunk emitted for it. */
  lemma VisibleCharacterKept(text: string, maxChars: nat, overlap: nat, i: nat)
    requires Advances(maxChars, overlap) && i < |text| && !IsSpace(text[i])
    ensures var w := TextWindows(text, maxChars, overlap);
            exists chunk, lo :: chunk in Chunks(text, w, |w|) && Covers(text, chunk, lo, i)
  {
    var w, ends := TextWindows(text, maxChars, overlap), TextEnds(text, maxChars);
    TextRuleIsGood(text, maxChars, overlap);
    WindowsSlide(ends, |text|, maxChars, overlap, 0);
    var j := SomeWindowShows(w, ends, |text|, maxChars, overlap, i, |w| - 1);
    var lo := WindowShows(text, w[j], i);
    ChunkEmitted(text, w, j, |w|, ChunkOf(text, w[j]));
  }

  lemma WindowShows(text: string, window: Window, i: nat) returns (lo: nat)
    requires window.0 <= i < |text| && i < window.1 && !IsSpace(text[i])
    ensures Covers(text, ChunkOf(text, window), lo, i)
  {
    var shown := Slice(text, window.0, window.1);
    var left, right := StripOnlyCutsSpace(shown);
    lo := window.0 + |left|;
    MiddleCovers(text, window.0, left, Strip(shown), right, i);
  }

  lemma MiddleCovers(text: string, start: nat, left: string, middle: string, right: string, i: nat)
    requires var window := left + middle + right;
             && start + |window| <= |text| && window == text[start..start + |window|] && start <= i < start + |window|
    requires Blank(left) && Blank(right) && !IsSpace(text[i])
    ensures Covers(text, middle, start + |left|, i)
  {
    assert (left + middle + right)[i - start] == text[i];
    StretchOf(text, start, left + middle + right, left, middle, right);
    BlankOutside(left, middle, right, i - start);
  }

  lemma BlankOutside(left: string, middle: string, right: string, p: nat)
    requires Blank(left) && Blank(right) && p < |left + middle + right|
    ensures |left| <= p < |left| + |middle| || IsSpace((left + middle + right)[p])
  {
    if p < |left| {
      assert left[p] in left;
    } else if p >= |left| + |middle| {
      assert right[p - |left| - |middle|] in right;
    }
  }

  lemma StretchOf(text: string, start: nat, window: string, left: string, middle: string, right: string)
    requires start + |window| <= |text| && window == text[start..start + |window|] && window == left + middle + right
    ensures start + |left| + |middle| <= |text|
    ensures text[start + |left|..start + |left| + |middle|] == middle
  {
    forall k | 0 <= k < |middle| ensures text[start + |left| + k] == middle[k] {
      assert window[|left| + k] == middle[k] && window[|left| + k] == text[start + (|left| + k)];
    }
  }

  // ---------------------------------------------------------------- exactly when the loop ends

  /** The value of `start` after k iterations, for any sizes at all; it stays once the loop has ended. */
  ghost function StartAfter(ends: EndRule, n: nat, overlapChars: int, k: nat): int {
    if k == 0 then 0
    else
      var start := StartAfter(ends, n, overlapChars, k - 1);
      if start >= n then start else ends(start) - overlapChars
  }

  ghost predicate LoopEnds(text: string, maxChars: nat, overlapChars: int) {
    exists k: nat :: StartAfter(TextEnds(text, maxChars), |text|, overlapChars, k) >= |text|
  }

  lemma {:induction false} StartAdvances(ends: EndRule, n: nat, maxChars: nat, overlapChars: int, k: nat)
    requires GoodRule(ends, n, maxChars, overlapChars)
    ensures Min(k, n) <= StartAfter(ends, n, overlapChars, k)
  {
    if k > 0 {
      StartAdvances(ends, n, maxChars, overlapChars, k - 1);
      var start := StartAfter(ends, n, overlapChars, k - 1);
      assert 0 <= start < n ==> GoodAt(ends, maxChars, overlapChars, start);
    }
  }

  /** A rule that never ends a window more than one overlap past zero never lets `start` past zero. */
  lemma {:induction false} StartStaysAtZero(ends: EndRule, n: nat, overlapChars: int, k: nat)
    requires n > 0 && forall start :: start <= 0 ==> ends(start) <= overlapChars
    ensures StartAfter(ends, n, overlapChars, k) <= 0
  {
    if k > 0 { StartStaysAtZero(ends, n, overlapChars, k - 1); }
  }

  /** A first window that ends one overlap after its start sends the loop back to the start for ever. */
  lemma {:induction false} FirstWindowRepeats(ends: EndRule, n: nat, overlapChars: int, k: nat)
    requires n > 0 && ends(0) == overlapChars
    ensures StartAfter(ends, n, overlapChars, k) == 0
  {
    if k > 0 { FirstWindowRepeats(ends, n, overlapChars, k - 1); }
  }

  ghost function Plain(n: nat): string { seq(n, _ => 'a') }

  lemma PlainHasNoBreak(n: nat, pattern: string, p: int)
    requires pattern != [] && pattern[0] != 'a'
    ensures !OccursAt(Plain(n), pattern, p)
  {
    if 0 <= p && p + |pattern| <= n {
      assert Plain(n)[p..p + |pattern|][0] == 'a';
    }
  }

  lemma PlainRFind(n: nat, pattern: string, lo: int, hi: int)
    requires pattern != [] && pattern[0] != 'a'
    ensures RFind(Plain(n), pattern, lo, hi) == -1
  {
    var p := RFind(Plain(n), pattern, lo, hi);
    LastOccurrenceIsLast(Plain(n), pattern, Bound(lo, n), Bound(hi, n) - |pattern|);
    PlainHasNoBreak(n, pattern, p);
  }

  lemma NoBreakWindow(text: string, maxChars: nat, start: int)
    requires RFind(text, "\n\n", start, start + maxChars) == -1 && RFind(text, "\U{3002}", start, start + maxChars) == -1
    requires RFind(text, ".", start, start + maxChars) == -1 && RFind(text, "\n", start, start + maxChars) == -1
    requires maxChars >= 1 && start <= 0
    ensures WindowEnd(text, maxChars, start) <= maxChars
  {}

  lemma PlainWindow(maxChars: nat, start: int)
    requires maxChars >= 1 && start <= 0
    ensures WindowEnd(Plain(maxChars + 1), maxChars, start) <= maxChars
  {
    PlainRFind(maxChars + 1, "\n\n", start, start + maxChars);
    PlainRFind(maxChars + 1, "\U{3002}", start, start + maxChars);
    PlainRFind(maxChars + 1, ".", start, start + maxChars);
    PlainRFind(maxChars + 1, "\n", start, start + maxChars);
    NoBreakWindow(Plain(maxChars + 1), maxChars, start);
  }

  /** An overlap of a whole window or more: text without breaks keeps `start` at or below zero. */
  lemma WideOverlapNeverEnds(maxChars: nat, overlapChars: int)
    requires 1 <= maxChars <= overlapChars
    ensures !LoopEnds(Plain(maxChars + 1), maxChars, overlapChars)
  {
    var text := Plain(maxChars + 1);
    var ends := TextEnds(text, maxChars);
    forall start | start <= 0 ensures ends(start) <= overlapChars { PlainWindow(maxChars, start); }
    forall k: nat ensures StartAfter(ends, |text|, overlapChars, k) <= 0 {
      StartStaysAtZero(ends, |text|, overlapChars, k);
    }
  }

  /** One full stop, placed so that the window ends exactly one overlap after its start. */
  ghost function Stuck(maxChars: nat, overlapChars: nat): string
    requires overlapChars >= 1
  {
    Plain(overlapChars - 1) + "." + Plain(maxChars)
  }

  lemma StuckBreaks(maxChars: nat, overlapChars: nat, pattern: string, p: int)
    requires overlapChars >= 1 && pattern in {"\n\n", "\U{3002}", ".", "\n"}
    ensures OccursAt(Stuck(maxChars, overlapChars), pattern, p) <==> pattern == "." && p == overlapChars - 1
  {
    var text := Stuck(maxChars, overlapChars);
    assert forall i :: 0 <= i < |text| ==> text[i] == if i == overlapChars - 1 then '.' else 'a';
    if 0 <= p && p + |pattern| <= |text| {
      assert text[p..p + |pattern|][0] == text[p];
    }
    assert text[overlapChars - 1..overlapChars] == ".";
  }

  lemma RFindNowhere(text: string, pattern: string, hi: nat)
    requires hi <= |text| && forall p :: !OccursAt(text, pattern, p)
    ensures RFind(text, pattern, 0, hi) == -1
  {
    LastOccurrenceIsLast(text, pattern, 0, hi - |pattern|);
  }

  lemma RFindOnly(text: string, pattern: string, hi: nat, at: nat)
    requires at + |pattern| <= hi <= |text| && forall p :: OccursAt(text, pattern, p) <==> p == at
    ensures RFind(text, pattern, 0, hi) == at
  {
    assert OccursAt(text, pattern, at);
    LastOccurrenceIsLast(text, pattern, 0, hi - |pattern|);
    var r := RFind(text, pattern, 0, hi);
    assert r >= 0 ==> OccursAt(text, pattern, r);
  }

  lemma StuckRFind(maxChars: nat, overlapChars: nat, pattern: string)
    requires 1 <= overlapChars <= maxChars && pattern in {"\n\n", "\U{3002}", ".", "\n"}
    ensures RFind(Stuck(maxChars, overlapChars), pattern, 0, maxChars)
         == if pattern == "." then overlapChars - 1 else -1
  {
    var text := Stuck(maxChars, overlapChars);
    forall p: int ensures OccursAt(text, pattern, p) <==> pattern == "." && p == overlapChars - 1 {
      StuckBreaks(maxChars, overlapChars, pattern, p);
    }
    if pattern == "." {
      RFindOnly(text, pattern, maxChars, overlapChars - 1);
    } else {
      RFindNowhere(text, pattern, maxChars);
    }
  }

  lemma StuckWindow(maxChars: nat, overlapChars: nat)
    requires maxChars / 2 + 2 <= overlapChars < maxChars
    ensures |Stuck(maxChars, overlapChars)| == overlapChars + maxChars
    ensures WindowEnd(Stuck(maxChars, overlapChars), maxChars, 0) == overlapChars
  {
    StuckRFind(maxChars, overlapChars, "\n\n");
    StuckRFind(maxChars, overlapChars, "\U{3002}");
    StuckRFind(maxChars, overlapChars, ".");
    StuckRFind(maxChars, overlapChars, "\n");
  }

  lemma StuckNeverEnds(maxChars: nat, overlapChars: nat)
    requires maxChars / 2 + 2 <= overlapChars < maxChars
    ensures !LoopEnds(Stuck(maxChars, overlapChars), maxChars, overlapChars)
  {
    StuckWindow(maxChars, overlapChars);
    var text := Stuck(maxChars, overlapChars);
    forall k: nat ensures StartAfter(TextEnds(text, maxChars), |text|, overlapChars, k) == 0 {
      FirstWindowRepeats(TextEnds(text, maxChars), |text|, overlapChars, k);
    }
  }

  /**
   The loop ends on every text exactly when the overlap is less than the least advance,
   min(maxChars, maxChars / 2 + 2). The documented default, an eighth of a window, qualifies;
   an overlap that fails the test loops for ever on some text.
   */
  lemma SplitEndsExactly(maxChars: nat, overlapChars: int)
    requires maxChars >= 1
    ensures (forall text: string :: |text| > maxChars ==> LoopEnds(text, maxChars, overlapChars))
            <==> overlapChars < LeastAdvance(maxChars)
  {
    if overlapChars < LeastAdvance(maxChars) {
      forall text: string ensures LoopEnds(text, maxChars, overlapChars) {
        TextRuleIsGood(text, maxChars, overlapChars);
        StartAdvances(TextEnds(text, maxChars), |text|, maxChars, overlapChars, |text|);
      }
    } else if overlapChars >= maxChars {
      WideOverlapNeverEnds(maxChars, overlapChars);
      assert |Plain(maxChars + 1)| > maxChars;
    } else {
      StuckNeverEnds(maxChars, overlapChars);
      StuckWindow(maxChars, overlapChars);
    }
  }
}
