/**
 The knowledge-base chunker: overlapping windows of at most 1500 characters that prefer to end at a
 sentence. The input is the text after newline clean-up and trimming.
 */
module Chunker {
  import opened Text

  const CHUNK_SIZE: nat := 1500
  const CHUNK_OVERLAP: nat := 200

  /** The positions [start, end) of the text. */
  datatype Span = Span(start: nat, end: nat)

  /** JavaScript's lastIndexOf for a two-character needle: -1 when there is none. */
  function LastPair(s: string, a: char, b: char): (k: int)
    ensures -1 <= k < |s|
    ensures k >= 0 ==> k + 1 < |s| && s[k] == a && s[k + 1] == b
    ensures forall j :: k < j < |s| - 1 ==> !(s[j] == a && s[j + 1] == b)
  {
    if |s| < 2 then -1
    else if s[|s| - 2] == a && s[|s| - 1] == b then |s| - 2
    else LastPair(s[..|s| - 1], a, b)
  }

  function Max(x: int, y: int): int { if x >= y then x else y }

  /** The last place in a window where a paragraph or a sentence ends. */
  function LastBreak(tail: string): int {
    Max(Max(LastPair(tail, '\n', '\n'), LastPair(tail, '.', ' ')), Max(LastPair(tail, '?', ' '), LastPair(tail, '!', ' ')))
  }

  /** Where the window that starts at i ends. */
  function WindowEnd(text: string, i: nat): (e: nat)
    requires i < |text|
    ensures i < e <= |text| && e <= i + CHUNK_SIZE
    ensures e == |text| <==> |text| <= i + CHUNK_SIZE
    ensures e < |text| ==> e >= i + 752
  {
    if |text| <= i + CHUNK_SIZE then |text|
    else
      var lastBreak := LastBreak(text[i..i + CHUNK_SIZE]);
      if lastBreak > CHUNK_SIZE / 2 then i + lastBreak + 1 else i + CHUNK_SIZE
  }

  /** A sentence or a paragraph may end after position k. */
  predicate Break(s: string, k: nat) {
    k + 1 < |s| && ((s[k] == '\n' && s[k + 1] == '\n') || (s[k] in ".?!" && s[k + 1] == ' '))
  }

  lemma LastBreakIs(s: string)
    ensures var k := LastBreak(s);
      -1 <= k < |s| && (k >= 0 ==> Break(s, k)) && forall j: nat :: k < j ==> !Break(s, j)
  {
    hide LastPair;
    forall j: nat | LastBreak(s) < j
      ensures !Break(s, j)
    {
      if j + 1 < |s| {
        assert !(s[j] == '\n' && s[j + 1] == '\n') && !(s[j] == '.' && s[j + 1] == ' ');
        assert !(s[j] == '?' && s[j + 1] == ' ') && !(s[j] == '!' && s[j + 1] == ' ');
      }
    }
  }

  /** A window that is not the last ends after the last sentence or paragraph break in its second half, and in
      full length when there is none. */
  lemma CutsAtLastBreak(text: string, i: nat)
    requires i + CHUNK_SIZE < |text|
    ensures var e := WindowEnd(text, i); var window := text[i..i + CHUNK_SIZE];
      if exists k :: CHUNK_SIZE / 2 < k < CHUNK_SIZE && Break(window, k)
      then Break(window, e - 1 - i) && e - 1 - i > CHUNK_SIZE / 2 && forall k: nat :: e - 1 - i < k ==> !Break(window, k)
      else e == i + CHUNK_SIZE
  {
    hide LastBreak;
    LastBreakIs(text[i..i + CHUNK_SIZE]);
  }

  function NextStart(i: nat, end: nat): nat
    requires i < end
  {
    if end >= CHUNK_OVERLAP && end - CHUNK_OVERLAP > i then end - CHUNK_OVERLAP else end
  }

  function Windows(text: string, i: nat): seq<Span>
    decreases |text| - i
  {
    if i >= |text| then []
    else [Span(i, WindowEnd(text, i))] + Windows(text, NextStart(i, WindowEnd(text, i)))
  }

  predicate Within(s: Span, text: string) { s.start <= s.end <= |text| }

  function Cut(text: string, s: Span): string
    requires Within(s, text)
  {
    text[s.start..s.end]
  }

  /** The chunks of a list of windows: trimmed, blank ones dropped. */
  function Chunks(text: string, ws: seq<Span>): seq<string>
    requires forall k :: 0 <= k < |ws| ==> Within(ws[k], text)
  {
    if ws == [] then []
    else
      var n := |ws| - 1;
      var c := Trim(Cut(text, ws[n]));
      assert forall k :: 0 <= k < n ==> ws[..n][k] == ws[k];
      Chunks(text, ws[..n]) + (if |c| > 0 then [c] else [])
  }

  lemma {:induction false} WindowsWithin(text: string, i: nat)
    ensures forall k :: 0 <= k < |Windows(text, i)| ==> Within(Windows(text, i)[k], text)
    decreases |text| - i
  {
    if i < |text| { WindowsWithin(text, NextStart(i, WindowEnd(text, i))); }
  }

  lemma NextWindow(text: string, i: nat)
    requires i < |text|
    ensures var e := WindowEnd(text, i);
      Windows(text, i) == [Span(i, e)] + Windows(text, NextStart(i, e))
  {
  }

  /** Drops the blank chunks. */
  method KeepNonEmpty(chunks: seq<string>, text: string, ghost ws: seq<Span>) returns (out: seq<string>)
    requires |chunks| == |ws|
    requires forall k :: 0 <= k < |ws| ==> Within(ws[k], text) && chunks[k] == Trim(Cut(text, ws[k]))
    ensures out == Chunks(text, ws)
  {
    hide Trim;
    out := [];
    for k := 0 to |chunks|
      invariant out == Chunks(text, ws[..k])
    {
      assert ws[..k + 1][..k] == ws[..k];
      if |chunks[k]| > 0 { out := out + [chunks[k]]; }
    }
    assert ws[..|chunks|] == ws;
  }

  method Chunk(clean: string) returns (out: seq<string>)
    ensures |clean| == 0 ==> out == []
    ensures 0 < |clean| <= 1500 ==> out == [clean]
    ensures forall c :: c in out && |clean| > 1500 ==> c != "" && !IsSpace(c[0]) && !IsSpace(c[|c| - 1])
    ensures |clean| > CHUNK_SIZE ==>
              (forall k :: 0 <= k < |Windows(clean, 0)| ==> Within(Windows(clean, 0)[k], clean))
              && out == Chunks(clean, Windows(clean, 0))
  {
    hide LastBreak, Trim, Windows;
    if |clean| == 0 { return []; }
    if |clean| <= CHUNK_SIZE { return [clean]; }
    WindowsWithin(clean, 0);
    ghost var done: seq<Span> := [];
    var chunks: seq<string> := [];
    var i := 0;
    while i < |clean|
      invariant 0 <= i <= |clean|
      invariant Windows(clean, 0) == done + Windows(clean, i)
      invariant |chunks| == |done| && forall k :: 0 <= k < |done| ==> Within(done[k], clean) && chunks[k] == Trim(Cut(clean, done[k]))
    {
      var end := if i + CHUNK_SIZE < |clean| then i + CHUNK_SIZE else |clean|;
      if end < |clean| {
        var tail := clean[i..end];
        var lastBreak := LastBreak(tail);
        if lastBreak > CHUNK_SIZE / 2 { end := i + lastBreak + 1; }
      }
      assert end == WindowEnd(clean, i);
      NextWindow(clean, i);
      chunks := chunks + [Trim(clean[i..end])];
      done := done + [Span(i, end)];
      var next := end - CHUNK_OVERLAP;
      i := if next > i then next else end;
    }
    WindowsEnd(clean);
    assert i == |clean|;
    assert done + [] == done;
    assert Windows(clean, 0) == done;
    out := KeepNonEmpty(chunks, clean, done);
    ChunksTrimmed(clean, done);
  }

  lemma ChunksSnoc(text: string, ws: seq<Span>)
    requires ws != [] && forall k :: 0 <= k < |ws| ==> Within(ws[k], text)
    ensures var n := |ws| - 1; var c := Trim(Cut(text, ws[n]));
      && (forall k :: 0 <= k < n ==> Within(ws[..n][k], text))
      && Chunks(text, ws) == Chunks(text, ws[..n]) + (if |c| > 0 then [c] else [])
  {
    hide Trim, Cut;
    assert forall k :: 0 <= k < |ws| - 1 ==> ws[..|ws| - 1][k] == ws[k];
  }

  /** No chunk is blank or begins or ends with a space. */
  lemma {:induction false} ChunksTrimmed(text: string, ws: seq<Span>)
    requires forall k :: 0 <= k < |ws| ==> Within(ws[k], text)
    ensures forall c :: c in Chunks(text, ws) ==> c != "" && !IsSpace(c[0]) && !IsSpace(c[|c| - 1])
  {
    hide IsSpace, Trim, Cut, Within;
    if ws != [] {
      hide Chunks;
      var n := |ws| - 1;
      ChunksSnoc(text, ws);
      ChunksTrimmed(text, ws[..n]);
      var a := TrimWindow(Cut(text, ws[n]));
    }
  }

  lemma WindowsEnd(text: string)
    ensures Windows(text, |text|) == []
  {
  }

  // ---- the chain of windows ----

  /** Consecutive windows overlap by exactly the overlap; every window short of the end advances by at least
      552; the guard against standing still is what ends the walk, at the last window and nowhere else. */
  ghost predicate Chain(text: string, ws: seq<Span>) {
    && (forall k :: 0 <= k < |ws| ==> ws[k].start < ws[k].end <= |text| && ws[k].end <= ws[k].start + CHUNK_SIZE)
    && (forall k :: 0 <= k < |ws| - 1 ==>
          && ws[k + 1].start == ws[k].end - CHUNK_OVERLAP
          && (ws[k].end < |text| ==> ws[k + 1].start >= ws[k].start + 552))
    && (forall k :: 0 <= k < |ws| ==> (ws[k].end - CHUNK_OVERLAP > ws[k].start <==> k < |ws| - 1))
  }

  lemma ChainCons(text: string, i: nat, e: nat, rest: seq<Span>)
    requires Chain(text, rest) && rest != [] && i < e < |text| && e <= i + CHUNK_SIZE && e >= i + 752
    requires rest[0].start == e - CHUNK_OVERLAP
    ensures Chain(text, [Span(i, e)] + rest)
  {
    var ws := [Span(i, e)] + rest;
    assert forall k :: 1 <= k < |ws| ==> ws[k] == rest[k - 1];
  }

  lemma ChainLast(text: string, i: nat)
    requires i + CHUNK_OVERLAP < |text| <= i + CHUNK_SIZE
    ensures Windows(text, i) == [Span(i, |text|), Span(|text| - CHUNK_OVERLAP, |text|)]
    ensures Chain(text, Windows(text, i))
  {
    var last := |text| - CHUNK_OVERLAP;
    NextWindow(text, i);
    NextWindow(text, last);
    WindowsEnd(text);
  }

  lemma {:induction false} WindowsChain(text: string, i: nat)
    requires i + CHUNK_OVERLAP < |text|
    ensures var ws := Windows(text, i);
      && |ws| >= 2 && ws[0].start == i && Chain(text, ws)
      && ws[|ws| - 1] == Span(|text| - CHUNK_OVERLAP, |text|) && ws[|ws| - 2].end == |text|
      && (|ws| - 2) * 552 <= |text| - 201 - i
    decreases |text| - i
  {
    hide Windows, WindowEnd, Chain;
    var e := WindowEnd(text, i);
    if e == |text| {
      ChainLast(text, i);
    } else {
      NextWindow(text, i);
      WindowsChain(text, e - CHUNK_OVERLAP);
      ChainCons(text, i, e, Windows(text, e - CHUNK_OVERLAP));
    }
  }

  /** A text longer than one chunk is cut into a chain from its first character to its last; the final window
      is always the last 200 characters, a suffix of the one before; there are at most 2 + (len - 201) / 552. */
  lemma ChunkWindows(text: string)
    requires |text| > CHUNK_SIZE
    ensures var ws := Windows(text, 0);
      && Chain(text, ws) && 2 <= |ws| <= 2 + (|text| - 201) / 552
      && ws[0].start == 0 && ws[|ws| - 1] == Span(|text| - CHUNK_OVERLAP, |text|)
      && ws[|ws| - 2].end == |text| && ws[|ws| - 2].start <= ws[|ws| - 1].start
  {
    WindowsChain(text, 0);
  }

  // ---- reconstruction ----

  /** The first window followed by every later one without its overlap. */
  function Rebuilt(text: string, ws: seq<Span>): string
    requires forall k :: 0 <= k < |ws| ==> Within(ws[k], text)
  {
    if ws == [] then ""
    else if |ws| == 1 then Cut(text, ws[0])
    else
      var n := |ws| - 1;
      var w := Cut(text, ws[n]);
      assert forall k :: 0 <= k < n ==> ws[..n][k] == ws[k];
      Rebuilt(text, ws[..n]) + (if |w| >= CHUNK_OVERLAP then w[CHUNK_OVERLAP..] else "")
  }

  lemma {:induction false} RebuiltPrefix(text: string, ws: seq<Span>)
    requires ws != [] && ws[0].start == 0
    requires forall k :: 0 <= k < |ws| ==> Within(ws[k], text) && ws[k].end - ws[k].start >= CHUNK_OVERLAP
    requires forall k :: 0 <= k < |ws| - 1 ==> ws[k + 1].start == ws[k].end - CHUNK_OVERLAP
    ensures Rebuilt(text, ws) == text[..ws[|ws| - 1].end]
  {
    if |ws| > 1 {
      var n := |ws| - 1;
      RebuiltPrefix(text, ws[..n]);
      var w := Cut(text, ws[n]);
      assert w[CHUNK_OVERLAP..] == text[ws[n - 1].end..ws[n].end];
      assert text[..ws[n - 1].end] + text[ws[n - 1].end..ws[n].end] == text[..ws[n].end];
    }
  }

  /** Dropping the overlaps gives the text back. */
  lemma Reconstruction(text: string)
    requires |text| > CHUNK_SIZE
    ensures (forall k :: 0 <= k < |Windows(text, 0)| ==> Within(Windows(text, 0)[k], text))
            && Rebuilt(text, Windows(text, 0)) == text
  {
    hide Rebuilt, Windows, NextStart, WindowEnd;
    var ws := Windows(text, 0);
    ChunkWindows(text);
    forall k | 0 <= k < |ws|
      ensures ws[k].end - ws[k].start >= CHUNK_OVERLAP
    {
      assert k < |ws| - 1 ==> ws[k].end - CHUNK_OVERLAP > ws[k].start;
    }
    RebuiltPrefix(text, ws);
    assert text[..|text|] == text;
  }

  // ---- coverage after trimming ----

  /** Chunk `c` is the piece of the text that starts at `at`. */
  predicate Sits(text: string, c: string, at: nat) { at + |c| <= |text| && text[at..at + |c|] == c }

  predicate Covered(text: string, chunks: seq<string>, at: seq<nat>, p: nat) {
    exists j :: 0 <= j < |chunks| && j < |at| && at[j] <= p < at[j] + |chunks[j]|
  }

  predicate Placed(text: string, chunks: seq<string>, at: seq<nat>) {
    |at| == |chunks|
    && forall j :: 0 <= j < |chunks| ==> Sits(text, chunks[j], at[j]) && 0 < |chunks[j]| <= CHUNK_SIZE
  }

  ghost predicate Covers(text: string, chunks: seq<string>, at: seq<nat>, w: Span) {
    forall p :: w.start <= p < w.end && p < |text| && !IsSpace(text[p]) ==> Covered(text, chunks, at, p)
  }

  lemma CoversMore(text: string, chunks: seq<string>, at: seq<nat>, w: Span, c: string, a: nat)
    requires |at| == |chunks| && Covers(text, chunks, at, w)
    ensures Covers(text, chunks + [c], at + [a], w)
  {
    forall p | w.start <= p < w.end && p < |text| && !IsSpace(text[p])
      ensures Covered(text, chunks + [c], at + [a], p)
    {
      var j :| 0 <= j < |chunks| && j < |at| && at[j] <= p < at[j] + |chunks[j]|;
      assert (chunks + [c])[j] == chunks[j] && (at + [a])[j] == at[j];
    }
  }

  /** Trimming a window leaves a piece of the text around all its characters that are not white space. */
  lemma TrimSpan(text: string, w: Span) returns (a: nat)
    requires Within(w, text)
    ensures Sits(text, Trim(Cut(text, w)), a)
    ensures forall p :: w.start <= p < w.end && !IsSpace(text[p]) ==> a <= p < a + |Trim(Cut(text, w))|
  {
    hide Trim;
    var piece := Cut(text, w);
    var off := TrimWindow(piece);
    a := w.start + off;
    forall p | w.start <= p < w.end && !IsSpace(text[p])
      ensures a <= p < a + |Trim(piece)|
    {
      assert piece[p - w.start] == text[p];
    }
    SliceOfSlice(text, w.start, w.end, off, |Trim(piece)|);
  }

  lemma SliceOfSlice(text: string, lo: nat, hi: nat, off: nat, n: nat)
    requires lo <= hi <= |text| && off + n <= hi - lo
    ensures text[lo..hi][off..off + n] == text[lo + off..lo + off + n]
  {
    var piece := text[lo..hi];
    var a, b := piece[off..off + n], text[lo + off..lo + off + n];
    assert |a| == |b| == n;
    forall k | 0 <= k < n
      ensures a[k] == b[k]
    {
      assert a[k] == piece[off + k] == text[lo + off + k];
    }
  }

  lemma LastCovers(text: string, w: Span, chunks: seq<string>, at: seq<nat>, c: string, a: nat)
    requires |at| == |chunks|
    requires forall p :: w.start <= p < w.end && p < |text| && !IsSpace(text[p]) ==> a <= p < a + |c|
    ensures Covers(text, chunks + [c], at + [a], w)
    ensures |c| == 0 ==> Covers(text, chunks, at, w)
  {
    forall p | w.start <= p < w.end && p < |text| && !IsSpace(text[p])
      ensures Covered(text, chunks + [c], at + [a], p)
    {
      assert (chunks + [c])[|chunks|] == c && (at + [a])[|chunks|] == a;
    }
  }

  lemma {:induction false} ChunksCover(text: string, ws: seq<Span>) returns (at: seq<nat>)
    requires forall k :: 0 <= k < |ws| ==> Within(ws[k], text) && ws[k].end <= ws[k].start + CHUNK_SIZE
    ensures Placed(text, Chunks(text, ws), at)
    ensures forall k :: 0 <= k < |ws| ==> Covers(text, Chunks(text, ws), at, ws[k])
  {
    hide Trim, Covers, Covered, Sits, Cut;
    if ws == [] {
      at := [];
    } else {
      var n := |ws| - 1;
      assert forall k :: 0 <= k < n ==> ws[..n][k] == ws[k];
      var front := ChunksCover(text, ws[..n]);
      var before := Chunks(text, ws[..n]);
      var c := Trim(Cut(text, ws[n]));
      var a := TrimSpan(text, ws[n]);
      TrimShorter(Cut(text, ws[n]));
      CutShort(text, ws[n]);
      LastCovers(text, ws[n], before, front, c, a);
      if |c| > 0 {
        at := front + [a];
        assert Chunks(text, ws) == before + [c];
      } else {
        at := front;
        assert Chunks(text, ws) == before + [];
        assert Chunks(text, ws) == before;
      }
      forall k | 0 <= k < n ensures Covers(text, Chunks(text, ws), at, ws[k]) {
        assert ws[..n][k] == ws[k];
        CoversMore(text, before, front, ws[k], c, a);
      }
    }
  }

  lemma CutShort(text: string, w: Span)
    requires Within(w, text)
    ensures |Cut(text, w)| == w.end - w.start
  {
  }

  lemma TrimShorter(s: string)
    ensures |Trim(s)| <= |s|
  {
    var a := TrimWindow(s);
  }

  lemma {:induction false} ChainReaches(text: string, ws: seq<Span>, p: nat) returns (k: nat)
    requires ws != [] && ws[0].start <= p < ws[|ws| - 1].end
    requires forall j :: 0 <= j < |ws| - 1 ==> ws[j + 1].start <= ws[j].end
    ensures k < |ws| && ws[k].start <= p < ws[k].end
  {
    var n := |ws| - 1;
    if ws[n].start <= p {
      k := n;
    } else {
      assert ws[n].start <= ws[n - 1].end;
      k := ChainReaches(text, ws[..n], p);
    }
  }

  /** Every character that is not white space is in some chunk, every chunk is a piece of the text, and none
      is blank or longer than 1500. */
  lemma NothingLost(text: string)
    requires |text| > CHUNK_SIZE
    ensures (forall k :: 0 <= k < |Windows(text, 0)| ==> Within(Windows(text, 0)[k], text))
    ensures exists at: seq<nat> ::
      && Placed(text, Chunks(text, Windows(text, 0)), at)
      && (forall p :: 0 <= p < |text| && !IsSpace(text[p]) ==> Covered(text, Chunks(text, Windows(text, 0)), at, p))
  {
    var ws := Windows(text, 0);
    ChunkWindows(text);
    var at := ChunksCover(text, ws);
    forall p | 0 <= p < |text| && !IsSpace(text[p])
      ensures Covered(text, Chunks(text, ws), at, p)
    {
      var k := ChainReaches(text, ws, p);
      assert Covers(text, Chunks(text, ws), at, ws[k]);
    }
    assert Placed(text, Chunks(text, ws), at);
  }
}
