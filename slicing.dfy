/** The window arithmetic of `GCodeParser.slice`: which local points of each
    chunk a global point range `[start, end)` selects. */
module Slicing {
  import opened Values
  import opened Arith
  import opened Chunks

  /** The end of a slice: a number, or `NaN` (what `sliceLayer` passes when the
      end layer does not exist). */
  datatype Bound = Finite(n: int) | NotANumber

  datatype SliceError = NegativeBound

  /** The window `slice(start, end)` gives chunk `i`, which holds `local`
      points, when the model has `total` points and `P` points per chunk.
      `NaN` compares false with everything, so with a `NaN` end no chunk is
      the last selected one and none lies after it. */
  function SliceWindow(i: nat, local: nat, start: int, end: Bound, P: nat, total: int): Window
    requires P > 0
  {
    if end == Finite(start) then Window(0, 0)
    else
      var objectStart := start / P;
      var from := if i == objectStart then start - i * P + (if objectStart > 0 then 1 else 0) else 0;
      match end
      case NotANumber => if i < objectStart then Window(0, 0) else Window(from, local)
      case Finite(e) =>
        var objectEnd := CeilDiv(e, P) - 1;
        var to := if i == objectEnd then e - i * P + (if objectEnd <= total / P then 1 else 0) else local;
        if i < objectStart || i > objectEnd then Window(0, 0) else Window(from, to)
  }

  /** The windows of every chunk. */
  function SliceAll(cs: seq<Chunk>, start: int, end: Bound, P: nat, total: int): (r: seq<Chunk>)
    requires P > 0
    ensures |r| == |cs|
    ensures forall i :: 0 <= i < |cs| ==>
      r[i] == cs[i].(window := Some(SliceWindow(i, |cs[i].points|, start, end, P, total)))
  {
    seq(|cs|, i requires 0 <= i < |cs| => cs[i].(window := Some(SliceWindow(i, |cs[i].points|, start, end, P, total))))
  }

  /** Equal ends select nothing in every chunk. */
  lemma EqualEndsSelectNothing(i: nat, local: nat, s: int, P: nat, total: int)
    requires P > 0
    ensures SliceWindow(i, local, s, Finite(s), P, total) == Window(0, 0)
  {
  }

  /** Chunks before the one holding `start`, or after the one holding the
      point before `end`, select nothing; the chunks in between are whole. */
  lemma OutsideAndInside(i: nat, local: nat, s: int, e: Bound, P: nat, total: int)
    requires P > 0 && e != Finite(s)
    ensures i < s / P ==> SliceWindow(i, local, s, e, P, total) == Window(0, 0)
    ensures e.Finite? && i > CeilDiv(e.n, P) - 1 ==> SliceWindow(i, local, s, e, P, total) == Window(0, 0)
    ensures s / P < i && (e.NotANumber? || i < CeilDiv(e.n, P) - 1) ==>
              SliceWindow(i, local, s, e, P, total) == Window(0, local)
  {
  }

  /** A reversed range (`start > end >= 0`) gives every chunk an empty or
      reversed window: `from >= to`. */
  lemma ReversedSelectsNothing(i: nat, local: nat, s: int, e: int, P: nat, total: int)
    requires P > 0 && s > e >= 0
    ensures var w := SliceWindow(i, local, s, Finite(e), P, total); w.from >= w.to
  {
    if e >= 1 {
      CeilOfEnd(e, P);
      DivMono(e - 1, s, P);
    } else {
      assert CeilDiv(e, P) == 0;
    }
  }

  /** Over the chunks `Chunked` builds, `slice(start, end)` with
      `0 <= start < end <= n` selects the global points `[start, end)`: the
      selected chunks are those from the one holding `start` to the one holding
      `end - 1`, the first begins at global point `start`, the inner ones are
      whole, and the last ends at global point `end` — except when that last
      chunk is the first chunk, whose window ends one point later, at
      `end + 1`. */
  lemma SliceSelectsRange(P: nat, pts: seq<PathPoint>, s: int, e: int, i: nat)
    requires P > 0 && 0 <= s < e <= |pts|
    requires i < |Chunked(P, pts)|
    ensures var cs := Chunked(P, pts);
      var w := SliceWindow(i, |cs[i].points|, s, Finite(e), P, |pts|);
      (i < s / P || i > (e - 1) / P ==> w == Window(0, 0)) &&
      (s / P <= i <= (e - 1) / P ==>
        Lo(i, P) + w.from == (if i == s / P then s else Lo(i, P)) &&
        Lo(i, P) + w.to == (if i == (e - 1) / P then e + (if i == 0 then 1 else 0) else Hi(i, P, |pts|)))
  {
    ChunkAt(P, pts, i);
    var n := |pts|;
    var cs := Chunked(P, pts);
    assert |cs[i].points| == Hi(i, P, n) - Lo(i, P);
    CeilOfEnd(e, P);
    var r := (e - 1) / P;
    assert r <= n / P by {
      QuotientBounds(e - 1, P);
      QuotientBounds(n, P);
      MulBelow(n / P, r, P);
    }
    if s / P <= i <= r {
      InsideRange(P, n, s, e, i);
    }
  }

  /** `Math.ceil(end / P) - 1` is the chunk index of the point before `end`. */
  lemma CeilOfEnd(e: int, P: nat)
    requires P > 0 && e >= 1
    ensures CeilDiv(e, P) - 1 == (e - 1) / P
  {
    var c := CeilDiv(e, P);
    QuotientBounds(e - 1, P);
    DivUnique(e - 1, P, c - 1);
  }

  /** The global ends of a selected chunk's window. */
  lemma InsideRange(P: nat, n: nat, s: int, e: int, i: nat)
    requires P > 0 && 0 <= s < e <= n && s / P <= i <= (e - 1) / P
    ensures i * P <= n - 1 || i == 0
    ensures i == s / P ==> (if i > 0 then i * P - 1 else 0) + (s - i * P + (if i > 0 then 1 else 0)) == s
    ensures i < (e - 1) / P ==> Hi(i, P, n) == (i + 1) * P
    ensures i * P < e <= Hi(i, P, n) || i < (e - 1) / P
  {
    QuotientBounds(e - 1, P);
    MulMono(i, (e - 1) / P, P);
    if i < (e - 1) / P {
      MulBelow(i, (e - 1) / P, P);
    }
    assert (i + 1) * P == i * P + P;
  }

  /** Slicing the whole model, `slice(0, n)`, shows every chunk whole; a model
      held in a single chunk gets a window one point longer than the chunk. */
  lemma SliceEverything(P: nat, pts: seq<PathPoint>, i: nat)
    requires P > 0 && pts != [] && i < |Chunked(P, pts)|
    ensures var cs := Chunked(P, pts);
      SliceWindow(i, |cs[i].points|, 0, Finite(|pts|), P, |pts|) ==
        Window(0, |cs[i].points| + (if |cs| == 1 then 1 else 0))
  {
    SliceSelectsRange(P, pts, 0, |pts|, i);
    ChunkAt(P, pts, i);
    var cs := Chunked(P, pts);
    var n := |pts|;
    if i == (n - 1) / P {
      assert Hi(i, P, n) == n by {
        QuotientBounds(n - 1, P);
      }
    }
  }

  /** `slice(4)` over the fourteen points, four per chunk, of the sample in
      the tests: nothing of chunk 0, chunk 1 from its second point, chunks 2
      and 3 whole. */
  lemma SliceFromFour(pts: seq<PathPoint>)
    requires |pts| == 14
    ensures var cs := Chunked(4, pts);
      |cs| == 4 &&
      SliceWindow(0, |cs[0].points|, 4, Finite(14), 4, 14) == Window(0, 0) &&
      SliceWindow(1, |cs[1].points|, 4, Finite(14), 4, 14) == Window(1, 5) &&
      SliceWindow(2, |cs[2].points|, 4, Finite(14), 4, 14) == Window(0, 5) &&
      SliceWindow(3, |cs[3].points|, 4, Finite(14), 4, 14) == Window(0, 3)
  {
    FourteenPoints(pts);
  }
}
