/** The chunks the path is split into (`LineTubeGeometry` objects). Only what
    the interpreters see of a chunk is kept: its points, whether it has been
    finished, and the last window it was sliced to. */
module Chunks {
  import opened Values
  import opened Arith

  /** A `[from, to)` window of local point indices, as passed to `slice`. */
  datatype Window = Window(from: int, to: int)

  datatype Chunk = Chunk(points: seq<PathPoint>, finished: bool, window: Option<Window>)

  /** A fresh chunk holding the given points. */
  function Open(points: seq<PathPoint>): Chunk {
    Chunk(points, false, None)
  }

  /** `pointsCount()` of the chunks of `parser.ts`: the first point of every
      chunk after the first is a copy of the last point of the one before and
      is not counted. */
  function PointsCount(cs: seq<Chunk>): int
    decreases |cs|
  {
    if cs == [] then 0
    else PointsCount(cs[..|cs| - 1]) + |cs[|cs| - 1].points| - (if |cs| > 1 then 1 else 0)
  }

  /** `pointsCount()` of the chunks of `gcode.ts`: a plain sum. */
  function LegacyPointsCount(cs: seq<Chunk>): int
    decreases |cs|
  {
    if cs == [] then 0 else LegacyPointsCount(cs[..|cs| - 1]) + |cs[|cs| - 1].points|
  }

  /** The chunks after `addLine` has been called with each of `pts` in turn,
      with `P` points per chunk. The point numbered `n` opens a new chunk when
      `n > 0 && n % P == 0`: the previous chunk is finished and the new one
      starts with a copy of the point added last. */
  function Chunked(P: nat, pts: seq<PathPoint>): (cs: seq<Chunk>)
    requires P > 0
    ensures |cs| == if pts == [] then 0 else (|pts| - 1) / P + 1
    decreases |pts|
  {
    if pts == [] then []
    else
      var n := |pts| - 1;
      var prev := Chunked(P, pts[..n]);
      if n == 0 then [Open([pts[0]])]
      else
        var k := |prev| - 1;
        var last := prev[k];
        if n % P == 0 then
          DivAtBoundary(n, P);
          prev[k := last.(finished := true)] + [Open([pts[n - 1], pts[n]])]
        else
          DivInside(n, P);
          prev[k := last.(points := last.points + [pts[n]])]
  }

  lemma DivAtBoundary(n: nat, P: nat)
    requires P > 0 && n > 0 && n % P == 0
    ensures (n - 1) / P + 1 == n / P
  {
    var q := n / P;
    assert n == q * P;
    assert (q - 1) * P == q * P - P;
    DivUnique(n - 1, P, q - 1);
  }

  lemma DivInside(n: nat, P: nat)
    requires P > 0 && n > 0 && n % P != 0
    ensures (n - 1) / P == n / P
  {
    var q := n / P;
    assert n == q * P + n % P;
    DivUnique(n - 1, P, q);
  }

  /** First global index of the points held by chunk `i`: chunk 0 starts at 0,
      every other chunk at the continuity point `i * P - 1`. */
  function Lo(i: nat, P: nat): int {
    if i == 0 then 0 else i * P - 1
  }

  /** One past the last global index held by chunk `i` when `n` points were
      added. */
  function Hi(i: nat, P: nat, n: nat): int {
    if (i + 1) * P < n then (i + 1) * P else n
  }

  /** Chunk `i` holds exactly the points `pts[Lo(i)..Hi(i)]`, it is finished
      unless it is the last chunk, and it has not been sliced. */
  predicate LaidOut(P: nat, pts: seq<PathPoint>, cs: seq<Chunk>, i: nat)
    requires i < |cs|
  {
    0 <= Lo(i, P) < Hi(i, P, |pts|) <= |pts| &&
    cs[i].points == pts[Lo(i, P)..Hi(i, P, |pts|)] &&
    cs[i].finished == (i < |cs| - 1) &&
    cs[i].window == None
  }

  /** The layout `Chunked` builds: every chunk is laid out as above. */
  predicate Layout(P: nat, pts: seq<PathPoint>, cs: seq<Chunk>) {
    forall i {:trigger LaidOut(P, pts, cs, i)} :: 0 <= i < |cs| ==> LaidOut(P, pts, cs, i)
  }

  lemma {:induction false} ChunkedLayout(P: nat, pts: seq<PathPoint>)
    requires P > 0
    ensures Layout(P, pts, Chunked(P, pts))
    decreases |pts|
  {
    if pts != [] {
      var n := |pts| - 1;
      var prev := Chunked(P, pts[..n]);
      var cs := Chunked(P, pts);
      if n > 0 {
        ChunkedLayout(P, pts[..n]);
        var k := |prev| - 1;
        assert k == (n - 1) / P;
        QuotientBounds(n - 1, P);
        assert (k + 1) * P == k * P + P;
        ChunkedStep(P, pts);
        forall i | 0 <= i < |cs|
          ensures LaidOut(P, pts, cs, i)
        {
          LayoutStep(P, pts, prev, cs, k, i);
        }
      } else {
        assert LaidOut(P, pts, cs, 0);
      }
    }
  }

  /** Chunk `i` of `Chunked(P, pts)`, one at a time. */
  lemma ChunkAt(P: nat, pts: seq<PathPoint>, i: nat)
    requires P > 0 && i < |Chunked(P, pts)|
    ensures var cs := Chunked(P, pts);
      0 <= Lo(i, P) < Hi(i, P, |pts|) <= |pts| &&
      cs[i].points == pts[Lo(i, P)..Hi(i, P, |pts|)] &&
      cs[i].finished == (i < |cs| - 1) &&
      cs[i].window == None
  {
    ChunkedLayout(P, pts);
    assert LaidOut(P, pts, Chunked(P, pts), i);
  }

  /** How `cs` grows out of `prev` when point `pts[|pts| - 1]` is added: the
      earlier chunks are kept, the last one is finished or extended, and a
      new chunk is opened at a multiple of `P`. */
  predicate Grows(P: nat, pts: seq<PathPoint>, prev: seq<Chunk>, cs: seq<Chunk>)
    requires P > 0 && |pts| >= 2 && prev != []
  {
    var n := |pts| - 1;
    var k := |prev| - 1;
    |cs| == (if n % P == 0 then k + 2 else k + 1) &&
    (forall i :: 0 <= i < k ==> cs[i] == prev[i]) &&
    cs[k].points == (if n % P == 0 then prev[k].points else prev[k].points + [pts[n]]) &&
    cs[k].finished == (n % P == 0) && cs[k].window == prev[k].window &&
    (n % P == 0 ==> cs[k + 1] == Open([pts[n - 1], pts[n]]))
  }

  /** `Chunked` of two or more points grows out of `Chunked` of all but the
      last one. */
  lemma ChunkedStep(P: nat, pts: seq<PathPoint>)
    requires P > 0 && |pts| >= 2
    ensures Chunked(P, pts[..|pts| - 1]) != []
    ensures Grows(P, pts, Chunked(P, pts[..|pts| - 1]), Chunked(P, pts))
  {
  }

  /** One step of `ChunkedLayout`: how chunk `i` is obtained from the layout of
      the first `|pts| - 1` points. */
  lemma LayoutStep(P: nat, pts: seq<PathPoint>, prev: seq<Chunk>, cs: seq<Chunk>, k: nat, i: nat)
    requires P > 0 && |pts| >= 2 && prev != [] && Grows(P, pts, prev, cs)
    requires Layout(P, pts[..|pts| - 1], prev)
    requires k == |prev| - 1 && k * P <= |pts| - 2 < (k + 1) * P
    requires i < |cs|
    ensures LaidOut(P, pts, cs, i)
  {
    var n := |pts| - 1;
    StepArith(n, P, k);
    if i < k {
      assert LaidOut(P, pts[..n], prev, i);
      LayoutStepEarlier(P, pts, prev, k, i);
    } else if i == k {
      assert LaidOut(P, pts[..n], prev, k);
      LayoutStepLast(P, pts, prev, k);
    } else {
      assert pts[n - 1..n + 1] == [pts[n - 1], pts[n]];
    }
  }

  /** Where the point numbered `n` goes when the first `n` points fill chunks
      `0..k`. */
  lemma StepArith(n: nat, P: nat, k: nat)
    requires P > 0 && k * P <= n - 1 < (k + 1) * P
    ensures n % P == 0 <==> n == (k + 1) * P
    ensures (n - 1) / P == k
    ensures n == (k + 1) * P ==> n / P == k + 1
    ensures n != (k + 1) * P ==> n / P == k
    ensures Hi(k, P, n) == n
    ensures Hi(k, P, n + 1) == if n % P == 0 then n else n + 1
    ensures n == (k + 1) * P ==> Lo(k + 1, P) == n - 1 && Hi(k + 1, P, n + 1) == n + 1
  {
    MultipleHasNoRemainder(k + 1, P);
    DivUnique(n - 1, P, k);
    assert (k + 2) * P == (k + 1) * P + P;
    if n < (k + 1) * P {
      DivUnique(n, P, k);
    }
  }

  /** A chunk before the last keeps its points, which are still
      `pts[Lo(i)..Hi(i)]`. */
  lemma LayoutStepEarlier(P: nat, pts: seq<PathPoint>, prev: seq<Chunk>, k: nat, i: nat)
    requires P > 0 && |pts| >= 2
    requires k == |prev| - 1 && k * P <= |pts| - 2 && i < k
    requires LaidOut(P, pts[..|pts| - 1], prev, i)
    ensures 0 <= Lo(i, P) < Hi(i, P, |pts|) <= |pts|
    ensures prev[i].points == pts[Lo(i, P)..Hi(i, P, |pts|)]
    ensures prev[i].finished && prev[i].window == None
  {
    var n := |pts| - 1;
    var init := pts[..n];
    MulMono(i + 1, k, P);
    assert Hi(i, P, n) == Hi(i, P, |pts|) == (i + 1) * P;
    assert init[Lo(i, P)..Hi(i, P, n)] == pts[Lo(i, P)..Hi(i, P, |pts|)];
  }

  /** The last chunk keeps its points when the new point opens a chunk, and
      gains the new point otherwise. */
  lemma LayoutStepLast(P: nat, pts: seq<PathPoint>, prev: seq<Chunk>, k: nat)
    requires P > 0 && |pts| >= 2 && k == |prev| - 1
    requires LaidOut(P, pts[..|pts| - 1], prev, k) && Hi(k, P, |pts| - 1) == |pts| - 1
    requires Hi(k, P, |pts|) == if (|pts| - 1) % P == 0 then |pts| - 1 else |pts|
    ensures 0 <= Lo(k, P) < Hi(k, P, |pts|) <= |pts|
    ensures (if (|pts| - 1) % P == 0 then prev[k].points else prev[k].points + [pts[|pts| - 1]])
      == pts[Lo(k, P)..Hi(k, P, |pts|)]
    ensures prev[k].window == None
  {
    var n := |pts| - 1;
    var lo := Lo(k, P);
    assert prev[k].points == pts[..n][lo..n];
    if n % P == 0 {
      assert pts[..n][lo..n] == pts[lo..n];
    } else {
      assert pts[..n][lo..n] + [pts[n]] == pts[lo..n + 1];
    }
  }

  /** Every chunk after the first starts with a copy of the last point of the
      chunk before it, so the rendered tubes join up. */
  lemma ChunksAreContinuous(P: nat, pts: seq<PathPoint>, i: nat)
    requires P > 0 && 0 < i < |Chunked(P, pts)|
    ensures var cs := Chunked(P, pts);
      |cs[i - 1].points| > 0 && |cs[i].points| > 0 &&
      cs[i].points[0] == cs[i - 1].points[|cs[i - 1].points| - 1]
  {
    ChunkAt(P, pts, i - 1);
    ChunkAt(P, pts, i);
    var cs := Chunked(P, pts);
    assert i <= (|pts| - 1) / P;
    QuotientBounds(|pts| - 1, P);
    MulMono(i, (|pts| - 1) / P, P);
    assert Hi(i - 1, P, |pts|) == i * P;
  }

  /** `PointsCount` counts every added point exactly once. */
  lemma {:induction false} PointsCountOfChunked(P: nat, pts: seq<PathPoint>)
    requires P > 0
    ensures PointsCount(Chunked(P, pts)) == |pts|
    decreases |pts|
  {
    if pts != [] {
      var n := |pts| - 1;
      if n > 0 {
        PointsCountOfChunked(P, pts[..n]);
        var prev := Chunked(P, pts[..n]);
        var cs := Chunked(P, pts);
        var k := |prev| - 1;
        if n % P == 0 {
          assert cs[..|cs| - 1] == prev[k := prev[k].(finished := true)];
          CountIgnoresFlags(prev, prev[k := prev[k].(finished := true)]);
        } else {
          assert cs[..k] == prev[..k];
        }
      }
    }
  }

  /** The count only depends on the number of points of each chunk. */
  lemma {:induction false} CountIgnoresFlags(a: seq<Chunk>, b: seq<Chunk>)
    requires |a| == |b| && forall i :: 0 <= i < |a| ==> |a[i].points| == |b[i].points|
    ensures PointsCount(a) == PointsCount(b) && LegacyPointsCount(a) == LegacyPointsCount(b)
    decreases |a|
  {
    if a != [] {
      CountIgnoresFlags(a[..|a| - 1], b[..|b| - 1]);
    }
  }

  /** The plain sum of `gcode.ts` counts every continuity point a second time. */
  lemma {:induction false} LegacyCountOfChunked(P: nat, pts: seq<PathPoint>)
    requires P > 0 && pts != []
    ensures LegacyPointsCount(Chunked(P, pts)) == |pts| + |Chunked(P, pts)| - 1
  {
    var cs := Chunked(P, pts);
    SumsDiffer(cs);
    PointsCountOfChunked(P, pts);
  }

  lemma {:induction false} SumsDiffer(cs: seq<Chunk>)
    requires cs != []
    ensures LegacyPointsCount(cs) == PointsCount(cs) + |cs| - 1
    decreases |cs|
  {
    if |cs| > 1 {
      SumsDiffer(cs[..|cs| - 1]);
    }
  }

  /** Fourteen points with four points per chunk give chunks of 4, 5, 5 and 3
      points. */
  lemma FourteenPoints(pts: seq<PathPoint>)
    requires |pts| == 14
    ensures var cs := Chunked(4, pts);
      |cs| == 4 && |cs[0].points| == 4 && |cs[1].points| == 5 &&
      |cs[2].points| == 5 && |cs[3].points| == 3
  {
    ChunkAt(4, pts, 0);
    ChunkAt(4, pts, 1);
    ChunkAt(4, pts, 2);
    ChunkAt(4, pts, 3);
  }

  /** What `addLine` keeps between calls once the points `pts` have been
      added: the chunks are `Chunked(P, pts)`, `currentObject` is the index of
      the last chunk, `lastAdded` the point added last and `pointCount` the
      number of points added. */
  predicate Routed(P: nat, pts: seq<PathPoint>, cs: seq<Chunk>, currentObject: nat,
                   lastAdded: Option<PathPoint>, pointCount: nat)
    requires P > 0
  {
    cs == Chunked(P, pts) && pointCount == |pts| &&
    currentObject == (if pts == [] then 0 else |cs| - 1) &&
    lastAdded == (if pts == [] then None else Some(pts[|pts| - 1]))
  }

  /** `addLine(newLine)`: when `pointCount` is a positive multiple of `P` the
      current chunk is finished and the next one becomes current; a current
      chunk that does not exist yet is created holding the point added last;
      then the point is added to it. */
  method AddLine(P: nat, cs: seq<Chunk>, currentObject: nat, lastAdded: Option<PathPoint>,
                 pointCount: nat, newLine: PathPoint, ghost pts: seq<PathPoint>)
    returns (cs': seq<Chunk>, currentObject': nat, lastAdded': Option<PathPoint>, pointCount': nat)
    requires P > 0 && Routed(P, pts, cs, currentObject, lastAdded, pointCount)
    ensures Routed(P, pts + [newLine], cs', currentObject', lastAdded', pointCount')
  {
    ChunkedAppend(P, pts, newLine);
    cs' := cs;
    currentObject' := currentObject;
    if pointCount > 0 && pointCount % P == 0 {
      cs' := cs'[currentObject' := cs'[currentObject'].(finished := true)];
      currentObject' := currentObject' + 1;
    }
    if currentObject' >= |cs'| {
      cs' := cs' + [Open(if lastAdded.Some? then [lastAdded.value] else [])];
    }
    ghost var before := cs';
    cs' := cs'[currentObject' := cs'[currentObject'].(points := cs'[currentObject'].points + [newLine])];
    lastAdded' := Some(newLine);
    pointCount' := pointCount + 1;
    if pts == [] {
      assert cs' == [Open([newLine])];
    } else if |pts| % P == 0 {
      var k := |cs| - 1;
      assert before == cs[k := cs[k].(finished := true)] + [Open([pts[|pts| - 1]])];
      assert cs'[k + 1] == Open([pts[|pts| - 1], newLine]);
    } else {
      assert currentObject' == |cs| - 1;
    }
  }

  /** `Chunked` of one more point, case by case. */
  lemma ChunkedAppend(P: nat, pts: seq<PathPoint>, p: PathPoint)
    requires P > 0
    ensures var cs := Chunked(P, pts); var k := |cs| - 1;
      Chunked(P, pts + [p]) ==
        if pts == [] then [Open([p])]
        else if |pts| % P == 0 then cs[k := cs[k].(finished := true)] + [Open([pts[|pts| - 1], p])]
        else cs[k := cs[k].(points := cs[k].points + [p])]
  {
    var q := pts + [p];
    assert q[..|pts|] == pts;
  }

  /** `combinedLines[currentObject].finish()` at the end of a run, on the last
      chunk. */
  function FinishLast(cs: seq<Chunk>): (r: seq<Chunk>)
    ensures |r| == |cs|
    ensures forall i :: 0 <= i < |cs| ==> r[i].points == cs[i].points && r[i].window == cs[i].window
    ensures cs != [] ==> r[|cs| - 1].finished
    ensures forall i :: 0 <= i < |cs| - 1 ==> r[i].finished == cs[i].finished
  {
    if cs == [] then [] else cs[|cs| - 1 := cs[|cs| - 1].(finished := true)]
  }

  /** After the last chunk is finished every chunk is, each still holds its
      points, and `pointsCount()` is still the number of points added. */
  lemma FinishedChunks(P: nat, pts: seq<PathPoint>, i: nat)
    requires P > 0 && i < |Chunked(P, pts)|
    ensures var cs := FinishLast(Chunked(P, pts));
      PointsCount(cs) == |pts| && cs[i].finished && cs[i].points == pts[Lo(i, P)..Hi(i, P, |pts|)]
  {
    var cs := Chunked(P, pts);
    ChunkAt(P, pts, i);
    PointsCountOfChunked(P, pts);
    CountIgnoresFlags(FinishLast(cs), cs);
    assert cs[i].points == pts[Lo(i, P)..Hi(i, P, |pts|)];
  }

  /** Once the last chunk is finished, `pointsCount()` is the number of
      points added, none or some. */
  lemma CountAfterFinish(P: nat, pts: seq<PathPoint>)
    requires P > 0
    ensures PointsCount(FinishLast(Chunked(P, pts))) == |pts|
  {
    if pts != [] {
      FinishedChunks(P, pts, 0);
    }
  }
}
