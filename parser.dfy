/** `GCodeParser`: reads the G-code once into chunks of path points and a
    layer table, and then shows a window of the points by point range or by
    layer range. */
module Parser {
  import opened Values
  import opened Text
  import opened LayerTable
  import opened Colorizers
  import opened Chunks
  import opened Slicing
  import opened Interpreter
  import Metadata

  /** The run `parse` makes over the text `gCode`. */
  function ParseRun(gCode: string, travelWidth: real, length: (Vec3, Vec3) -> real, colors: ColorState): Progress {
    var lines := Split(gCode, '\n');
    RunLines(lines, |lines|, travelWidth, length, Start(colors))
  }

  /** `start && layerDefinition[start]?.start`: no start stays no start and
      layer 0 gives 0; a missing layer gives no start, which `slice` takes as
      0. */
  function LayerStart(defs: seq<LayerDefinition>, start: Option<int>): Option<int> {
    if start.None? || start.value == 0 then start
    else if 0 <= start.value < |defs| then Some(defs[start.value].start)
    else None
  }

  /** `end && layerDefinition[end]?.end + 1`: no end stays no end and layer 0
      gives 0; a missing layer gives `NaN`. */
  function LayerEnd(defs: seq<LayerDefinition>, end: Option<int>): Option<Bound> {
    if end.None? then None
    else if end.value == 0 then Some(Finite(0))
    else if 0 <= end.value < |defs| then Some(Finite(defs[end.value].end + 1))
    else Some(NotANumber)
  }

  /** A parse that does not fail, with run `p`, builds a layer table with one
      entry per distinct index among the layer markers of the text, so that
      `layerCount()` is that number less one. */
  lemma LayerTableOfMarkers(text: string, travelWidth: real, length: (Vec3, Vec3) -> real, colors: ColorState,
                            p: Progress)
    requires p == ParseRun(text, travelWidth, length, colors) && p.error.None?
    ensures var lines := Split(text, '\n');
      UniqueKeys(p.run.layers) &&
      Keys(p.run.layers) == Declared(lines, |lines|) && |p.run.layers| == |Declared(lines, |lines|)| &&
      (p.run.layers != [] ==> |FinalLayers(p.run.layers, |p.run.points|).value| == |Declared(lines, |lines|)|)
  {
    var lines := Split(text, '\n');
    LayerKeys(lines, |lines|, travelWidth, length, Start(colors));
    RunPreserves(lines, |lines|, travelWidth, length, Start(colors));
    KeysOfUnique(p.run.layers);
    FinalLayersSpec(p.run.layers, |p.run.points|);
  }

  /** After a parse, `sliceLayer(a, layerCount())` with a non-zero layer `a`
      ends at the last point: the last layer ends at `pointsCount() - 1`, and
      it starts where layer `a` of the sorted table starts. */
  lemma SliceToLastLayer(layers: Entries<int>, count: int, a: int)
    requires FinalLayers(layers, count).Some?
    requires var t := FinalLayers(layers, count).value; |t| >= 2 && 0 < a < |t|
    ensures var t := FinalLayers(layers, count).value;
      LayerEnd(t, Some(|t| - 1)) == Some(Finite(count)) &&
      LayerStart(t, Some(a)) == Some(SortedLayers(layers)[a].start)
  {
    var sorted := SortedLayers(layers);
    var t := FinalLayers(layers, count).value;
    assert t[a].start == sorted[a].start;
  }

  /** A layer past the end of the table gives a `NaN` end, which shows every
      chunk from the one holding the start to its end. */
  lemma MissingEndLayer(defs: seq<LayerDefinition>, b: int, i: nat, local: nat, s: int, P: nat, total: int)
    requires P > 0 && b >= |defs| && b != 0 && s / P < i
    ensures LayerEnd(defs, Some(b)) == Some(NotANumber)
    ensures SliceWindow(i, local, s, NotANumber, P, total) == Window(0, local)
  {
  }

  /** The state `lineGenerator` keeps between lines: the machine, the bounding
      box of the extruded points and the layer being read; the layer cache
      is shared with `parse`. */
  datatype Generator = Generator(machine: Machine, bounds: Bounds, currentLayer: Option<int>, layers: Entries<int>)

  /** The run a generator state stands for, once `points` have been emitted
      and the colorizer is in state `colors`. */
  function RunOf(g: Generator, points: seq<PathPoint>, colors: ColorState): Run {
    Run(g.machine, g.bounds, g.currentLayer, g.layers, points, colors)
  }

  /** The run `lineGenerator` has made once it has read the first `i` of
      `lines`. */
  function Generated(lines: seq<string>, i: nat, travelWidth: real, length: (Vec3, Vec3) -> real, init: Run): Progress
    requires i <= |lines|
  {
    RunLines(lines, i, travelWidth, length, init)
  }

  /** The loop of `parse` over `lineGenerator` with colorizer `c`: every
      point the generator yields replaces `min` and `max` by the generator's
      bounds and goes to `addLine`, which routes it into the chunks `cs`. It
      returns the generator's last state, the new chunks and bounds, the index
      of the current chunk and the error that stopped the run, if any. A parse
      that follows another one reads only an empty line. */
  method Generate(c: Colorizer, travelWidth: real, P: nat, text: string, cs: seq<Chunk>,
                  min: Option<Vec3>, max: Option<Vec3>, length: (Vec3, Vec3) -> real)
    returns (g: Generator, cs': seq<Chunk>, currentObject: nat, min': Option<Vec3>, max': Option<Vec3>,
             error: Option<ParseError>)
    requires P > 0 && (cs == [] || text == "")
    modifies Footprint(c)
    ensures var p := ParseRun(text, travelWidth, length, old(StateOf(c)));
      p.error == error && StateOf(c) == p.run.colors &&
      (error.None? ==> p.run == RunOf(g, p.run.points, p.run.colors)) &&
      (p.run.points == [] ==> min' == min && max' == max) &&
      (p.run.points != [] ==> min' == p.run.bounds.min && max' == p.run.bounds.max) &&
      (cs == [] ==> cs' == Chunked(P, p.run.points) && currentObject == if p.run.points == [] then 0 else |cs'| - 1) &&
      (cs != [] ==> p == Progress(Start(old(StateOf(c))), None) && cs' == cs && currentObject == 0)
  {
    var lines := Split(text, '\n');
    ghost var colors0 := StateOf(c);
    if cs != [] {
      BlankLine(Start(colors0), travelWidth, length);
    }
    g := Generator(Machine(Vec3(0.0, 0.0, 0.0), 0.0, 0.0, 0.0, Relative(false, false, false, false)),
                   Bounds(None, None), None, []);
    cs', min', max' := cs, min, max;
    ghost var points: seq<PathPoint> := [];
    // The state of `addLine`.
    currentObject := 0;
    var lastAdded: Option<PathPoint> := None;
    var pointCount: nat := 0;
    error := None;
    var i := 0;
    while i < |lines| && error.None?
      invariant 0 <= i <= |lines|
      invariant Generated(lines, i, travelWidth, length, Start(colors0)) ==
                Progress(RunOf(g, points, StateOf(c)), error)
      invariant pointCount == |points|
      invariant cs == [] ==> Routed(P, points, cs', currentObject, lastAdded, pointCount)
      invariant cs != [] ==> lines == [""] && points == [] && currentObject == 0 && cs' == cs
      invariant points == [] ==> min' == min && max' == max
      invariant points != [] ==> min' == g.bounds.min && max' == g.bounds.max
    {
      var point;
      g, point, error := GenerateLine(c, travelWidth, g, lines, i, pointCount, points, length, Start(colors0));
      if point.Some? {
        min', max' := g.bounds.min, g.bounds.max;
        cs', currentObject, lastAdded, pointCount :=
          AddLine(P, cs', currentObject, lastAdded, pointCount, point.value, points);
        points := points + [point.value];
      } else {
        assert points + [] == points;
        if error.Some? && pointCount != 0 {
          // The corners shown already are the generator's, widened in place.
          min', max' := g.bounds.min, g.bounds.max;
        }
      }
      i := i + 1;
    }
    if error.Some? {
      ErrorSticks(lines, i, |lines|, travelWidth, length, Start(colors0));
    }
  }

  /** Line `i` of `lineGenerator` with colorizer `c`, after a run over the
      lines before it that `g` and `points` stand for: the interpreter's step
      on that line, with the point it yields, if any, split off from the run.
      `count` is the number of points `addLine` has taken so far. */
  method GenerateLine(c: Colorizer, travelWidth: real, g: Generator, lines: seq<string>, i: nat, count: nat,
                      ghost points: seq<PathPoint>, length: (Vec3, Vec3) -> real, ghost init: Run)
    returns (g': Generator, point: Option<PathPoint>, error: Option<ParseError>)
    requires i < |lines| && count == |points|
    requires Generated(lines, i, travelWidth, length, init) == Progress(RunOf(g, points, StateOf(c)), None)
    modifies Footprint(c)
    ensures var p := Generated(lines, i + 1, travelWidth, length, init);
      p.error == error && p.run.colors == StateOf(c) &&
      p.run == RunOf(g', points + (if point.Some? then [point.value] else []), StateOf(c)) &&
      (point.Some? ==> error.None? && g'.bounds == p.run.bounds) &&
      (point.None? && error.None? ==> g'.bounds == g.bounds)
  {
    RunLinesNext(lines, i, travelWidth, length, init);
    var line := lines[i];
    g', point, error := g, None, None;
    if Contains(line, LAYER_MARKER) {
      var k := LayerIndex(line);
      if k.Some? {
        g' := g.(currentLayer := k, layers := CloseAndOpen(g.layers, g.currentLayer, count, k.value));
      }
      return;
    }
    var cmd := Words(line);
    if cmd[0] == "G0" || cmd[0] == "G1" {
      g', point, error := GenerateMove(c, travelWidth, g, cmd, i, points, length);
    } else {
      var next := Execute(g.machine, cmd);
      if next.Err? {
        error := Some(next.error);
      } else {
        g' := g.(machine := next.value);
      }
    }
  }

  /** A `G0`/`G1` line of `lineGenerator`. */
  method GenerateMove(c: Colorizer, travelWidth: real, g: Generator, cmd: seq<string>, lineNumber: nat,
                      ghost points: seq<PathPoint>, length: (Vec3, Vec3) -> real)
    returns (g': Generator, point: Option<PathPoint>, error: Option<ParseError>)
    modifies Footprint(c)
    ensures var p := Move(RunOf(g, points, old(StateOf(c))), cmd, lineNumber, travelWidth, length);
      p.error == error && p.run.colors == StateOf(c) &&
      p.run == RunOf(g', points + (if point.Some? then [point.value] else []), StateOf(c)) &&
      (point.Some? ==> error.None?) && (point.None? && error.None? ==> g'.bounds == g.bounds)
  {
    var m := g.machine;
    var newPoint := Target(m, cmd);
    var e := GetValue(cmd, 'E', m.lastE, m.relative.e);
    var f := ParseValue(FindWord(cmd, 'F'), m.lastF);
    var len := length(m.lastPoint, newPoint);
    var moved := m.(lastPoint := newPoint, lastE := e, lastF := f);
    g', point, error := g.(machine := moved), None, None;
    if len != 0.0 {
      var radius := Radius(e, m.lastE, len, travelWidth);
      var bounds := if Rate(e, m.lastE, len) > 0.0 then CalcMinMax(g.bounds, newPoint) else g.bounds;
      var meta := SegmentMetadata(m.lastPoint, newPoint, radius, m.hotendTemp, f, Some(lineNumber));
      var color := GetColor(c, meta);
      if color.Err? {
        g', error := g.(bounds := WidenedInPlace(g.bounds, bounds)), Some(ColorFailure(color.error));
        return;
      }
      g' := g'.(bounds := bounds);
      point := Some(PathPoint(m.lastPoint, radius, color.value));
    }
  }

  /** The end of `parse` once the generator is exhausted: the current chunk
      is finished, then the layer cache is sorted by start and its last entry
      closed at the last point, which fails (`None`) when there is no entry.
      The chunks `chunks` are those `Generate` leaves from the chunks `cs0`
      held before. */
  function FinishRun(P: nat, chunks: seq<Chunk>, currentObject: nat, layers: Entries<int>,
                     ghost points: seq<PathPoint>, ghost cs0: seq<Chunk>): (r: (seq<Chunk>, Option<seq<LayerDefinition>>))
    requires P > 0
    requires cs0 == [] ==> chunks == Chunked(P, points) && currentObject == (if points == [] then 0 else |chunks| - 1)
    requires cs0 != [] ==> chunks == cs0 && currentObject == 0 && points == [] && layers == []
    ensures cs0 == [] ==> r.0 == FinishLast(Chunked(P, points))
    ensures cs0 != [] ==> r.0 == cs0[0 := cs0[0].(finished := true)]
    ensures r.1 == FinalLayers(layers, |points|)
    ensures r.1.None? <==> layers == []
  {
    var finished := if currentObject < |chunks| then chunks[currentObject := chunks[currentObject].(finished := true)] else chunks;
    FinalLayersSpec(layers, Chunks.PointsCount(finished));
    CountAfterFinish(P, points);
    (finished, FinalLayers(layers, Chunks.PointsCount(finished)))
  }

  class GCodeParser {
    var combinedLines: seq<Chunk>
    var gCode: string
    var min: Option<Vec3>
    var max: Option<Vec3>
    var minTemp: Option<real>
    var maxTemp: real
    var minSpeed: Option<real>
    var maxSpeed: real
    var layerDefinition: seq<LayerDefinition>
    var travelWidth: real
    var colorizer: Colorizer
    var pointsPerObject: nat

    /** Chunks of a positive size; once the text has been parsed into chunks
        it is dropped. */
    predicate Valid()
      reads this
    {
      pointsPerObject > 0 && (combinedLines != [] ==> gCode == "")
    }

    constructor (gCode: string)
      ensures Valid()
      ensures (this.gCode, combinedLines, layerDefinition, min, max) == (gCode, [], [], None, None)
      ensures (travelWidth, colorizer, pointsPerObject) == (0.01, Simple(SimpleColorizer(DEFAULT_COLOR)), 120000)
      ensures var lines := Split(gCode, '\n');
        Metadata.Extremes(minTemp, maxTemp) == Metadata.Scan(Metadata.Temps(lines)) &&
        Metadata.Extremes(minSpeed, maxSpeed) == Metadata.Scan(Metadata.Speeds(lines))
    {
      combinedLines := [];
      this.gCode := gCode;
      min := None;
      max := None;
      minTemp := None;
      maxTemp := 0.0;
      minSpeed := None;
      maxSpeed := 0.0;
      layerDefinition := [];
      travelWidth := 0.01;
      colorizer := Simple(SimpleColorizer(DEFAULT_COLOR));
      pointsPerObject := 120000;
      new;
      CalcMinMaxMetadata();
    }

    /** `calcMinMaxMetadata`: the temperature and speed extremes of the text,
        seen line by line on top of the current ones. */
    method CalcMinMaxMetadata()
      modifies this
      ensures unchanged(this`gCode, this`combinedLines, this`min, this`max, this`layerDefinition,
                        this`travelWidth, this`colorizer, this`pointsPerObject)
      ensures var lines := Split(gCode, '\n');
        Metadata.Extremes(minTemp, maxTemp) == Metadata.Fold(old(Metadata.Extremes(minTemp, maxTemp)), Metadata.Temps(lines)) &&
        Metadata.Extremes(minSpeed, maxSpeed) == Metadata.Fold(old(Metadata.Extremes(minSpeed, maxSpeed)), Metadata.Speeds(lines))
    {
      var lines := Split(gCode, '\n');
      ghost var temps0 := Metadata.Extremes(minTemp, maxTemp);
      ghost var speeds0 := Metadata.Extremes(minSpeed, maxSpeed);
      MetadataLines(lines);
      Metadata.TempScanCoversAll(temps0, lines);
      Metadata.SpeedScanCoversAll(speeds0, lines);
    }

    /** The loop of `calcMinMaxMetadata`: every line in turn. */
    method MetadataLines(lines: seq<string>)
      modifies this`minTemp, this`maxTemp, this`minSpeed, this`maxSpeed
      ensures Metadata.Extremes(minTemp, maxTemp) ==
                Metadata.ScanTemps(old(Metadata.Extremes(minTemp, maxTemp)), lines, |lines|)
      ensures Metadata.Extremes(minSpeed, maxSpeed) ==
                Metadata.ScanSpeeds(old(Metadata.Extremes(minSpeed, maxSpeed)), lines, |lines|)
    {
      ghost var temps0 := Metadata.Extremes(minTemp, maxTemp);
      ghost var speeds0 := Metadata.Extremes(minSpeed, maxSpeed);
      var i := 0;
      while i < |lines|
        invariant 0 <= i <= |lines|
        invariant Metadata.Extremes(minTemp, maxTemp) == Metadata.ScanTemps(temps0, lines, i)
        invariant Metadata.Extremes(minSpeed, maxSpeed) == Metadata.ScanSpeeds(speeds0, lines, i)
      {
        MetadataLine(lines[i]);
        i := i + 1;
      }
    }

    /** The callback `calcMinMaxMetadata` runs on each line. */
    method MetadataLine(line: string)
      modifies this`minTemp, this`maxTemp, this`minSpeed, this`maxSpeed
      ensures var t := Metadata.TempOf(line);
        Metadata.Extremes(minTemp, maxTemp) ==
          if t == [] then old(Metadata.Extremes(minTemp, maxTemp)) else Metadata.Observe(old(Metadata.Extremes(minTemp, maxTemp)), t[0])
      ensures var f := Metadata.SpeedOf(line);
        Metadata.Extremes(minSpeed, maxSpeed) ==
          if f == [] then old(Metadata.Extremes(minSpeed, maxSpeed)) else Metadata.Observe(old(Metadata.Extremes(minSpeed, maxSpeed)), f[0])
    {
      if Metadata.Counted(line) {
        var cmd := Metadata.Command(line);
        if Metadata.IsMove(cmd) {
          var f := ParseNumber(FindWord(cmd, 'F'));
          if f.Some? {
            if f.value > maxSpeed {
              maxSpeed := f.value;
            }
            if minSpeed.None? || f.value < minSpeed.value {
              minSpeed := f;
            }
          }
        } else if Metadata.IsHeat(cmd) {
          var t := ParseValue(FindWord(cmd, 'S'), 0.0);
          if t > maxTemp {
            maxTemp := t;
          }
          if minTemp.None? || t < minTemp.value {
            minTemp := Some(t);
          }
        }
      }
    }

    /** `pointsCount()`. */
    function PointsCount(): int
      reads this
    {
      Chunks.PointsCount(combinedLines)
    }

    /** `layerCount()`: the number of layer entries less one, as the last
        layer has only a start. */
    function LayerCount(): (n: int)
      reads this
      ensures n + 1 == |layerDefinition|
    {
      |layerDefinition| - 1
    }

    /** `parse()`: runs the lines through the interpreter, routes every point
        into the chunks, then finishes the current chunk and builds the layer
        table. A run that stops at an error leaves the chunks built so far
        unfinished and the layer table as it was. Parsing a second time reads
        an empty text: nothing is added, the first chunk is finished again,
        and the layer table comes out empty. */
    method Parse(length: (Vec3, Vec3) -> real) returns (outcome: Outcome<ParseError>)
      requires Valid()
      modifies this`combinedLines, this`gCode, this`min, this`max, this`layerDefinition, Footprint(colorizer)
      ensures Valid()
      ensures var p := ParseRun(old(gCode), travelWidth, length, old(StateOf(colorizer)));
        gCode == "" && StateOf(colorizer) == p.run.colors &&
        (p.run.points == [] ==> min == old(min) && max == old(max)) &&
        (p.run.points != [] ==> min == p.run.bounds.min && max == p.run.bounds.max) &&
        (old(combinedLines) == [] ==>
          combinedLines == if p.error.None? then FinishLast(Chunked(pointsPerObject, p.run.points))
                           else Chunked(pointsPerObject, p.run.points)) &&
        (old(combinedLines) != [] ==>
          p == Progress(Start(old(StateOf(colorizer))), None) &&
          combinedLines == old(combinedLines)[0 := old(combinedLines)[0].(finished := true)]) &&
        (p.error.Some? ==> outcome == Fail(p.error.value) && layerDefinition == old(layerDefinition)) &&
        (p.error.None? && p.run.layers == [] ==> outcome == Fail(NoLayers) && layerDefinition == []) &&
        (p.error.None? && p.run.layers != [] ==>
          outcome == Pass && layerDefinition == FinalLayers(p.run.layers, |p.run.points|).value)
    {
      var text := gCode;
      ghost var p := ParseRun(text, travelWidth, length, StateOf(colorizer));
      var g, chunks, currentObject, newMin, newMax, error :=
        Generate(colorizer, travelWidth, pointsPerObject, text, combinedLines, min, max, length);
      var table := layerDefinition;
      if error.Some? {
        outcome := Fail(error.value);
      } else {
        var finished := FinishRun(pointsPerObject, chunks, currentObject, g.layers, p.run.points, combinedLines);
        var sorted := finished.1;
        chunks := finished.0;
        if sorted.None? {
          table, outcome := [], Fail(NoLayers);
        } else {
          table, outcome := sorted.value, Pass;
        }
      }
      gCode, combinedLines, min, max, layerDefinition := "", chunks, newMin, newMax, table;
    }

    /** `slice(start, end)`: the window of every chunk for the global points
        `[start, end)`, by default all of them; a negative bound fails before
        any window changes. */
    method Slice(start: Option<int>, end: Option<Bound>) returns (outcome: Outcome<SliceError>)
      requires pointsPerObject > 0
      modifies this`combinedLines
      ensures var total := Chunks.PointsCount(old(combinedLines));
        var s := if start.Some? then start.value else 0;
        var e := if end.Some? then end.value else Finite(total);
        if s < 0 || (e.Finite? && e.n < 0) then
          outcome == Fail(NegativeBound) && combinedLines == old(combinedLines)
        else
          outcome == Pass && combinedLines == SliceAll(old(combinedLines), s, e, pointsPerObject, total)
    {
      var total := PointsCount();
      var s := if start.Some? then start.value else 0;
      var e := if end.Some? then end.value else Finite(total);
      if s < 0 || (e.Finite? && e.n < 0) {
        return Fail(NegativeBound);
      }
      ghost var target := SliceAll(combinedLines, s, e, pointsPerObject, total);
      var i := 0;
      while i < |combinedLines|
        invariant 0 <= i <= |combinedLines| == |old(combinedLines)|
        invariant forall j :: 0 <= j < i ==> combinedLines[j] == target[j]
        invariant forall j :: i <= j < |combinedLines| ==> combinedLines[j] == old(combinedLines)[j]
      {
        var line := combinedLines[i];
        var w := SliceWindow(i, |line.points|, s, e, pointsPerObject, total);
        combinedLines := combinedLines[i := line.(window := Some(w))];
        i := i + 1;
      }
      outcome := Pass;
    }

    /** `sliceLayer(start, end)`: `slice` from the start of layer `start` to
        one past the end of layer `end`. */
    method SliceLayer(start: Option<int>, end: Option<int>) returns (outcome: Outcome<SliceError>)
      requires pointsPerObject > 0
      modifies this`combinedLines
      ensures var total := Chunks.PointsCount(old(combinedLines));
        var s := LayerStart(layerDefinition, start);
        var e := LayerEnd(layerDefinition, end);
        var s' := if s.Some? then s.value else 0;
        var e' := if e.Some? then e.value else Finite(total);
        if s' < 0 || (e'.Finite? && e'.n < 0) then
          outcome == Fail(NegativeBound) && combinedLines == old(combinedLines)
        else
          outcome == Pass && combinedLines == SliceAll(old(combinedLines), s', e', pointsPerObject, total)
    {
      outcome := Slice(LayerStart(layerDefinition, start), LayerEnd(layerDefinition, end));
    }
  }
}
