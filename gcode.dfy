/** `GCodeRenderer`, the older renderer: it reads the G-code in one pass into
    chunks of path points, widening its bounding box as it goes, and keeps a
    layer index inferred from the changes of height. */
module GCode {
  import opened Values
  import opened Text
  import opened LayerTable
  import opened Colorizers
  import opened Chunks
  import Interpreter
  import Legacy
  import Metadata

  /** `linesPerObject`: the points one chunk takes before the next one starts. */
  const LINES_PER_OBJECT: nat := 120000

  /** The `TypeError` `render` throws when no point was added: there is no
      chunk to finish. */
  datatype RenderError = NoChunk

  /** The run `render` makes over the text `gCode`, starting from the bounding
      box `bounds` and a colorizer in state `colors`. */
  function RenderRun(gCode: string, travelWidth: real, length: (Vec3, Vec3) -> real,
                     bounds: Bounds, colors: ColorState): Legacy.Run {
    var lines := Split(gCode, '\n');
    Legacy.RunLines(lines, |lines|, travelWidth, length, Legacy.Start(bounds, colors))
  }

  /** The run once the first `i` of `lines` have been read. */
  function Drawn(lines: seq<string>, i: nat, travelWidth: real, length: (Vec3, Vec3) -> real,
                 init: Legacy.Run): Legacy.Run
    requires i <= |lines|
  {
    Legacy.RunLines(lines, i, travelWidth, length, init)
  }

  /** A `G0`/`G1` line: the only lines that reach `addLine`. */
  predicate IsMoveLine(line: string) {
    Metadata.IsMove(Interpreter.Words(line))
  }

  /** After a render that adds points, `pointsCount()` is the number of points
      plus one for the copy each chunk after the first starts with. */
  lemma RenderedCount(pts: seq<PathPoint>)
    requires pts != []
    ensures var cs := Chunked(LINES_PER_OBJECT, pts);
      LegacyPointsCount(FinishLast(cs)) == |pts| + |cs| - 1 &&
      |cs| == (|pts| - 1) / LINES_PER_OBJECT + 1
  {
    var cs := Chunked(LINES_PER_OBJECT, pts);
    LegacyCountOfChunked(LINES_PER_OBJECT, pts);
    CountIgnoresFlags(FinishLast(cs), cs);
  }

  /** The layer index `render` builds from the text has one entry per height
      left or entered by a move of non-zero length, sorted by start, and is a
      permutation of the layer cache. */
  lemma LayerIndexSpec(gCode: string, travelWidth: real, length: (Vec3, Vec3) -> real,
                       bounds: Bounds, colors: ColorState)
    ensures var lines := Split(gCode, '\n');
      var init := Legacy.Start(bounds, colors);
      var layers := RenderRun(gCode, travelWidth, length, bounds, colors).layers;
      var index := SortByStart(MapValues(layers));
      Keys(layers) == Legacy.HeightsChanged(lines, |lines|, travelWidth, length, init) &&
      |index| == |Legacy.HeightsChanged(lines, |lines|, travelWidth, length, init)| &&
      SortedByStart(index) && multiset(index) == multiset(MapValues(layers))
  {
    var lines := Split(gCode, '\n');
    var init := Legacy.Start(bounds, colors);
    var layers := RenderRun(gCode, travelWidth, length, bounds, colors).layers;
    Legacy.LayerKeys(lines, |lines|, travelWidth, length, init);
    Legacy.RunPreserves(lines, |lines|, travelWidth, length, init);
    KeysOfUnique(layers);
    SortPermutes(MapValues(layers));
  }

  /** The end of `render` once every line has been read: the current chunk
      is finished and the layer cache, sorted by start, becomes the layer
      index; without a current chunk the render fails and the layer index
      stays `index0`. The chunks `cs` are those `Draw` leaves from the chunks
      `cs0` held before. */
  function Finish(cs: seq<Chunk>, currentObject: nat, layers: Entries<real>, index0: seq<LayerDefinition>,
                  ghost points: seq<PathPoint>, ghost cs0: seq<Chunk>)
    : (r: (seq<Chunk>, seq<LayerDefinition>, Outcome<RenderError>))
    requires cs0 == [] ==> cs == Chunked(LINES_PER_OBJECT, points) && currentObject == (if points == [] then 0 else |cs| - 1)
    requires cs0 != [] ==> points == [] && cs == cs0 && currentObject == 0
    ensures cs0 == [] && points == [] ==> r == ([], index0, Fail(NoChunk))
    ensures cs0 == [] && points != [] ==> r == (FinishLast(Chunked(LINES_PER_OBJECT, points)), SortByStart(MapValues(layers)), Pass)
    ensures cs0 != [] ==> r == (cs0[0 := cs0[0].(finished := true)], SortByStart(MapValues(layers)), Pass)
  {
    if currentObject < |cs| then
      (cs[currentObject := cs[currentObject].(finished := true)], SortByStart(MapValues(layers)), Pass)
    else
      (cs, index0, Fail(NoChunk))
  }

  /** The loop of `render` over `lines`, with the chunks `cs0` held before:
      every line goes through the interpreter and every point to `addLine`.
      It returns the layer cache, the chunks, the index of the current chunk,
      the bounding box grown from `bounds0` and, as a ghost, the points
      added. */
  method Draw(c: Colorizer, travelWidth: real, lines: seq<string>, cs0: seq<Chunk>, bounds0: Bounds,
              length: (Vec3, Vec3) -> real)
    returns (layers: Entries<real>, cs: seq<Chunk>, currentObject: nat, bounds: Bounds, ghost points: seq<PathPoint>)
    requires cs0 != [] ==> lines == [""]
    modifies Footprint(c)
    ensures var r := Drawn(lines, |lines|, travelWidth, length, Legacy.Start(bounds0, old(StateOf(c))));
      r == Legacy.Run(r.machine, bounds, layers, points, StateOf(c))
    ensures cs0 == [] ==> cs == Chunked(LINES_PER_OBJECT, points) && currentObject == (if points == [] then 0 else |cs| - 1)
    ensures cs0 != [] ==> points == [] && cs == cs0 && currentObject == 0
  {
    ghost var init := Legacy.Start(bounds0, StateOf(c));
    var m := Legacy.Machine(Vec3(0.0, 0.0, 0.0), 0.0, 0.0, 0.0);
    layers, bounds := [], bounds0;
    // The state of `addLine`.
    cs := cs0;
    currentObject := 0;
    var lastAdded: Option<PathPoint> := None;
    var pointCount: nat := 0;
    points := [];
    var i := 0;
    while i < |lines|
      invariant 0 <= i <= |lines|
      invariant Drawn(lines, i, travelWidth, length, init) == Legacy.Run(m, bounds, layers, points, StateOf(c))
      invariant cs0 == [] ==> Routed(LINES_PER_OBJECT, points, cs, currentObject, lastAdded, pointCount)
      invariant cs0 != [] ==> points == [] && (cs, currentObject, lastAdded, pointCount) == (cs0, 0, None, 0)
    {
      m, bounds, layers, cs, currentObject, lastAdded, pointCount, points :=
        RenderLine(c, travelWidth, lines, i, m, bounds, layers, cs, currentObject, lastAdded, pointCount, points, length, init);
      i := i + 1;
    }
  }

  /** The callback `render` runs on line `i`, with the loop's state passed
      in and out: the machine, the bounding box, the layer cache and the
      state of `addLine`. It advances the run over the lines read so far by
      that line. Only a move reaches `addLine`. */
  method RenderLine(c: Colorizer, travelWidth: real, lines: seq<string>, i: nat, m: Legacy.Machine, bounds: Bounds,
                    layers: Entries<real>, cs: seq<Chunk>, currentObject: nat, lastAdded: Option<PathPoint>,
                    pointCount: nat, ghost points: seq<PathPoint>, length: (Vec3, Vec3) -> real, ghost init: Legacy.Run)
    returns (m': Legacy.Machine, bounds': Bounds, layers': Entries<real>, cs': seq<Chunk>, currentObject': nat,
             lastAdded': Option<PathPoint>, pointCount': nat, ghost points': seq<PathPoint>)
    requires i < |lines| && Drawn(lines, i, travelWidth, length, init) == Legacy.Run(m, bounds, layers, points, StateOf(c))
    requires IsMoveLine(lines[i]) ==> Routed(LINES_PER_OBJECT, points, cs, currentObject, lastAdded, pointCount)
    modifies Footprint(c)
    ensures Drawn(lines, i + 1, travelWidth, length, init) == Legacy.Run(m', bounds', layers', points', StateOf(c))
    ensures IsMoveLine(lines[i]) ==> Routed(LINES_PER_OBJECT, points', cs', currentObject', lastAdded', pointCount')
    ensures !IsMoveLine(lines[i]) ==> (cs', currentObject', lastAdded', pointCount') == (cs, currentObject, lastAdded, pointCount)
  {
    var cmd := Interpreter.Words(lines[i]);
    if cmd[0] == "G0" || cmd[0] == "G1" {
      m', bounds', layers', cs', currentObject', lastAdded', pointCount', points' :=
        RenderMove(c, travelWidth, cmd, m, bounds, layers, cs, currentObject, lastAdded, pointCount, points, length);
    } else {
      m', bounds', layers', cs', currentObject', lastAdded', pointCount', points' :=
        m, bounds, layers, cs, currentObject, lastAdded, pointCount, points;
      if cmd[0] == "G92" {
        m' := m.(lastPoint := Vec3(Legacy.Or(Legacy.ParseValue(FindWord(cmd, 'X')), m.lastPoint.x),
                                   Legacy.Or(Legacy.ParseValue(FindWord(cmd, 'Y')), m.lastPoint.y),
                                   Legacy.Or(Legacy.ParseValue(FindWord(cmd, 'Z')), m.lastPoint.z)),
                 lastE := Legacy.Or(Legacy.ParseValue(FindWord(cmd, 'E')), m.lastE));
      } else if cmd[0] == "M104" || cmd[0] == "M109" {
        m' := m.(hotendTemp := Legacy.Or(Legacy.ParseValue(FindWord(cmd, 'S')), 0.0));
      }
    }
  }

  /** The segment part of a move of non-zero length: the radius is the
      extrusion rate, or the travel width when nothing is extruded; only an
      extruding segment widens the bounding box; the colorizer is asked for
      the colour of a segment without a line number, which never fails and
      never moves its cursor. */
  method DrawSegment(c: Colorizer, travelWidth: real, bounds: Bounds, from: Vec3, to: Vec3, rate: real,
                     temperature: real, speed: real)
    returns (point: PathPoint, bounds': Bounds)
    modifies Footprint(c)
    ensures bounds' == if rate == 0.0 then bounds else Values.CalcMinMax(bounds, to)
    ensures StateOf(c) == old(StateOf(c))
    ensures point.position == from && point.radius == (if rate == 0.0 then travelWidth else rate)
    ensures ColorStep(StateOf(c), SegmentMetadata(from, to, point.radius, temperature, speed, None)).0 == Ok(point.color)
  {
    var radius := rate;
    bounds' := bounds;
    if radius == 0.0 {
      radius := travelWidth;
    } else {
      bounds' := Values.CalcMinMax(bounds, to);
    }
    var meta := SegmentMetadata(from, to, radius, temperature, speed, None);
    NoLineNeverFails(StateOf(c), meta);
    var color := GetColor(c, meta);
    point := PathPoint(from, radius, color.value);
  }

  /** A `G0`/`G1` line of `render`: a move of non-zero length widens the
      bounding box unless its radius is zero, asks the colorizer for a
      colour, hands the point it leaves from to `addLine`, and on a change
      of height updates the layer cache, counting the point just added. */
  method RenderMove(c: Colorizer, travelWidth: real, cmd: seq<string>, m: Legacy.Machine, bounds: Bounds,
                    layers: Entries<real>, cs: seq<Chunk>, currentObject: nat, lastAdded: Option<PathPoint>,
                    pointCount: nat, ghost points: seq<PathPoint>, length: (Vec3, Vec3) -> real)
    returns (m': Legacy.Machine, bounds': Bounds, layers': Entries<real>, cs': seq<Chunk>, currentObject': nat,
             lastAdded': Option<PathPoint>, pointCount': nat, ghost points': seq<PathPoint>)
    requires Routed(LINES_PER_OBJECT, points, cs, currentObject, lastAdded, pointCount)
    modifies Footprint(c)
    ensures Legacy.Move(Legacy.Run(m, bounds, layers, points, old(StateOf(c))), cmd, travelWidth, length) ==
            Legacy.Run(m', bounds', layers', points', StateOf(c))
    ensures Routed(LINES_PER_OBJECT, points', cs', currentObject', lastAdded', pointCount')
  {
    ghost var r := Legacy.Run(m, bounds, layers, points, StateOf(c));
    var newPoint := Legacy.Target(m, cmd);
    var e := Legacy.GetValue(cmd, 'E', m.lastE);
    var f := Legacy.Or(Legacy.ParseValue(FindWord(cmd, 'F')), m.lastF);
    var len := length(m.lastPoint, newPoint);
    m', bounds', layers', cs', currentObject', lastAdded', pointCount', points' :=
      m.(lastPoint := newPoint, lastE := e, lastF := f), bounds, layers, cs, currentObject, lastAdded, pointCount, points;
    if len != 0.0 {
      var point;
      point, bounds' := DrawSegment(c, travelWidth, bounds, m.lastPoint, newPoint, Interpreter.Rate(e, m.lastE, len), m.hotendTemp, f);
      NoLineNeverFails(r.colors, SegmentMetadata(m.lastPoint, newPoint, point.radius, m.hotendTemp, f, None));
      cs', currentObject', lastAdded', pointCount' := AddLine(LINES_PER_OBJECT, cs, currentObject, lastAdded, pointCount, point, points);
      points' := points + [point];
      if m.lastPoint.z != newPoint.z {
        layers' := Legacy.ChangeLayer(layers, m.lastPoint.z, newPoint.z, pointCount');
      }
      assert Legacy.Move(r, cmd, travelWidth, length) == Legacy.Run(m', bounds', layers', points', r.colors);
    } else {
      assert Legacy.Move(r, cmd, travelWidth, length) == r.(machine := m');
    }
  }

  class GCodeRenderer {
    var combinedLines: seq<Chunk>
    var gCode: string
    var min: Option<Vec3>
    var max: Option<Vec3>
    var minTemp: Option<real>
    var maxTemp: real
    var minSpeed: Legacy.JsNumber
    var maxSpeed: real
    var layerIndex: seq<LayerDefinition>
    var travelWidth: real
    var colorizer: Colorizer

    /** Once the text has been rendered into chunks it is dropped. */
    predicate Valid()
      reads this
    {
      combinedLines != [] ==> gCode == ""
    }

    constructor (gCode: string)
      ensures Valid()
      ensures (this.gCode, combinedLines, layerIndex, min, max) == (gCode, [], [], None, None)
      ensures (travelWidth, colorizer) == (0.01, Simple(SimpleColorizer(DEFAULT_COLOR)))
      ensures var lines := Split(gCode, '\n');
        Metadata.Extremes(minTemp, maxTemp) == Metadata.Scan(Metadata.Temps(lines)) &&
        Metadata.LegacyExtremes(minSpeed, maxSpeed) == Metadata.ScanLegacy(Metadata.LegacySpeeds(lines))
    {
      combinedLines := [];
      this.gCode := gCode;
      min := None;
      max := None;
      minTemp := None;
      maxTemp := 0.0;
      minSpeed := Legacy.Undefined;
      maxSpeed := 0.0;
      layerIndex := [];
      travelWidth := 0.01;
      colorizer := Simple(SimpleColorizer(DEFAULT_COLOR));
      new;
      CalcMinMaxMetadata();
      assert combinedLines == [];
    }

    /** `calcMinMaxMetadata`: the temperature and speed extremes of the text,
        seen line by line on top of the current ones. */
    method CalcMinMaxMetadata()
      modifies this`minTemp, this`maxTemp, this`minSpeed, this`maxSpeed
      ensures var lines := Split(gCode, '\n');
        Metadata.Extremes(minTemp, maxTemp) == Metadata.Fold(old(Metadata.Extremes(minTemp, maxTemp)), Metadata.Temps(lines)) &&
        Metadata.LegacyExtremes(minSpeed, maxSpeed) ==
          Metadata.FoldLegacy(old(Metadata.LegacyExtremes(minSpeed, maxSpeed)), Metadata.LegacySpeeds(lines))
    {
      var lines := Split(gCode, '\n');
      ghost var temps0 := Metadata.Extremes(minTemp, maxTemp);
      ghost var speeds0 := Metadata.LegacyExtremes(minSpeed, maxSpeed);
      MetadataLines(lines);
      Metadata.TempScanCoversAll(temps0, lines);
      Metadata.LegacyScanCoversAll(speeds0, lines);
    }

    /** The loop of `calcMinMaxMetadata`: every line in turn. */
    method MetadataLines(lines: seq<string>)
      modifies this`minTemp, this`maxTemp, this`minSpeed, this`maxSpeed
      ensures Metadata.Extremes(minTemp, maxTemp) ==
                Metadata.ScanTemps(old(Metadata.Extremes(minTemp, maxTemp)), lines, |lines|)
      ensures Metadata.LegacyExtremes(minSpeed, maxSpeed) ==
                Metadata.ScanLegacySpeeds(old(Metadata.LegacyExtremes(minSpeed, maxSpeed)), lines, |lines|)
    {
      ghost var temps0 := Metadata.Extremes(minTemp, maxTemp);
      ghost var speeds0 := Metadata.LegacyExtremes(minSpeed, maxSpeed);
      var i := 0;
      while i < |lines|
        invariant 0 <= i <= |lines|
        invariant Metadata.Extremes(minTemp, maxTemp) == Metadata.ScanTemps(temps0, lines, i)
        invariant Metadata.LegacyExtremes(minSpeed, maxSpeed) == Metadata.ScanLegacySpeeds(speeds0, lines, i)
      {
        MetadataLine(lines[i]);
        i := i + 1;
      }
    }

    /** The callback `calcMinMaxMetadata` runs on each line. A feed rate that
        is not a number is kept as `NaN`. */
    method MetadataLine(line: string)
      modifies this`minTemp, this`maxTemp, this`minSpeed, this`maxSpeed
      ensures Metadata.Extremes(minTemp, maxTemp) ==
                Metadata.Read(old(Metadata.Extremes(minTemp, maxTemp)), Metadata.TempOf(line))
      ensures Metadata.LegacyExtremes(minSpeed, maxSpeed) ==
                Metadata.ReadLegacy(old(Metadata.LegacyExtremes(minSpeed, maxSpeed)), Metadata.LegacySpeedOf(line))
    {
      if Metadata.Counted(line) {
        var cmd := Metadata.Command(line);
        if Metadata.IsMove(cmd) {
          var f := Legacy.ParseValue(FindWord(cmd, 'F'));
          if !f.Undefined? {
            if f.Num? && f.v > maxSpeed {
              maxSpeed := f.v;
            }
            if minSpeed.Undefined? || (f.Num? && minSpeed.Num? && f.v < minSpeed.v) {
              minSpeed := f;
            }
          }
        } else if Metadata.IsHeat(cmd) {
          var hotendTemp := Legacy.Or(Legacy.ParseValue(FindWord(cmd, 'S')), 0.0);
          Metadata.LegacyTempAgrees(cmd);
          if hotendTemp > maxTemp {
            maxTemp := hotendTemp;
          }
          if minTemp.None? || hotendTemp < minTemp.value {
            minTemp := Some(hotendTemp);
          }
        }
      }
    }

    /** `render()`: runs the lines through the interpreter, widening the
        bounding box and routing every point into chunks of
        `LINES_PER_OBJECT`, then finishes the current chunk and sorts the
        layer cache into the layer index. Without any point there is no chunk
        to finish and the render fails, leaving the layer index as it was.
        Rendering a second time reads an empty text: nothing is added, the
        first chunk is finished again, and the layer index comes out empty. */
    method Render(length: (Vec3, Vec3) -> real) returns (outcome: Outcome<RenderError>)
      requires Valid()
      modifies this`combinedLines, this`gCode, this`min, this`max, this`layerIndex, Footprint(colorizer)
      ensures Valid()
      ensures var r := RenderRun(old(gCode), travelWidth, length, old(Bounds(min, max)), old(StateOf(colorizer)));
        gCode == "" && Bounds(min, max) == r.bounds && StateOf(colorizer) == r.colors &&
        (old(combinedLines) == [] && r.points == [] ==>
          outcome == Fail(NoChunk) && combinedLines == [] && layerIndex == old(layerIndex)) &&
        (old(combinedLines) == [] && r.points != [] ==>
          outcome == Pass && combinedLines == FinishLast(Chunked(LINES_PER_OBJECT, r.points)) &&
          layerIndex == SortByStart(MapValues(r.layers))) &&
        (old(combinedLines) != [] ==>
          r == Legacy.Start(old(Bounds(min, max)), old(StateOf(colorizer))) && outcome == Pass &&
          combinedLines == old(combinedLines)[0 := old(combinedLines)[0].(finished := true)] &&
          layerIndex == [])
    {
      var lines := Split(gCode, '\n');
      var bounds0 := Bounds(min, max);
      ghost var colors0 := StateOf(colorizer);
      if combinedLines != [] {
        Legacy.BlankLine(Legacy.Start(bounds0, colors0), travelWidth, length);
      }
      var layers, cs, currentObject, bounds, points := Draw(colorizer, travelWidth, lines, combinedLines, bounds0, length);
      var finished := Finish(cs, currentObject, layers, layerIndex, points, combinedLines);
      gCode, combinedLines, layerIndex, min, max := "", finished.0, finished.1, bounds.min, bounds.max;
      outcome := finished.2;
    }

    /** `pointsCount()`: the plain sum of the chunks' points. */
    function PointsCount(): int
      reads this
    {
      LegacyPointsCount(combinedLines)
    }

    /** `layerCount()`: the number of entries of the layer index. */
    function LayerCount(): int
      reads this
    {
      |layerIndex|
    }
  }
}
