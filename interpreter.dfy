/** The line interpreter of `GCodeParser.parse` as pure functions: the state
    the generator carries from line to line, what one line does to it, and the
    run over a prefix of the lines. */
module Interpreter {
  import opened Values
  import opened Text
  import opened Numbers
  import opened LayerTable
  import opened Colorizers

  /** `parseValue(token, undefined)`: the number after the first letter of the
      word; `None` when the word is absent or empty or its payload is `NaN`. */
  function ParseNumber(token: Option<string>): Option<real> {
    if token.None? || token.value == [] then None else ParseFloat(token.value[1..])
  }

  /** `parseValue(token, default)` with a number as default. */
  function ParseValue(token: Option<string>, default: real): real {
    match ParseNumber(token)
    case None => default
    case Some(v) => v
  }

  /** An absent or empty word, or one whose payload is not a number, gives the
      default. */
  lemma ParseValueDefaults(letter: char, bad: string, default: real)
    requires bad != [] && !IsSpace(bad[0]) && !IsDigit(bad[0]) && bad[0] !in "+-."
    ensures ParseValue(None, default) == default && ParseValue(Some(""), default) == default
    ensures ParseValue(Some([letter] + bad), default) == default
  {
    assert ([letter] + bad)[1..] == bad;
    NotANumber(bad);
  }

  /** The value of a word is `parseFloat` of what follows its letter. */
  lemma ParseNumberOfWord(w: string)
    requires w != []
    ensures ParseNumber(Some(w)) == ParseFloat(w[1..])
  {
  }

  /** A word made of a letter and digits gives their value. */
  lemma ParseValueOfDigits(letter: char, digits: string, default: real)
    requires digits != [] && AllDigits(digits)
    ensures ParseValue(Some([letter] + digits), default) == DigitsValue(digits) as real
  {
    var w := [letter] + digits;
    assert w[1..] == digits;
    ParseOfDigits(digits);
    ParseNumberOfWord(w);
  }

  /** ... and behind a minus sign their opposite. */
  lemma ParseValueOfNegatedDigits(letter: char, digits: string, default: real)
    requires digits != [] && AllDigits(digits)
    ensures ParseValue(Some([letter, '-'] + digits), default) == -(DigitsValue(digits) as real)
  {
    var w := [letter, '-'] + digits;
    assert w[1..] == "-" + digits;
    ParseOfNegatedDigits(digits);
    ParseNumberOfWord(w);
  }

  /** `getValue(cmd, name, last, relative)`: an absent word keeps the last
      value, a present one gives its value, added to the last one in relative
      mode. A `NaN` test on the value read cannot fire here: an unreadable word
      already gives `last`, which is never `NaN`. */
  function GetValue(cmd: seq<string>, name: char, last: real, relative: bool): real {
    match ParseNumber(FindWord(cmd, name))
    case None => last
    case Some(v) => if relative then v + last else v
  }

  lemma GetValueSpec(cmd: seq<string>, name: char, last: real, relative: bool)
    ensures (forall k :: 0 <= k < |cmd| ==> !StartsWith(cmd[k], name)) ==>
              GetValue(cmd, name, last, relative) == last
    ensures ParseNumber(FindWord(cmd, name)).Some? ==>
              GetValue(cmd, name, last, relative) ==
                ParseNumber(FindWord(cmd, name)).value + (if relative then last else 0.0)
  {
  }

  /** Which axes are in relative mode. */
  datatype Relative = Relative(x: bool, y: bool, z: bool, e: bool)

  /** The values the interpreter remembers between lines. */
  datatype Machine = Machine(lastPoint: Vec3, lastE: real, lastF: real, hotendTemp: real, relative: Relative)

  /** Everything that changes while the lines are read: the machine, the
      bounding box of the extruded points, the current layer key, the layer
      cache, the points emitted so far and the colorizer's state. */
  datatype Run = Run(machine: Machine, bounds: Bounds, currentLayer: Option<int>,
                     layers: Entries<int>, points: seq<PathPoint>, colors: ColorState)

  datatype ParseError = InchUnits | ColorFailure(error: ColorError) | NoLayers

  /** The state after some lines, and the error that stopped the run, if any. */
  datatype Progress = Progress(run: Run, error: Option<ParseError>)

  /** The state before the first line. */
  function Start(colors: ColorState): Run {
    Run(Machine(Vec3(0.0, 0.0, 0.0), 0.0, 0.0, 0.0, Relative(false, false, false, false)),
        Bounds(None, None), None, [], [], colors)
  }

  /** A Euclidean distance: never negative, and zero exactly between equal
      points. */
  ghost predicate IsLength(length: (Vec3, Vec3) -> real) {
    forall a, b :: length(a, b) >= 0.0 && (length(a, b) == 0.0 <==> a == b)
  }

  const LAYER_MARKER: string := ";LAYER:"

  /** `parseInt(line.split(":")[1])`. */
  function LayerIndex(line: string): Option<int> {
    var parts := Split(line, ':');
    if |parts| >= 2 then ParseInt(parts[1]) else None
  }

  /** A layer marker with index `k`: the current layer ends at the last point
      emitted, and layer `k` opens at the next one. */
  function OpenLayer(r: Run, k: int): Run {
    r.(currentLayer := Some(k), layers := CloseAndOpen(r.layers, r.currentLayer, |r.points|, k))
  }

  /** The layer cache after a marker for layer `k` once `count` points have
      been emitted. */
  function CloseAndOpen(layers: Entries<int>, currentLayer: Option<int>, count: int, k: int): Entries<int> {
    var closed :=
      if currentLayer.Some? && Get(layers, currentLayer.value).Some? then
        Put(layers, currentLayer.value, Get(layers, currentLayer.value).value.(end := count - 1))
      else layers;
    Put(closed, k, LayerDefinition(count, 0))
  }

  /** The radius of the segment from `lastE` to `e` over `len`: the extrusion
      per unit of length, times ten; a travel move (no extrusion, or a
      retraction) gets `travelWidth`. */
  function Radius(e: real, lastE: real, len: real, travelWidth: real): real
    requires len != 0.0
  {
    var raw := Rate(e, lastE, len);
    if raw <= 0.0 then travelWidth else raw
  }

  /** The extrusion per unit of length, times ten. */
  function Rate(e: real, lastE: real, len: real): real
    requires len != 0.0
  {
    (e - lastE) / len * 10.0
  }

  /** The position a move goes to. */
  function Target(m: Machine, cmd: seq<string>): Vec3 {
    Vec3(GetValue(cmd, 'X', m.lastPoint.x, m.relative.x),
         GetValue(cmd, 'Y', m.lastPoint.y, m.relative.y),
         GetValue(cmd, 'Z', m.lastPoint.z, m.relative.z))
  }

  /** A `G0`/`G1` move. */
  function Move(r: Run, cmd: seq<string>, lineNumber: nat, travelWidth: real,
                length: (Vec3, Vec3) -> real): Progress
  {
    var m := r.machine;
    var newPoint := Target(m, cmd);
    var e := GetValue(cmd, 'E', m.lastE, m.relative.e);
    var f := ParseValue(FindWord(cmd, 'F'), m.lastF);
    var len := length(m.lastPoint, newPoint);
    var moved := m.(lastPoint := newPoint, lastE := e, lastF := f);
    if len == 0.0 then Progress(r.(machine := moved), None)
    else
      var radius := Radius(e, m.lastE, len, travelWidth);
      var bounds := if Rate(e, m.lastE, len) > 0.0 then CalcMinMax(r.bounds, newPoint) else r.bounds;
      var meta := SegmentMetadata(m.lastPoint, newPoint, radius, m.hotendTemp, f, Some(lineNumber));
      var (color, colors) := ColorStep(r.colors, meta);
      match color
      case Err(ce) => Progress(r.(bounds := WidenedInPlace(r.bounds, bounds), colors := colors), Some(ColorFailure(ce)))
      case Ok(c) =>
        Progress(Run(moved, bounds, r.currentLayer, r.layers,
                     r.points + [PathPoint(m.lastPoint, radius, c)], colors), None)
  }

  /** The bounding box a failing move leaves behind. The box is widened
      before the colour is asked for, in place: a corner that already exists
      is the very object the parser shows as its own corner, so it keeps the
      widening; a missing corner is created afresh in the generator and never
      reaches the parser. */
  function WidenedInPlace(b: Bounds, widened: Bounds): Bounds {
    Bounds(if b.min.Some? then widened.min else b.min, if b.max.Some? then widened.max else b.max)
  }

  /** A command line other than a move. */
  function Command(r: Run, cmd: seq<string>): Progress
    requires |cmd| >= 1
  {
    match Execute(r.machine, cmd)
    case Ok(m) => Progress(r.(machine := m), None)
    case Err(e) => Progress(r, Some(e))
  }

  /** What a command other than a move does to the machine. */
  function Execute(m: Machine, cmd: seq<string>): Result<Machine, ParseError>
    requires |cmd| >= 1
  {
    var rel := m.relative;
    if cmd[0] == "G92" then
      var p := Vec3(ParseValue(FindWord(cmd, 'X'), m.lastPoint.x),
                    ParseValue(FindWord(cmd, 'Y'), m.lastPoint.y),
                    ParseValue(FindWord(cmd, 'Z'), m.lastPoint.z));
      Ok(m.(lastPoint := p, lastE := ParseValue(FindWord(cmd, 'E'), m.lastE)))
    else if cmd[0] == "M104" || cmd[0] == "M109" then
      Ok(m.(hotendTemp := ParseValue(FindWord(cmd, 'S'), 0.0)))
    else if cmd[0] == "G90" then
      Ok(m.(relative := Relative(false, false, false, false)))
    else if cmd[0] == "G91" then
      Ok(m.(relative := Relative(true, true, true, true)))
    else if cmd[0] == "M82" then
      Ok(m.(relative := rel.(e := false)))
    else if cmd[0] == "M83" then
      Ok(m.(relative := rel.(e := true)))
    else if cmd[0] == "G20" then
      Err(InchUnits)
    else
      Ok(m)
  }

  /** The words of a line, comment removed. */
  function Words(line: string): (cmd: seq<string>)
    ensures |cmd| >= 1
  {
    Split(Before(line, ';'), ' ')
  }

  /** What line number `lineNumber` does to the run. */
  function Step(r: Run, line: string, lineNumber: nat, travelWidth: real,
                length: (Vec3, Vec3) -> real): Progress
  {
    if Contains(line, LAYER_MARKER) then
      match LayerIndex(line)
      case None => Progress(r, None)
      case Some(k) => Progress(OpenLayer(r, k), None)
    else
      var cmd := Words(line);
      if cmd[0] == "G0" || cmd[0] == "G1" then Move(r, cmd, lineNumber, travelWidth, length)
      else Command(r, cmd)
  }

  /** The run over the first `n` lines; it stops at the first error. */
  function RunLines(lines: seq<string>, n: nat, travelWidth: real,
                    length: (Vec3, Vec3) -> real, init: Run): Progress
    requires n <= |lines|
    decreases n, 0
  {
    if n == 0 then Progress(init, None) else RunThrough(lines, n - 1, travelWidth, length, init)
  }

  /** The run up to and including line `k`: line `k` is read unless an
      earlier line failed. */
  function RunThrough(lines: seq<string>, k: nat, travelWidth: real,
                      length: (Vec3, Vec3) -> real, init: Run): Progress
    requires k < |lines|
    decreases k, 1
  {
    var p := RunLines(lines, k, travelWidth, length, init);
    if p.error.Some? then p else Step(p.run, lines[k], k, travelWidth, length)
  }

  /** One more line: the run over `k + 1` lines is the run over `k` lines,
      followed by line `k` unless the run has already failed. */
  lemma RunLinesNext(lines: seq<string>, k: nat, travelWidth: real,
                     length: (Vec3, Vec3) -> real, init: Run)
    requires k < |lines|
    ensures var p := RunLines(lines, k, travelWidth, length, init);
      RunLines(lines, k + 1, travelWidth, length, init) ==
        if p.error.Some? then p else Step(p.run, lines[k], k, travelWidth, length)
  {
    assert RunLines(lines, k + 1, travelWidth, length, init) == RunThrough(lines, k, travelWidth, length, init);
  }

  /** Whatever it emits, a move that does not fail sets the position, E and
      F, and leaves the layers alone. */
  lemma MoveUpdates(r: Run, cmd: seq<string>, lineNumber: nat, travelWidth: real,
                    length: (Vec3, Vec3) -> real)
    ensures var m := r.machine; var p := Move(r, cmd, lineNumber, travelWidth, length);
      p.error.None? ==>
        p.run.machine == m.(lastPoint := Target(m, cmd), lastE := GetValue(cmd, 'E', m.lastE, m.relative.e),
                            lastF := ParseValue(FindWord(cmd, 'F'), m.lastF)) &&
        p.run.layers == r.layers && p.run.currentLayer == r.currentLayer
  {
  }

  /** A move to the position it starts from emits nothing. */
  lemma MoveInPlace(r: Run, cmd: seq<string>, lineNumber: nat, travelWidth: real,
                    length: (Vec3, Vec3) -> real)
    requires IsLength(length) && Target(r.machine, cmd) == r.machine.lastPoint
    ensures var p := Move(r, cmd, lineNumber, travelWidth, length);
      p == Progress(r.(machine := p.run.machine), None)
  {
    assert length(r.machine.lastPoint, Target(r.machine, cmd)) == 0.0;
  }

  /** A move to another position emits one point, which starts at the
      previous position. Its radius is the extrusion rate when E grows and
      `travelWidth` otherwise; only an extruding move widens the bounding box,
      which then holds the new position. */
  lemma MoveEmits(r: Run, cmd: seq<string>, lineNumber: nat, travelWidth: real,
                  length: (Vec3, Vec3) -> real)
    requires IsLength(length) && Target(r.machine, cmd) != r.machine.lastPoint
    ensures var m := r.machine; var p := Move(r, cmd, lineNumber, travelWidth, length);
      var e := GetValue(cmd, 'E', m.lastE, m.relative.e);
      p.error.None? ==>
        |p.run.points| == |r.points| + 1 && p.run.points[..|r.points|] == r.points &&
        p.run.points[|r.points|].position == m.lastPoint &&
        (e <= m.lastE ==> p.run.points[|r.points|].radius == travelWidth && p.run.bounds == r.bounds) &&
        (e > m.lastE ==> p.run.points[|r.points|].radius == Rate(e, m.lastE, length(m.lastPoint, Target(m, cmd))) &&
                         p.run.points[|r.points|].radius > 0.0 &&
                         p.run.bounds == CalcMinMax(r.bounds, Target(m, cmd)) &&
                         Within(Target(m, cmd), p.run.bounds))
  {
    var m := r.machine;
    var len := length(m.lastPoint, Target(m, cmd));
    assert len > 0.0;
    RateSign(GetValue(cmd, 'E', m.lastE, m.relative.e), m.lastE, len);
  }

  /** Over a positive length the rate has the sign of the extruded amount. */
  lemma RateSign(e: real, lastE: real, len: real)
    requires len > 0.0
    ensures Rate(e, lastE, len) == 0.0 <==> e == lastE
    ensures e < lastE ==> Rate(e, lastE, len) < 0.0
    ensures e > lastE ==> Rate(e, lastE, len) > 0.0
  {
    if e < lastE {
      assert (e - lastE) / len < 0.0;
    } else if e > lastE {
      assert (e - lastE) / len > 0.0;
    }
  }

  /** A move that the colorizer rejects emits nothing and leaves the machine
      where it was; an extruding one has still widened the corners of the
      bounding box that already existed, while a box that did not exist yet
      stays absent. */
  lemma MoveFails(r: Run, cmd: seq<string>, lineNumber: nat, travelWidth: real,
                  length: (Vec3, Vec3) -> real)
    requires IsLength(length) && r.bounds.min.Some? == r.bounds.max.Some?
    ensures var m := r.machine; var p := Move(r, cmd, lineNumber, travelWidth, length);
      var e := GetValue(cmd, 'E', m.lastE, m.relative.e);
      p.error.Some? ==>
        p.error.value.ColorFailure? && Target(m, cmd) != m.lastPoint &&
        p.run.points == r.points && p.run.machine == m && p.run.layers == r.layers &&
        (e > m.lastE && r.bounds.min.Some? ==> p.run.bounds == CalcMinMax(r.bounds, Target(m, cmd))) &&
        (e <= m.lastE || r.bounds.min.None? ==> p.run.bounds == r.bounds)
  {
    var m := r.machine;
    var len := length(m.lastPoint, Target(m, cmd));
    if len != 0.0 {
      assert len > 0.0;
      RateSign(GetValue(cmd, 'E', m.lastE, m.relative.e), m.lastE, len);
    }
  }

  /** The commands other than moves: `G92` sets the given axes and E and
      keeps the others, `M104`/`M109` set the temperature (0 without `S`),
      `G90`/`G91` switch all four axes to absolute/relative, `M82`/`M83` only
      E, and `G20` fails. None of them emits a point. */
  lemma CommandSpec(r: Run, cmd: seq<string>)
    requires |cmd| >= 1
    ensures var m := r.machine; var p := Command(r, cmd);
      p.run.points == r.points && p.run.layers == r.layers && p.run.bounds == r.bounds &&
      (cmd[0] == "G92" ==>
        p.error.None? &&
        p.run.machine.lastPoint.x == ParseValue(FindWord(cmd, 'X'), m.lastPoint.x) &&
        p.run.machine.lastPoint.y == ParseValue(FindWord(cmd, 'Y'), m.lastPoint.y) &&
        p.run.machine.lastPoint.z == ParseValue(FindWord(cmd, 'Z'), m.lastPoint.z) &&
        p.run.machine.lastE == ParseValue(FindWord(cmd, 'E'), m.lastE) &&
        p.run.machine.lastF == m.lastF && p.run.machine.relative == m.relative) &&
      (cmd[0] in {"M104", "M109"} ==>
        p.error.None? && p.run.machine == m.(hotendTemp := ParseValue(FindWord(cmd, 'S'), 0.0))) &&
      (cmd[0] == "G90" ==> p.run.machine.relative == Relative(false, false, false, false)) &&
      (cmd[0] == "G91" ==> p.run.machine.relative == Relative(true, true, true, true)) &&
      (cmd[0] == "M82" ==> p.run.machine.relative == m.relative.(e := false)) &&
      (cmd[0] == "M83" ==> p.run.machine.relative == m.relative.(e := true)) &&
      (cmd[0] == "G20" ==> p == Progress(r, Some(InchUnits))) &&
      (cmd[0] !in {"G92", "M104", "M109", "G90", "G91", "M82", "M83", "G20"} ==> p == Progress(r, None))
  {
  }

  /** A layer marker emits no point; it opens its layer at the number of
      points emitted so far and closes the current one at the point before,
      and leaves every other layer as it was. */
  lemma LayerMarkerSpec(r: Run, k: int)
    requires UniqueKeys(r.layers)
    ensures var r' := OpenLayer(r, k);
      r'.points == r.points && r'.machine == r.machine && r'.currentLayer == Some(k) &&
      UniqueKeys(r'.layers) &&
      Get(r'.layers, k) == Some(LayerDefinition(|r.points|, 0)) &&
      (r.currentLayer.Some? && r.currentLayer.value != k && Get(r.layers, r.currentLayer.value).Some? ==>
        Get(r'.layers, r.currentLayer.value) ==
          Some(Get(r.layers, r.currentLayer.value).value.(end := |r.points| - 1))) &&
      (forall j :: j != k && Some(j) != r.currentLayer ==> Get(r'.layers, j) == Get(r.layers, j))
  {
    var count := |r.points|;
    var closed :=
      if r.currentLayer.Some? && Get(r.layers, r.currentLayer.value).Some? then
        Put(r.layers, r.currentLayer.value, Get(r.layers, r.currentLayer.value).value.(end := count - 1))
      else r.layers;
    if r.currentLayer.Some? && Get(r.layers, r.currentLayer.value).Some? {
      PutSpec(r.layers, r.currentLayer.value, Get(r.layers, r.currentLayer.value).value.(end := count - 1));
    }
    PutSpec(closed, k, LayerDefinition(count, 0));
  }

  /** The layer index a line declares: a layer marker followed by a number. */
  function MarkerIndex(line: string): Option<int> {
    if Contains(line, LAYER_MARKER) then LayerIndex(line) else None
  }

  /** The indices the layer markers among the first `n` lines declare. */
  function Declared(lines: seq<string>, n: nat): set<int>
    requires n <= |lines|
  {
    if n == 0 then {} else Declared(lines, n - 1) + MarkerSet(lines[n - 1])
  }

  function MarkerSet(line: string): set<int> {
    match MarkerIndex(line)
    case None => {}
    case Some(k) => {k}
  }

  /** Opening layer `k` adds the key `k`, and only that key. */
  lemma CloseAndOpenKeys(layers: Entries<int>, currentLayer: Option<int>, count: int, k: int)
    ensures Keys(CloseAndOpen(layers, currentLayer, count, k)) == Keys(layers) + {k}
  {
    var closed := layers;
    if currentLayer.Some? && Get(layers, currentLayer.value).Some? {
      var c := currentLayer.value;
      closed := Put(layers, c, Get(layers, c).value.(end := count - 1));
      PutKeys(layers, c, Get(layers, c).value.(end := count - 1));
      assert c in Keys(layers) by {
        var i := KeyIndex(layers, c);
        assert layers[i].0 == c;
      }
    }
    PutKeys(closed, k, LayerDefinition(count, 0));
  }

  /** A line that does not fail adds to the layer keys the index it declares,
      if any, and no other key. */
  lemma StepKeys(r: Run, line: string, lineNumber: nat, travelWidth: real,
                 length: (Vec3, Vec3) -> real)
    ensures var p := Step(r, line, lineNumber, travelWidth, length);
      p.error.None? ==> Keys(p.run.layers) == Keys(r.layers) + MarkerSet(line)
  {
    if Contains(line, LAYER_MARKER) {
      if LayerIndex(line).Some? {
        CloseAndOpenKeys(r.layers, r.currentLayer, |r.points|, LayerIndex(line).value);
      }
    } else {
      var cmd := Words(line);
      if cmd[0] == "G0" || cmd[0] == "G1" {
        MoveUpdates(r, cmd, lineNumber, travelWidth, length);
      } else {
        CommandSpec(r, cmd);
      }
    }
  }

  /** A run that starts with no layers and has not failed holds a layer
      entry for exactly the indices the layer markers it has read declare. */
  lemma {:induction false} LayerKeys(lines: seq<string>, n: nat, travelWidth: real,
                                     length: (Vec3, Vec3) -> real, init: Run)
    requires n <= |lines| && init.layers == []
    ensures var p := RunLines(lines, n, travelWidth, length, init);
      p.error.None? ==> Keys(p.run.layers) == Declared(lines, n)
  {
    if n > 0 {
      LayerKeys(lines, n - 1, travelWidth, length, init);
      KeysAfterLine(lines, n, travelWidth, length, init);
    } else {
      assert RunLines(lines, 0, travelWidth, length, init).run.layers == [];
    }
  }

  /** Reading line `n - 1` without failure keeps the layer keys equal to
      the indices declared so far, given that they were before it. */
  lemma KeysAfterLine(lines: seq<string>, n: nat, travelWidth: real,
                      length: (Vec3, Vec3) -> real, init: Run)
    requires 0 < n <= |lines|
    requires var p := RunLines(lines, n - 1, travelWidth, length, init);
      p.error.None? ==> Keys(p.run.layers) == Declared(lines, n - 1)
    ensures var q := RunLines(lines, n, travelWidth, length, init);
      q.error.None? ==> Keys(q.run.layers) == Declared(lines, n)
  {
    var p := RunLines(lines, n - 1, travelWidth, length, init);
    RunLinesNext(lines, n - 1, travelWidth, length, init);
    if p.error.None? {
      StepKeys(p.run, lines[n - 1], n - 1, travelWidth, length);
    }
  }

  /** `;LAYER:12` opens layer 12. */
  lemma LayerMarkerExample()
    ensures Contains(";LAYER:12", LAYER_MARKER)
    ensures LayerIndex(";LAYER:12") == Some(12)
  {
    assert ";LAYER:12"[..7] == LAYER_MARKER;
    SplitMarkerExample();
    TwelveExample();
  }

  lemma SplitMarkerExample()
    ensures Split(";LAYER:12", ':') == [";LAYER", "12"]
  {
    var line := ";LAYER:12";
    var tail := line[7..];
    assert tail == "12";
    assert tail[0] != ':' && tail[1] != ':';
    assert Split(tail, ':') == [tail];
    assert line[6] == ':';
    assert forall j :: 0 <= j < 6 ==> line[j] != ':';
    assert IndexOf(line, ':') == 6;
    assert line[..6] == ";LAYER";
  }

  lemma TwelveExample()
    ensures ParseInt("12") == Some(12)
  {
    assert NatToString(1) == "1";
    assert NatToString(12) == "12";
    ParseOfNatToString(12);
  }

  /** What the run keeps true: layer keys are unique, no layer starts after the
      points emitted so far, the current layer is in the cache, and the two
      corners of the bounding box appear together. */
  predicate Consistent(r: Run) {
    UniqueKeys(r.layers) &&
    (forall j :: 0 <= j < |r.layers| ==> r.layers[j].1.start <= |r.points|) &&
    (r.currentLayer.Some? ==> Get(r.layers, r.currentLayer.value).Some?) &&
    (r.bounds.min.Some? <==> r.bounds.max.Some?)
  }

  /** Every line keeps the run consistent and only ever appends to the points,
      one point at most. */
  lemma StepPreserves(r: Run, line: string, lineNumber: nat, travelWidth: real,
                      length: (Vec3, Vec3) -> real)
    requires Consistent(r)
    ensures var p := Step(r, line, lineNumber, travelWidth, length);
      Consistent(p.run) && r.points <= p.run.points && |p.run.points| <= |r.points| + 1 &&
      (|p.run.points| == |r.points| && p.error.None? ==> p.run.bounds == r.bounds)
  {
    if Contains(line, LAYER_MARKER) {
      if LayerIndex(line).Some? {
        MarkerPreserves(r, LayerIndex(line).value);
      }
    } else {
      var cmd := Words(line);
      if cmd[0] == "G0" || cmd[0] == "G1" {
        MovePreserves(r, cmd, lineNumber, travelWidth, length);
      } else {
        CommandSpec(r, cmd);
      }
    }
  }

  lemma MarkerPreserves(r: Run, k: int)
    requires Consistent(r)
    ensures Consistent(OpenLayer(r, k)) && OpenLayer(r, k).points == r.points
  {
    LayerMarkerSpec(r, k);
    var r' := OpenLayer(r, k);
    forall j | 0 <= j < |r'.layers|
      ensures r'.layers[j].1.start <= |r'.points|
    {
      LayerStartBound(r, k, j);
    }
  }

  lemma MovePreserves(r: Run, cmd: seq<string>, lineNumber: nat, travelWidth: real,
                      length: (Vec3, Vec3) -> real)
    requires Consistent(r)
    ensures var p := Move(r, cmd, lineNumber, travelWidth, length);
      Consistent(p.run) && r.points <= p.run.points && |p.run.points| <= |r.points| + 1 &&
      (|p.run.points| == |r.points| && p.error.None? ==> p.run.bounds == r.bounds)
  {
    var p := Move(r, cmd, lineNumber, travelWidth, length);
    assert p.run.layers == r.layers && p.run.currentLayer == r.currentLayer;
    assert r.points <= p.run.points;
  }

  lemma LayerStartBound(r: Run, k: int, j: nat)
    requires Consistent(r) && j < |OpenLayer(r, k).layers|
    ensures OpenLayer(r, k).layers[j].1.start <= |r.points|
  {
    var count := |r.points|;
    var closed :=
      if r.currentLayer.Some? && Get(r.layers, r.currentLayer.value).Some? then
        Put(r.layers, r.currentLayer.value, Get(r.layers, r.currentLayer.value).value.(end := count - 1))
      else r.layers;
    assert forall i :: 0 <= i < |closed| ==> closed[i].1.start <= count by {
      if r.currentLayer.Some? && Get(r.layers, r.currentLayer.value).Some? {
        var c := r.currentLayer.value;
        var i0 := KeyIndex(r.layers, c);
        assert r.layers[i0].1.start <= count;
      }
    }
  }

  /** Over any number of lines the run stays consistent, and the points of a
      shorter prefix are a prefix of the points of a longer one. */
  lemma {:induction false} RunPreserves(lines: seq<string>, n: nat, travelWidth: real,
                                         length: (Vec3, Vec3) -> real, init: Run)
    requires n <= |lines| && Consistent(init)
    ensures Consistent(RunLines(lines, n, travelWidth, length, init).run)
    ensures init.points <= RunLines(lines, n, travelWidth, length, init).run.points
    ensures |RunLines(lines, n, travelWidth, length, init).run.points| <= |init.points| + n
  {
    if n > 0 {
      RunPreserves(lines, n - 1, travelWidth, length, init);
      var p := RunLines(lines, n - 1, travelWidth, length, init);
      RunLinesNext(lines, n - 1, travelWidth, length, init);
      if p.error.None? {
        StepPreserves(p.run, lines[n - 1], n - 1, travelWidth, length);
      }
    }
  }

  /** The run stops at the first error: later lines change nothing. */
  lemma {:induction false} ErrorSticks(lines: seq<string>, n: nat, m: nat, travelWidth: real,
                                        length: (Vec3, Vec3) -> real, init: Run)
    requires n <= m <= |lines| && RunLines(lines, n, travelWidth, length, init).error.Some?
    ensures RunLines(lines, m, travelWidth, length, init) == RunLines(lines, n, travelWidth, length, init)
    decreases m
  {
    if m > n {
      ErrorSticks(lines, n, m - 1, travelWidth, length, init);
      var p := RunLines(lines, m - 1, travelWidth, length, init);
      RunLinesNext(lines, m - 1, travelWidth, length, init);
      assert p.error.Some?;
    }
  }

  /** An empty line does nothing; it is the only line of an empty text. */
  lemma BlankLine(r: Run, travelWidth: real, length: (Vec3, Vec3) -> real)
    ensures Split("", '\n') == [""]
    ensures RunLines([""], 1, travelWidth, length, r) == Progress(r, None)
  {
    assert Words("") == [""] by {
      assert Split("", ' ') == [""];
    }
    RunLinesNext([""], 0, travelWidth, length, r);
  }

  /** The cached layers in the order of their starts. */
  function SortedLayers(layers: Entries<int>): seq<LayerDefinition> {
    SortByStart(MapValues(layers))
  }

  /** The layer table at the end of `parse`: the cached layers sorted by start,
      the last one ending at the last point; `None` when no layer was seen,
      where the source fails on the missing last entry. */
  function FinalLayers(layers: Entries<int>, pointsCount: int): Option<seq<LayerDefinition>> {
    var sorted := SortedLayers(layers);
    if sorted == [] then None
    else Some(sorted[|sorted| - 1 := sorted[|sorted| - 1].(end := pointsCount - 1)])
  }

  /** The table is sorted by start, has one entry per cached layer, holds
      exactly the cached layers (the last one's end aside), and the last entry
      ends at `pointsCount - 1`; it is missing exactly when no layer was
      cached. */
  lemma FinalLayersSpec(layers: Entries<int>, pointsCount: int)
    ensures FinalLayers(layers, pointsCount).None? <==> layers == []
    ensures FinalLayers(layers, pointsCount).Some? ==>
      var t := FinalLayers(layers, pointsCount).value;
      var sorted := SortedLayers(layers);
      |t| == |layers| && SortedByStart(t) && t[|t| - 1].end == pointsCount - 1 &&
      t[..|t| - 1] == sorted[..|t| - 1] && t[|t| - 1].start == sorted[|t| - 1].start &&
      multiset(sorted) == multiset(MapValues(layers))
  {
    var sorted := SortedLayers(layers);
    SortPermutes(MapValues(layers));
    if sorted != [] {
      CloseLast(sorted, pointsCount - 1);
    }
  }

  /** Setting the end of the last entry of a table sorted by start keeps it
      sorted and leaves every start and every other entry as it was. */
  lemma CloseLast(s: seq<LayerDefinition>, end: int)
    requires s != [] && SortedByStart(s)
    ensures var t := s[|s| - 1 := s[|s| - 1].(end := end)];
      SortedByStart(t) && t[..|t| - 1] == s[..|s| - 1] && t[|t| - 1].start == s[|s| - 1].start
  {
    var t := s[|s| - 1 := s[|s| - 1].(end := end)];
    assert forall i :: 0 <= i < |t| ==> t[i].start == s[i].start;
    assert t[..|t| - 1] == s[..|s| - 1];
  }
}
