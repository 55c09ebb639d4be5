/** The line interpreter of `GCodeRenderer.render`, the older renderer, as
    pure functions. Compared with `GCodeParser.parse` it has no relative mode,
    no layer markers and no radius clamp, it treats a zero word as absent, and
    it infers layers from changes of Z. */
module Legacy {
  import opened Values
  import opened Text
  import opened Numbers
  import opened LayerTable
  import opened Colorizers
  import Interpreter

  /** A number as JavaScript holds it: `undefined`, `NaN` or a value. */
  datatype JsNumber = Undefined | NaN | Num(v: real)

  /** `parseValue(token)`: `undefined` for an absent or empty word, otherwise
      `parseFloat` of what follows its letter, `NaN` included. */
  function ParseValue(token: Option<string>): JsNumber {
    if token.None? || token.value == [] then Undefined
    else
      match ParseFloat(token.value[1..])
      case None => NaN
      case Some(v) => Num(v)
  }

  /** `x || fallback`: `undefined`, `NaN` and `0` are all falsy. */
  function Or(x: JsNumber, fallback: real): real {
    if x.Num? && x.v != 0.0 then x.v else fallback
  }

  /** The older `parseValue` fails on the same words as the newer one, and
      `parseValue(token) || d` differs from the newer `parseValue(token, d)`
      exactly on a word whose value is zero, which it treats as absent. */
  lemma OrAgainstDefault(token: Option<string>, d: real)
    ensures ParseValue(token).Num? <==> Interpreter.ParseNumber(token).Some?
    ensures ParseValue(token).Num? ==> Interpreter.ParseNumber(token).value == ParseValue(token).v
    ensures Or(ParseValue(token), d) ==
      if Interpreter.ParseNumber(token) == Some(0.0) then d else Interpreter.ParseValue(token, d)
  {
  }

  /** `G92 E0` resets E in the newer interpreter but not in the older one. */
  lemma ZeroWordIgnored(lastE: real)
    ensures Interpreter.ParseValue(Some("E0"), lastE) == 0.0
    ensures Or(ParseValue(Some("E0")), lastE) == lastE
  {
    assert AllDigits("0") && DigitsValue("0") == 0;
    assert "E0" == ['E'] + "0";
    Interpreter.ParseValueOfDigits('E', "0", lastE);
  }

  /** `getValue(cmd, name, last, relative.*)`; the relative flags start
      `false` and `render` never sets them, so a present word gives its own
      value and an absent one `last`. */
  function GetValue(cmd: seq<string>, name: char, last: real): real {
    match ParseValue(FindWord(cmd, name))
    case Num(v) => v
    case _ => last
  }

  /** Every axis is read as the newer interpreter reads it in absolute mode. */
  lemma AlwaysAbsolute(cmd: seq<string>, name: char, last: real)
    ensures GetValue(cmd, name, last) == Interpreter.GetValue(cmd, name, last, false)
  {
    OrAgainstDefault(FindWord(cmd, name), last);
  }

  datatype Machine = Machine(lastPoint: Vec3, lastE: real, lastF: real, hotendTemp: real)

  /** Everything that changes while the lines are read. The layer cache is
      keyed by Z. */
  datatype Run = Run(machine: Machine, bounds: Bounds, layers: Entries<real>,
                     points: seq<PathPoint>, colors: ColorState)

  /** The state before the first line; the bounding box is the renderer's
      `min`/`max`, which `render` does not reset. */
  function Start(bounds: Bounds, colors: ColorState): Run {
    Run(Machine(Vec3(0.0, 0.0, 0.0), 0.0, 0.0, 0.0), bounds, [], [], colors)
  }

  /** The position a move goes to. */
  function Target(m: Machine, cmd: seq<string>): Vec3 {
    Vec3(GetValue(cmd, 'X', m.lastPoint.x), GetValue(cmd, 'Y', m.lastPoint.y), GetValue(cmd, 'Z', m.lastPoint.z))
  }

  /** The layer bookkeeping of a move from height `oldZ` to `newZ` once
      `count` points have been added: the layer at `oldZ` ends at the point
      just added, the one at `newZ` starts after it; a missing entry starts
      out as `{start: 0, end: 0}`. */
  function ChangeLayer(layers: Entries<real>, oldZ: real, newZ: real, count: int): Entries<real> {
    var last := match Get(layers, oldZ) case Some(d) => d case None => LayerDefinition(0, 0);
    var current := match Get(layers, newZ) case Some(d) => d case None => LayerDefinition(0, 0);
    Put(Put(layers, oldZ, last.(end := count - 1)), newZ, current.(start := count))
  }

  /** A `G0`/`G1` move. The colorizer gets no line number. */
  function Move(r: Run, cmd: seq<string>, travelWidth: real, length: (Vec3, Vec3) -> real): Run {
    var m := r.machine;
    var newPoint := Target(m, cmd);
    var e := GetValue(cmd, 'E', m.lastE);
    var f := Or(ParseValue(FindWord(cmd, 'F')), m.lastF);
    var len := length(m.lastPoint, newPoint);
    var moved := m.(lastPoint := newPoint, lastE := e, lastF := f);
    if len == 0.0 then r.(machine := moved)
    else
      var raw := Interpreter.Rate(e, m.lastE, len);
      var radius := if raw == 0.0 then travelWidth else raw;
      var bounds := if raw == 0.0 then r.bounds else CalcMinMax(r.bounds, newPoint);
      var meta := SegmentMetadata(m.lastPoint, newPoint, radius, m.hotendTemp, f, None);
      NoLineNeverFails(r.colors, meta);
      var (color, colors) := ColorStep(r.colors, meta);
      var points := r.points + [PathPoint(m.lastPoint, radius, color.value)];
      var layers := if m.lastPoint.z != newPoint.z then ChangeLayer(r.layers, m.lastPoint.z, newPoint.z, |points|)
                    else r.layers;
      Run(moved, bounds, layers, points, colors)
  }

  /** A line that is not a move: only `G92` and `M104`/`M109` do something. */
  function Command(r: Run, cmd: seq<string>): Run
    requires |cmd| >= 1
  {
    var m := r.machine;
    if cmd[0] == "G92" then
      var p := Vec3(Or(ParseValue(FindWord(cmd, 'X')), m.lastPoint.x),
                    Or(ParseValue(FindWord(cmd, 'Y')), m.lastPoint.y),
                    Or(ParseValue(FindWord(cmd, 'Z')), m.lastPoint.z));
      r.(machine := m.(lastPoint := p, lastE := Or(ParseValue(FindWord(cmd, 'E')), m.lastE)))
    else if cmd[0] == "M104" || cmd[0] == "M109" then
      r.(machine := m.(hotendTemp := Or(ParseValue(FindWord(cmd, 'S')), 0.0)))
    else r
  }

  /** What one line does to the run. */
  function Step(r: Run, line: string, travelWidth: real, length: (Vec3, Vec3) -> real): Run {
    var cmd := Interpreter.Words(line);
    if cmd[0] == "G0" || cmd[0] == "G1" then Move(r, cmd, travelWidth, length) else Command(r, cmd)
  }

  /** The run over the first `n` lines. */
  function RunLines(lines: seq<string>, n: nat, travelWidth: real,
                    length: (Vec3, Vec3) -> real, init: Run): Run
    requires n <= |lines|
  {
    if n == 0 then init
    else Step(RunLines(lines, n - 1, travelWidth, length, init), lines[n - 1], travelWidth, length)
  }

  /** A move sets the position, E and F, whatever it emits. */
  lemma MoveUpdates(r: Run, cmd: seq<string>, travelWidth: real, length: (Vec3, Vec3) -> real)
    ensures var m := r.machine;
      Move(r, cmd, travelWidth, length).machine ==
        m.(lastPoint := Target(m, cmd), lastE := GetValue(cmd, 'E', m.lastE),
           lastF := Or(ParseValue(FindWord(cmd, 'F')), m.lastF))
  {
  }

  /** A move to the position it starts from emits nothing. */
  lemma MoveInPlace(r: Run, cmd: seq<string>, travelWidth: real, length: (Vec3, Vec3) -> real)
    requires Interpreter.IsLength(length) && Target(r.machine, cmd) == r.machine.lastPoint
    ensures var r' := Move(r, cmd, travelWidth, length); r' == r.(machine := r'.machine)
  {
    assert length(r.machine.lastPoint, Target(r.machine, cmd)) == 0.0;
  }

  /** A move to another position emits one point, at the previous position. */
  lemma MoveEmits(r: Run, cmd: seq<string>, travelWidth: real, length: (Vec3, Vec3) -> real)
    requires Interpreter.IsLength(length) && Target(r.machine, cmd) != r.machine.lastPoint
    ensures var r' := Move(r, cmd, travelWidth, length);
      |r'.points| == |r.points| + 1 && r'.points[..|r.points|] == r.points &&
      r'.points[|r.points|].position == r.machine.lastPoint
  {
    assert length(r.machine.lastPoint, Target(r.machine, cmd)) != 0.0;
  }

  /** The radius of an emitted point: a move without extrusion gets
      `travelWidth`; any other gets the extrusion rate, a negative one
      included, and widens the bounding box to the new position. */
  lemma MoveRadius(r: Run, cmd: seq<string>, travelWidth: real, length: (Vec3, Vec3) -> real)
    requires Interpreter.IsLength(length) && Target(r.machine, cmd) != r.machine.lastPoint
    ensures var m := r.machine; var r' := Move(r, cmd, travelWidth, length);
      var newPoint := Target(m, cmd);
      var e := GetValue(cmd, 'E', m.lastE);
      |r'.points| == |r.points| + 1 &&
      (e == m.lastE ==> r'.points[|r.points|].radius == travelWidth && r'.bounds == r.bounds) &&
      (e < m.lastE ==> r'.points[|r.points|].radius < 0.0) &&
      (e > m.lastE ==> r'.points[|r.points|].radius > 0.0) &&
      (e != m.lastE ==> r'.points[|r.points|].radius == Interpreter.Rate(e, m.lastE, length(m.lastPoint, newPoint)) &&
                        r'.bounds == CalcMinMax(r.bounds, newPoint) && Within(newPoint, r'.bounds))
  {
    var m := r.machine;
    var newPoint := Target(m, cmd);
    var len := length(m.lastPoint, newPoint);
    assert len > 0.0;
    Interpreter.RateSign(GetValue(cmd, 'E', m.lastE), m.lastE, len);
  }

  /** A change of height closes the layer left at the point just added and
      opens the layer entered after it; every other layer is untouched. */
  lemma ChangeLayerSpec(layers: Entries<real>, oldZ: real, newZ: real, count: int)
    requires UniqueKeys(layers) && oldZ != newZ
    ensures var l := ChangeLayer(layers, oldZ, newZ, count);
      UniqueKeys(l) &&
      Get(l, oldZ).Some? && Get(l, oldZ).value.end == count - 1 &&
      (Get(layers, oldZ).Some? ==> Get(l, oldZ).value.start == Get(layers, oldZ).value.start) &&
      Get(l, newZ).Some? && Get(l, newZ).value.start == count &&
      (Get(layers, newZ).Some? ==> Get(l, newZ).value.end == Get(layers, newZ).value.end) &&
      forall z :: z != oldZ && z != newZ ==> Get(l, z) == Get(layers, z)
  {
    var last := match Get(layers, oldZ) case Some(d) => d case None => LayerDefinition(0, 0);
    var current := match Get(layers, newZ) case Some(d) => d case None => LayerDefinition(0, 0);
    PutSpec(layers, oldZ, last.(end := count - 1));
    PutSpec(Put(layers, oldZ, last.(end := count - 1)), newZ, current.(start := count));
  }

  /** What a move does to the layer cache: a move of non-zero length that
      changes height runs `ChangeLayer` with the count that already includes
      the point it adds; every other move leaves the cache alone. */
  lemma MoveLayers(r: Run, cmd: seq<string>, travelWidth: real, length: (Vec3, Vec3) -> real)
    ensures var m := r.machine; var newPoint := Target(m, cmd); var r' := Move(r, cmd, travelWidth, length);
      r'.layers == if length(m.lastPoint, newPoint) != 0.0 && m.lastPoint.z != newPoint.z
                   then ChangeLayer(r.layers, m.lastPoint.z, newPoint.z, |r.points| + 1)
                   else r.layers
  {
  }

  /** A change of height adds the two heights to the keys, and nothing else. */
  lemma ChangeLayerKeys(layers: Entries<real>, oldZ: real, newZ: real, count: int)
    ensures Keys(ChangeLayer(layers, oldZ, newZ, count)) == Keys(layers) + {oldZ, newZ}
  {
    var last := match Get(layers, oldZ) case Some(d) => d case None => LayerDefinition(0, 0);
    var current := match Get(layers, newZ) case Some(d) => d case None => LayerDefinition(0, 0);
    var l1 := Put(layers, oldZ, last.(end := count - 1));
    PutKeys(layers, oldZ, last.(end := count - 1));
    PutKeys(l1, newZ, current.(start := count));
    assert ChangeLayer(layers, oldZ, newZ, count) == Put(l1, newZ, current.(start := count));
  }

  /** The heights a line leaves and enters: those of a move of non-zero
      length that changes Z. */
  function HeightsOfLine(r: Run, line: string, length: (Vec3, Vec3) -> real): set<real> {
    var cmd := Interpreter.Words(line);
    var m := r.machine;
    var newPoint := Target(m, cmd);
    if (cmd[0] == "G0" || cmd[0] == "G1") && length(m.lastPoint, newPoint) != 0.0 && m.lastPoint.z != newPoint.z
    then {m.lastPoint.z, newPoint.z}
    else {}
  }

  /** The heights left or entered over the first `n` lines. */
  function HeightsChanged(lines: seq<string>, n: nat, travelWidth: real,
                          length: (Vec3, Vec3) -> real, init: Run): set<real>
    requires n <= |lines|
  {
    if n == 0 then {}
    else HeightsChanged(lines, n - 1, travelWidth, length, init) +
         HeightsOfLine(RunLines(lines, n - 1, travelWidth, length, init), lines[n - 1], length)
  }

  /** One line adds to the layer cache's keys exactly the heights it leaves
      and enters. */
  lemma StepKeys(r: Run, line: string, travelWidth: real, length: (Vec3, Vec3) -> real)
    ensures Keys(Step(r, line, travelWidth, length).layers) == Keys(r.layers) + HeightsOfLine(r, line, length)
  {
    var cmd := Interpreter.Words(line);
    if cmd[0] == "G0" || cmd[0] == "G1" {
      MoveKeys(r, cmd, travelWidth, length);
    } else {
      CommandSpec(r, cmd);
    }
  }

  lemma MoveKeys(r: Run, cmd: seq<string>, travelWidth: real, length: (Vec3, Vec3) -> real)
    ensures var m := r.machine; var newPoint := Target(m, cmd);
      Keys(Move(r, cmd, travelWidth, length).layers) ==
        Keys(r.layers) + if length(m.lastPoint, newPoint) != 0.0 && m.lastPoint.z != newPoint.z
                         then {m.lastPoint.z, newPoint.z} else {}
  {
    var m := r.machine;
    var newPoint := Target(m, cmd);
    MoveLayers(r, cmd, travelWidth, length);
    if length(m.lastPoint, newPoint) != 0.0 && m.lastPoint.z != newPoint.z {
      ChangeLayerKeys(r.layers, m.lastPoint.z, newPoint.z, |r.points| + 1);
    }
  }

  /** The keys of the cache after the first `n` lines are those it started
      with plus exactly the heights changed by those lines. */
  predicate KeysTracked(lines: seq<string>, n: nat, travelWidth: real,
                        length: (Vec3, Vec3) -> real, init: Run)
    requires n <= |lines|
  {
    Keys(RunLines(lines, n, travelWidth, length, init).layers) ==
      Keys(init.layers) + HeightsChanged(lines, n, travelWidth, length, init)
  }

  /** The keys of the layer cache are those it started with plus exactly the
      heights left or entered by moves of non-zero length that change Z. */
  lemma {:induction false} LayerKeys(lines: seq<string>, n: nat, travelWidth: real,
                                      length: (Vec3, Vec3) -> real, init: Run)
    requires n <= |lines|
    ensures KeysTracked(lines, n, travelWidth, length, init)
  {
    if n > 0 {
      var k := n - 1;
      LayerKeys(lines, k, travelWidth, length, init);
      KeysAfterLine(lines, k, travelWidth, length, init);
    }
  }

  /** Reading line `k` keeps the keys equal to the heights changed so far,
      given that they were before it. */
  lemma KeysAfterLine(lines: seq<string>, k: nat, travelWidth: real,
                      length: (Vec3, Vec3) -> real, init: Run)
    requires k < |lines|
    requires KeysTracked(lines, k, travelWidth, length, init)
    ensures KeysTracked(lines, k + 1, travelWidth, length, init)
  {
    var r := RunLines(lines, k, travelWidth, length, init);
    assert RunLines(lines, k + 1, travelWidth, length, init) == Step(r, lines[k], travelWidth, length);
    assert HeightsChanged(lines, k + 1, travelWidth, length, init) ==
           HeightsChanged(lines, k, travelWidth, length, init) + HeightsOfLine(r, lines[k], length);
    StepKeys(r, lines[k], travelWidth, length);
  }

  /** `G92` sets the given non-zero axes and E, `M104`/`M109` the temperature
      (0 without a non-zero `S`); every other command, `G90`, `G91`, `M82`,
      `M83` and `G20` included, changes nothing. */
  lemma CommandSpec(r: Run, cmd: seq<string>)
    requires |cmd| >= 1
    ensures var m := r.machine; var r' := Command(r, cmd);
      r'.points == r.points && r'.layers == r.layers && r'.bounds == r.bounds && r'.colors == r.colors &&
      (cmd[0] == "G92" ==>
        r'.machine.lastPoint.x == Or(ParseValue(FindWord(cmd, 'X')), m.lastPoint.x) &&
        r'.machine.lastPoint.y == Or(ParseValue(FindWord(cmd, 'Y')), m.lastPoint.y) &&
        r'.machine.lastPoint.z == Or(ParseValue(FindWord(cmd, 'Z')), m.lastPoint.z) &&
        r'.machine.lastE == Or(ParseValue(FindWord(cmd, 'E')), m.lastE) &&
        r'.machine.lastF == m.lastF && r'.machine.hotendTemp == m.hotendTemp) &&
      (cmd[0] in {"M104", "M109"} ==> r'.machine == m.(hotendTemp := Or(ParseValue(FindWord(cmd, 'S')), 0.0))) &&
      (cmd[0] !in {"G92", "M104", "M109"} ==> r' == r)
  {
  }

  /** The layer keys stay unique and the points only grow, one per line at
      most. */
  lemma {:induction false} RunPreserves(lines: seq<string>, n: nat, travelWidth: real,
                                         length: (Vec3, Vec3) -> real, init: Run)
    requires n <= |lines| && UniqueKeys(init.layers)
    ensures var r := RunLines(lines, n, travelWidth, length, init);
      UniqueKeys(r.layers) && init.points <= r.points && |r.points| <= |init.points| + n
  {
    if n > 0 {
      RunPreserves(lines, n - 1, travelWidth, length, init);
      var r := RunLines(lines, n - 1, travelWidth, length, init);
      StepPreserves(r, lines[n - 1], travelWidth, length);
    }
  }

  /** One line keeps the layer keys unique and appends one point at most. */
  lemma StepPreserves(r: Run, line: string, travelWidth: real, length: (Vec3, Vec3) -> real)
    requires UniqueKeys(r.layers)
    ensures var r' := Step(r, line, travelWidth, length);
      UniqueKeys(r'.layers) && r.points <= r'.points && |r'.points| <= |r.points| + 1
  {
    var cmd := Interpreter.Words(line);
    if cmd[0] == "G0" || cmd[0] == "G1" {
      StepPreservesMove(r, cmd, travelWidth, length);
    } else {
      CommandSpec(r, cmd);
    }
  }

  lemma StepPreservesMove(r: Run, cmd: seq<string>, travelWidth: real, length: (Vec3, Vec3) -> real)
    requires UniqueKeys(r.layers)
    ensures var r' := Move(r, cmd, travelWidth, length);
      UniqueKeys(r'.layers) && r.points <= r'.points && |r'.points| <= |r.points| + 1 &&
      (|r'.points| == |r.points| ==> r'.bounds == r.bounds)
  {
    var m := r.machine;
    var newPoint := Target(m, cmd);
    var r' := Move(r, cmd, travelWidth, length);
    if length(m.lastPoint, newPoint) == 0.0 {
      assert r'.points == r.points && r'.layers == r.layers && r'.bounds == r.bounds;
    } else {
      assert |r'.points| == |r.points| + 1 && r'.points[..|r.points|] == r.points;
      if m.lastPoint.z != newPoint.z {
        ChangeLayerSpec(r.layers, m.lastPoint.z, newPoint.z, |r.points| + 1);
      }
    }
  }

  /** An empty line does nothing; it is the only line of an empty text. */
  lemma BlankLine(r: Run, travelWidth: real, length: (Vec3, Vec3) -> real)
    ensures Split("", '\n') == [""]
    ensures RunLines([""], 1, travelWidth, length, r) == r
  {
    assert Interpreter.Words("") == [""] by {
      assert Split("", ' ') == [""];
    }
    assert Split("", '\n') == [""];
  }
}
