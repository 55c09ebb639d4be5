/** The segment colorizers: `SimpleColorizer`, which has one colour for every
    segment, and `LineColorizer`, which walks forward through a table of line
    ranges with a cursor. */
module Colorizers {
  import opened Values

  /** `SimpleColorizer`: the same colour whatever the segment. */
  datatype SimpleColorizer = SimpleColorizer(color: Color) {
    function GetColor(meta: SegmentMetadata): Color {
      color
    }
  }

  /** `new SimpleColorizer(color?)`: the colour defaults to `DEFAULT_COLOR`. */
  function NewSimpleColorizer(color: Option<Color>): (c: SimpleColorizer)
    ensures color.Some? ==> c.color == color.value
    ensures color.None? ==> c.color == Rgb(0x29BEB0)
  {
    match color
    case Some(col) => SimpleColorizer(col)
    case None => SimpleColorizer(DEFAULT_COLOR)
  }

  /** Every call of a simple colorizer gives the colour it was built with,
      whatever the segment metadata. */
  lemma SimpleColorIsConstant(c: SimpleColorizer, m1: SegmentMetadata, m2: SegmentMetadata)
    ensures c.GetColor(m1) == c.GetColor(m2) == c.color
  {
  }

  /** One entry of a `LineColorConfig`: the lines up to `toLine` get `color`. */
  datatype LineColorRange = LineColorRange(toLine: int, color: Color)

  datatype LineColorizerOptions = LineColorizerOptions(defaultColor: Color)

  /** Reading the colour of the config entry at `index`, one past the last
      entry, fails (a `TypeError` in the source). */
  datatype ColorError = MissingConfigEntry(index: nat)

  /** The colour used once the cursor is past the end of the config. */
  function Fallback(options: Option<LineColorizerOptions>): Color {
    match options
    case Some(o) => o.defaultColor
    case None => DEFAULT_COLOR
  }

  /** What one call of a line colorizer returns, and where it leaves its cursor. */
  datatype LineColorOutcome = LineColorOutcome(color: Result<Color, ColorError>, cursor: nat)

  /** One call of `LineColorizer.getColor` with the cursor at `cursor`. */
  function LineColorStep(config: seq<LineColorRange>, options: Option<LineColorizerOptions>,
                         cursor: nat, meta: SegmentMetadata): LineColorOutcome
  {
    if cursor >= |config| then LineColorOutcome(Ok(Fallback(options)), cursor)
    else
      var next := if meta.gCodeLine.Some? && config[cursor].toLine < meta.gCodeLine.value
                  then cursor + 1 else cursor;
      if next < |config| then LineColorOutcome(Ok(config[next].color), next)
      else LineColorOutcome(Err(MissingConfigEntry(next)), next)
  }

  /** The cursor advances by exactly one when the current range ends before
      the segment's line, and otherwise stays where it is. */
  lemma CursorAdvance(config: seq<LineColorRange>, options: Option<LineColorizerOptions>,
                      cursor: nat, meta: SegmentMetadata)
    ensures var out := LineColorStep(config, options, cursor, meta);
      (out.cursor == cursor + 1 <==>
         cursor < |config| && meta.gCodeLine.Some? && config[cursor].toLine < meta.gCodeLine.value) &&
      (out.cursor == cursor || out.cursor == cursor + 1)
  {
  }

  /** Past the end of the config the fallback colour is returned and the cursor
      stays put. */
  lemma PastEndFallsBack(config: seq<LineColorRange>, options: Option<LineColorizerOptions>,
                         cursor: nat, meta: SegmentMetadata)
    requires cursor >= |config|
    ensures LineColorStep(config, options, cursor, meta) == LineColorOutcome(Ok(Fallback(options)), cursor)
  {
  }

  /** Within the config, the call fails exactly when it advances from the last
      entry; otherwise the colour is the one of the entry under the new cursor. */
  lemma ColorOfNewCursor(config: seq<LineColorRange>, options: Option<LineColorizerOptions>,
                         cursor: nat, meta: SegmentMetadata)
    requires cursor < |config|
    ensures var out := LineColorStep(config, options, cursor, meta);
      (out.color.Err? <==> out.cursor == |config|) &&
      (out.color.Ok? ==> out.color.value == config[out.cursor].color)
  {
  }

  /** Only the line number of the segment is read. */
  lemma OnlyLineIsRead(config: seq<LineColorRange>, options: Option<LineColorizerOptions>,
                       cursor: nat, m1: SegmentMetadata, m2: SegmentMetadata)
    requires m1.gCodeLine == m2.gCodeLine
    ensures LineColorStep(config, options, cursor, m1) == LineColorStep(config, options, cursor, m2)
  {
  }

  /** A line more than one range ahead of the cursor gets the colour of the next
      range, not of its own: with ranges up to 10, 20 and 30, line 25 is coloured
      like the range ending at 20. */
  lemma OneRangePerCall(meta: SegmentMetadata)
    requires meta.gCodeLine == Some(25)
    ensures var config := [LineColorRange(10, Rgb(1)), LineColorRange(20, Rgb(2)), LineColorRange(30, Rgb(3))];
      LineColorStep(config, None, 0, meta) == LineColorOutcome(Ok(Rgb(2)), 1)
  {
  }

  /** `LineColorizer`: a forward-only cursor over the configured line ranges;
      calls are expected in increasing line order. */
  class LineColorizer {
    const lineColorConfig: seq<LineColorRange>
    const options: Option<LineColorizerOptions>
    var currentConfigIndex: nat

    constructor (lineColorConfig: seq<LineColorRange>, options: Option<LineColorizerOptions>)
      ensures this.lineColorConfig == lineColorConfig && this.options == options
      ensures currentConfigIndex == 0
    {
      this.lineColorConfig := lineColorConfig;
      this.options := options;
      currentConfigIndex := 0;
    }

    method GetColor(meta: SegmentMetadata) returns (r: Result<Color, ColorError>)
      modifies this
      ensures LineColorOutcome(r, currentConfigIndex) ==
              LineColorStep(lineColorConfig, options, old(currentConfigIndex), meta)
    {
      if currentConfigIndex >= |lineColorConfig| {
        return Ok(Fallback(options));
      }
      if meta.gCodeLine.Some? && lineColorConfig[currentConfigIndex].toLine < meta.gCodeLine.value {
        currentConfigIndex := currentConfigIndex + 1;
      }
      if currentConfigIndex < |lineColorConfig| {
        r := Ok(lineColorConfig[currentConfigIndex].color);
      } else {
        r := Err(MissingConfigEntry(currentConfigIndex));
      }
    }
  }

  /** A colorizer as the interpreters hold it. */
  datatype Colorizer = Simple(simple: SimpleColorizer) | ByLine(byLine: LineColorizer)

  /** The objects a call of the colorizer may change. */
  function Footprint(c: Colorizer): set<object> {
    if c.ByLine? then {c.byLine} else {}
  }

  /** The state of a colorizer as a value. */
  datatype ColorState =
    | SimpleState(simple: SimpleColorizer)
    | ByLineState(config: seq<LineColorRange>, options: Option<LineColorizerOptions>, cursor: nat)

  function StateOf(c: Colorizer): ColorState
    reads Footprint(c)
  {
    match c
    case Simple(s) => SimpleState(s)
    case ByLine(l) => ByLineState(l.lineColorConfig, l.options, l.currentConfigIndex)
  }

  /** One `getColor` call on a colorizer in state `s`: the result and the next
      state. */
  function ColorStep(s: ColorState, meta: SegmentMetadata): (Result<Color, ColorError>, ColorState)
  {
    match s
    case SimpleState(c) => (Ok(c.GetColor(meta)), s)
    case ByLineState(config, options, cursor) =>
      var out := LineColorStep(config, options, cursor, meta);
      (out.color, s.(cursor := out.cursor))
  }

  /** `colorizer.getColor(meta)`. */
  method GetColor(c: Colorizer, meta: SegmentMetadata) returns (r: Result<Color, ColorError>)
    modifies Footprint(c)
    ensures (r, StateOf(c)) == ColorStep(old(StateOf(c)), meta)
  {
    match c
    case Simple(s) => r := Ok(s.GetColor(meta));
    case ByLine(l) => r := l.GetColor(meta);
  }

  /** Without a line number the cursor never moves, so no call fails: a line
      colorizer keeps returning the colour under its cursor, or the fallback
      past the end. */
  lemma NoLineNeverFails(s: ColorState, meta: SegmentMetadata)
    requires meta.gCodeLine.None?
    ensures ColorStep(s, meta).0.Ok? && ColorStep(s, meta).1 == s
    ensures s.ByLineState? && s.cursor < |s.config| ==> ColorStep(s, meta).0.value == s.config[s.cursor].color
  {
  }
}
