/** `calcMinMaxMetadata`: the pass over the G-code, before any rendering, that
    finds the temperature and speed ranges the colorizers are built from.
    A line starting with `;` is skipped; a move gives the value of its `F`
    word, a line without one gives nothing; `M104`/`M109` give the value of
    their `S` word, 0 without one. Comments after a command are not removed. */
module Metadata {
  import opened Values
  import opened Text
  import Interpreter
  import Legacy

  /** The lowest value seen, unset before the first, and the highest, which
      starts at 0. */
  datatype Extremes = Extremes(min: Option<real>, max: real)

  /** One value seen. */
  function Observe(x: Extremes, v: real): Extremes {
    Extremes(if x.min.None? || v < x.min.value then Some(v) else x.min,
             if v > x.max then v else x.max)
  }

  /** The extremes after seeing the values `vs` in order, starting from `x`. */
  function Fold(x: Extremes, vs: seq<real>): Extremes
    decreases |vs|
  {
    if vs == [] then x else Observe(Fold(x, vs[..|vs| - 1]), vs[|vs| - 1])
  }

  /** The extremes of the values `vs`, from nothing seen. */
  function Scan(vs: seq<real>): Extremes {
    Fold(Extremes(None, 0.0), vs)
  }

  /** `min` is the smallest of the values, unset exactly when there are none;
      `max` is the largest of 0 and the values. */
  lemma {:induction false} ScanSpec(vs: seq<real>)
    ensures Scan(vs).min.None? <==> vs == []
    ensures Scan(vs).min.Some? ==> Scan(vs).min.value in vs
    ensures forall k :: 0 <= k < |vs| ==> Scan(vs).min.value <= vs[k] <= Scan(vs).max
    ensures Scan(vs).max >= 0.0 && (Scan(vs).max == 0.0 || Scan(vs).max in vs)
    decreases |vs|
  {
    if vs != [] {
      var n := |vs| - 1;
      ScanSpec(vs[..n]);
      assert Scan(vs) == Observe(Scan(vs[..n]), vs[n]);
      assert vs == vs[..n] + [vs[n]];
      assert forall k :: 0 <= k < n ==> vs[k] == vs[..n][k];
    }
  }

  /** Whether a line takes part: it does not start with `;`. */
  predicate Counted(line: string) {
    !(|line| > 0 && line[0] == ';')
  }

  /** The words of a line; here the comment is kept. */
  function Command(line: string): (cmd: seq<string>)
    ensures |cmd| >= 1
  {
    Split(line, ' ')
  }

  function IsMove(cmd: seq<string>): bool requires |cmd| >= 1 { cmd[0] == "G0" || cmd[0] == "G1" }

  function IsHeat(cmd: seq<string>): bool requires |cmd| >= 1 { cmd[0] == "M104" || cmd[0] == "M109" }

  /** The feed rate a line gives: the value of the `F` word of a move. */
  function SpeedOf(line: string): seq<real> {
    var cmd := Command(line);
    var f := Interpreter.ParseNumber(FindWord(cmd, 'F'));
    if Counted(line) && IsMove(cmd) && f.Some? then [f.value] else []
  }

  /** The temperature a line gives: the value of the `S` word of `M104` or
      `M109`, 0 without one. */
  function TempOf(line: string): seq<real> {
    var cmd := Command(line);
    if Counted(line) && IsHeat(cmd) then [Interpreter.ParseValue(FindWord(cmd, 'S'), 0.0)] else []
  }

  /** The feed rates the lines give, in order. */
  function Speeds(lines: seq<string>): seq<real>
    decreases |lines|
  {
    if lines == [] then [] else Speeds(lines[..|lines| - 1]) + SpeedOf(lines[|lines| - 1])
  }

  /** The hot-end temperatures the lines give, in order. */
  function Temps(lines: seq<string>): seq<real>
    decreases |lines|
  {
    if lines == [] then [] else Temps(lines[..|lines| - 1]) + TempOf(lines[|lines| - 1])
  }

  /** A line starting with `;` gives nothing, even when a command follows. */
  lemma CommentLineSkipped(lines: seq<string>, line: string)
    requires |line| > 0 && line[0] == ';'
    ensures Speeds(lines + [line]) == Speeds(lines) && Temps(lines + [line]) == Temps(lines)
  {
    assert (lines + [line])[..|lines|] == lines;
  }

  /** The older renderer reads the temperature as `parseValue(S) || 0`, which
      is the same number: an absent word, a word that is not a number and a
      zero word all give 0. */
  lemma LegacyTempAgrees(cmd: seq<string>)
    ensures Legacy.Or(Legacy.ParseValue(FindWord(cmd, 'S')), 0.0) == Interpreter.ParseValue(FindWord(cmd, 'S'), 0.0)
  {
    Legacy.OrAgainstDefault(FindWord(cmd, 'S'), 0.0);
  }

  /** The older renderer keeps `NaN` feed rates: `minSpeed` starts as
      `undefined`, and a first reading of `NaN` sticks, since no comparison
      with `NaN` holds. */
  datatype LegacyExtremes = LegacyExtremes(min: Legacy.JsNumber, max: real)

  function ObserveLegacy(x: LegacyExtremes, f: Legacy.JsNumber): LegacyExtremes {
    LegacyExtremes(
      if x.min.Undefined? || (f.Num? && x.min.Num? && f.v < x.min.v) then f else x.min,
      if f.Num? && f.v > x.max then f.v else x.max)
  }

  function FoldLegacy(x: LegacyExtremes, fs: seq<Legacy.JsNumber>): LegacyExtremes
    decreases |fs|
  {
    if fs == [] then x else ObserveLegacy(FoldLegacy(x, fs[..|fs| - 1]), fs[|fs| - 1])
  }

  function ScanLegacy(fs: seq<Legacy.JsNumber>): LegacyExtremes {
    FoldLegacy(LegacyExtremes(Legacy.Undefined, 0.0), fs)
  }

  /** The feed-rate reading the older renderer takes from a line: every
      present `F` word of a move, `NaN` included. */
  function LegacySpeedOf(line: string): seq<Legacy.JsNumber> {
    var cmd := Command(line);
    var f := Legacy.ParseValue(FindWord(cmd, 'F'));
    if Counted(line) && IsMove(cmd) && !f.Undefined? then [f] else []
  }

  function LegacySpeeds(lines: seq<string>): seq<Legacy.JsNumber>
    decreases |lines|
  {
    if lines == [] then [] else LegacySpeeds(lines[..|lines| - 1]) + LegacySpeedOf(lines[|lines| - 1])
  }

  /** The numbers among the readings. */
  function Numbers(fs: seq<Legacy.JsNumber>): seq<real>
    decreases |fs|
  {
    if fs == [] then []
    else Numbers(fs[..|fs| - 1]) + (if fs[|fs| - 1].Num? then [fs[|fs| - 1].v] else [])
  }

  /** The older renderer reads the same numbers as the newer one, plus the
      `NaN`s, and no reading is `undefined`. */
  lemma {:induction false} LegacyReadings(lines: seq<string>)
    ensures Numbers(LegacySpeeds(lines)) == Speeds(lines)
    ensures forall k :: 0 <= k < |LegacySpeeds(lines)| ==> !LegacySpeeds(lines)[k].Undefined?
    decreases |lines|
  {
    if lines != [] {
      var n := |lines| - 1;
      LegacyReadings(lines[..n]);
      var cmd := Command(lines[n]);
      ReadingAgrees(FindWord(cmd, 'F'));
      NumbersAppend(LegacySpeeds(lines[..n]), LegacySpeedOf(lines[n]));
    }
  }

  /** The numbers of one `F` word agree. */
  lemma ReadingAgrees(token: Option<string>)
    ensures Legacy.ParseValue(token).Num? <==> Interpreter.ParseNumber(token).Some?
    ensures Legacy.ParseValue(token).Num? ==> Interpreter.ParseNumber(token).value == Legacy.ParseValue(token).v
  {
  }

  lemma NumbersAppend(fs: seq<Legacy.JsNumber>, last: seq<Legacy.JsNumber>)
    requires |last| <= 1
    ensures Numbers(fs + last) == Numbers(fs) + (if last != [] && last[0].Num? then [last[0].v] else [])
  {
    if last != [] {
      assert (fs + last)[..|fs|] == fs;
    } else {
      assert fs + last == fs;
    }
  }

  /** `maxSpeed` ignores the `NaN`s; without any `NaN` the older renderer
      finds the same `minSpeed` as the newer one. */
  lemma {:induction false} LegacyScanAgrees(fs: seq<Legacy.JsNumber>)
    requires forall k :: 0 <= k < |fs| ==> !fs[k].Undefined?
    ensures ScanLegacy(fs).max == Scan(Numbers(fs)).max
    ensures (forall k :: 0 <= k < |fs| ==> fs[k].Num?) ==>
      ScanLegacy(fs).min == match Scan(Numbers(fs)).min case None => Legacy.Undefined case Some(v) => Legacy.Num(v)
    decreases |fs|
  {
    if fs != [] {
      var n := |fs| - 1;
      LegacyScanAgrees(fs[..n]);
      var prefix := Numbers(fs[..n]);
      if forall k :: 0 <= k < |fs| ==> fs[k].Num? {
        assert forall k :: 0 <= k < n ==> fs[..n][k].Num?;
      }
      assert ScanLegacy(fs) == ObserveLegacy(ScanLegacy(fs[..n]), fs[n]);
      if fs[n].Num? {
        assert Numbers(fs) == prefix + [fs[n].v];
        assert (prefix + [fs[n].v])[..|prefix|] == prefix;
        assert Scan(Numbers(fs)) == Observe(Scan(prefix), fs[n].v) by {
          FoldAppend(Extremes(None, 0.0), prefix, [fs[n].v]);
        }
      } else {
        assert Numbers(fs) == prefix;
      }
    }
  }

  /** A first reading of `NaN` leaves `minSpeed` at `NaN` for good. */
  lemma {:induction false} FirstNaNSticks(fs: seq<Legacy.JsNumber>)
    requires fs != [] && fs[0] == Legacy.NaN
    ensures ScanLegacy(fs).min == Legacy.NaN
    decreases |fs|
  {
    var n := |fs| - 1;
    assert ScanLegacy(fs) == ObserveLegacy(ScanLegacy(fs[..n]), fs[n]);
    if n > 0 {
      assert fs[..n][0] == fs[0];
      FirstNaNSticks(fs[..n]);
    } else {
      assert fs[..n] == [];
    }
  }

  /** Seeing one more value, or none. */
  lemma FoldAppend(x: Extremes, vs: seq<real>, last: seq<real>)
    requires |last| <= 1
    ensures Fold(x, vs + last) == if last == [] then Fold(x, vs) else Observe(Fold(x, vs), last[0])
  {
    if last == [] {
      assert vs + last == vs;
    } else {
      assert (vs + last)[..|vs|] == vs;
    }
  }

  lemma FoldLegacyAppend(x: LegacyExtremes, fs: seq<Legacy.JsNumber>, last: seq<Legacy.JsNumber>)
    requires |last| <= 1
    ensures FoldLegacy(x, fs + last) == if last == [] then FoldLegacy(x, fs) else ObserveLegacy(FoldLegacy(x, fs), last[0])
  {
    if last == [] {
      assert fs + last == fs;
    } else {
      assert (fs + last)[..|fs|] == fs;
    }
  }

  /** The extremes after one line's reading, if it has one. */
  function Read(x: Extremes, reading: seq<real>): Extremes {
    if reading == [] then x else Observe(x, reading[0])
  }

  /** The temperature extremes after the first `i` lines, read one line at a
      time from `x`. */
  function ScanTemps(x: Extremes, lines: seq<string>, i: nat): Extremes
    requires i <= |lines|
  {
    if i == 0 then x else Read(ScanTemps(x, lines, i - 1), TempOf(lines[i - 1]))
  }

  /** The feed-rate extremes after the first `i` lines, read one line at a
      time from `x`. */
  function ScanSpeeds(x: Extremes, lines: seq<string>, i: nat): Extremes
    requires i <= |lines|
  {
    if i == 0 then x else Read(ScanSpeeds(x, lines, i - 1), SpeedOf(lines[i - 1]))
  }

  /** Reading line by line gives the extremes of all the temperature
      readings of those lines. */
  lemma {:induction false} TempScanIsFold(x: Extremes, lines: seq<string>, i: nat)
    requires i <= |lines|
    ensures ScanTemps(x, lines, i) == Fold(x, Temps(lines[..i]))
  {
    if i > 0 {
      var reading := TempOf(lines[i - 1]);
      TempScanIsFold(x, lines, i - 1);
      TempReadingStep(lines, i - 1);
      FoldAppend(x, Temps(lines[..i - 1]), reading);
    }
  }

  /** Reading line by line gives the extremes of all the feed-rate readings
      of those lines. */
  lemma {:induction false} SpeedScanIsFold(x: Extremes, lines: seq<string>, i: nat)
    requires i <= |lines|
    ensures ScanSpeeds(x, lines, i) == Fold(x, Speeds(lines[..i]))
  {
    if i > 0 {
      var k := i - 1;
      var reading := SpeedOf(lines[k]);
      SpeedScanIsFold(x, lines, k);
      SpeedReadingStep(lines, k);
      FoldAppend(x, Speeds(lines[..k]), reading);
    }
  }

  /** Reading every line gives the extremes of all the temperature readings. */
  lemma TempScanCoversAll(x: Extremes, lines: seq<string>)
    ensures ScanTemps(x, lines, |lines|) == Fold(x, Temps(lines))
  {
    TempScanIsFold(x, lines, |lines|);
    assert lines[..|lines|] == lines;
  }

  /** Reading every line gives the extremes of all the feed-rate readings. */
  lemma SpeedScanCoversAll(x: Extremes, lines: seq<string>)
    ensures ScanSpeeds(x, lines, |lines|) == Fold(x, Speeds(lines))
  {
    SpeedScanIsFold(x, lines, |lines|);
    assert lines[..|lines|] == lines;
  }

  /** The older renderer's feed-rate extremes after one line's reading, if it
      has one. */
  function ReadLegacy(x: LegacyExtremes, reading: seq<Legacy.JsNumber>): LegacyExtremes {
    if reading == [] then x else ObserveLegacy(x, reading[0])
  }

  /** The older renderer's feed-rate extremes after the first `i` lines, read
      one line at a time from `x`. */
  function ScanLegacySpeeds(x: LegacyExtremes, lines: seq<string>, i: nat): LegacyExtremes
    requires i <= |lines|
  {
    if i == 0 then x else ReadLegacy(ScanLegacySpeeds(x, lines, i - 1), LegacySpeedOf(lines[i - 1]))
  }

  lemma {:induction false} LegacyScanIsFold(x: LegacyExtremes, lines: seq<string>, i: nat)
    requires i <= |lines|
    ensures ScanLegacySpeeds(x, lines, i) == FoldLegacy(x, LegacySpeeds(lines[..i]))
  {
    if i > 0 {
      var k := i - 1;
      var reading := LegacySpeedOf(lines[k]);
      LegacyScanIsFold(x, lines, k);
      LegacyReadingStep(lines, k);
      FoldLegacyAppend(x, LegacySpeeds(lines[..k]), reading);
    }
  }

  /** Reading every line gives the extremes of all the older renderer's
      feed-rate readings. */
  lemma LegacyScanCoversAll(x: LegacyExtremes, lines: seq<string>)
    ensures ScanLegacySpeeds(x, lines, |lines|) == FoldLegacy(x, LegacySpeeds(lines))
  {
    LegacyScanIsFold(x, lines, |lines|);
    assert lines[..|lines|] == lines;
  }

  /** What line `i` adds to the temperature readings. */
  lemma TempReadingStep(lines: seq<string>, i: nat)
    requires i < |lines|
    ensures Temps(lines[..i + 1]) == Temps(lines[..i]) + TempOf(lines[i])
  {
    assert lines[..i + 1][..i] == lines[..i];
  }

  /** What line `i` adds to the feed-rate readings. */
  lemma SpeedReadingStep(lines: seq<string>, i: nat)
    requires i < |lines|
    ensures Speeds(lines[..i + 1]) == Speeds(lines[..i]) + SpeedOf(lines[i])
  {
    assert lines[..i + 1][..i] == lines[..i];
  }

  /** What line `i` adds to the older renderer's feed-rate readings. */
  lemma LegacyReadingStep(lines: seq<string>, i: nat)
    requires i < |lines|
    ensures LegacySpeeds(lines[..i + 1]) == LegacySpeeds(lines[..i]) + LegacySpeedOf(lines[i])
  {
    assert lines[..i + 1][..i] == lines[..i];
  }
}
