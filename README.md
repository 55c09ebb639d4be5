# gcode-viewer core, modelled in Dafny

gcode-viewer reads G-code text and turns it into a tube mesh. Each `G0`/`G1`
move that covers some distance becomes one path point with a radius and a
colour. The points are split into chunks of a fixed size (`LineTubeGeometry`
objects), and the start of each layer is recorded so that the model can be
sliced by point or by layer. The repository holds two interpreters for the
same job:

- `GCodeParser` in `src/parser.ts`, the current one;
- `GCodeRenderer` in `src/gcode.ts`, the older one.

Both share the colorizers of `src/SegmentColorizer.ts`.

This project models the following:

- **Values** (`values.dfy`): vectors, colours, path points, segment metadata,
  and the bounding box `calcMinMax`.
- **Text** and **Numbers** (`text.dfy`, `numbers.dfy`): `split`/`join`,
  `includes`, `find` over the words of a line, and the JavaScript number
  readers `parseFloat` and `parseInt`. `parseInt` reads `0x`-prefixed text as
  hexadecimal.
- **LayerTable** (`layer_table.dfy`): a JavaScript `Map` as a list of entries
  in insertion order, `Array.from(map.values())`, and the stable sort by start.
- **Colorizers** (`colorizers.dfy`): `SimpleColorizer` as a value and
  `LineColorizer` as a class whose cursor moves. The dispatch of the
  `SegmentColorizer` interface is a datatype with one case per colorizer, and
  its state is threaded through both interpreters.
- **Chunks** and **Slicing** (`chunks.dfy`, `slicing.dfy`):
  - `addLine`, which splits the points into chunks of `pointsPerObject` and
    starts every chunk after the first with a copy of the last point added;
  - both `pointsCount()` methods;
  - the window arithmetic of `slice`.
- **Interpreter** and **Parser** (`interpreter.dfy`, `parser.dfy`): the line
  interpreter of `parse()` as a step function and its fold, with the
  following behaviour:
  - relative and absolute modes;
  - `;LAYER:` markers;
  - `G92`, `M104`/`M109` and `G20`;
  - the colour failure of a `LineColorizer`.

  The class `GCodeParser` has the constructor, `calcMinMaxMetadata`, `parse`
  (its generator loop and `addLine` loop as methods), `slice`, `sliceLayer`,
  `pointsCount` and `layerCount`.
- **Legacy** and **GCode** (`legacy.dfy`, `gcode.dfy`): the same for
  `gcode.ts`, with the following behaviour:
  - `NaN`-aware readings;
  - `x || fallback` defaults;
  - layers keyed by height;
  - 120000 points per chunk;
  - the failure at the end of `render` when no point was added.

  The class `GCodeRenderer` has the constructor, `calcMinMaxMetadata`,
  `render`, `pointsCount` and `layerCount`.
- **Metadata** (`metadata.dfy`): the temperature and feed-rate extremes that
  both `calcMinMaxMetadata` methods compute, as a scan over the readings of
  the lines.

Numbers are `real`. The distance between two points is a parameter `length`,
constrained by `Interpreter.IsLength`: it is never negative, and it is zero
exactly between equal points.

## Model

| member | source | states |
|---|---|---|
| Values.CalcMinMax | src/parser.ts:38-69 | the new box holds the point; each present corner only widens; a missing corner becomes the point itself |
| Values.EncloseIsSmallest | src/parser.ts:316-326 | widening from no box with every extruded point gives a box that holds every point, and every coordinate of both corners is a coordinate of one of the points |
| Values.AttainedExtends | src/gcode.ts:156-183 | widening with one more point keeps every corner coordinate attained by some point |
| Text.Split | src/parser.ts:253 | `split` always yields at least one piece |
| Text.JoinSplit | src/parser.ts:253 | joining the pieces of a split gives back the text, and no piece holds the separator |
| Text.SplitJoin | src/parser.ts:253 | splitting the join of pieces free of the separator gives back those pieces |
| Text.IndexOf | src/parser.ts:303 | the index of the first separator, or the length when there is none; no earlier character is the separator |
| Text.Before | src/parser.ts:303 | `line.split(";", 2)[0]` is a prefix that holds no `;` and stops at the first `;` |
| Text.ContainsIff | src/parser.ts:288 | `includes` holds exactly when the pattern occurs at some index |
| Text.FindWord | src/parser.ts:240 | `find` gives a word exactly when some word starts with the letter, and it gives the first such word |
| Numbers.TrimStartSuffix | src/parser.ts:29 | what is left after the number readers skip the leading white space is a suffix of the text |
| Numbers.FractionValue | src/parser.ts:29 | the digits after the point have a value of at least 0 and less than 1 |
| Numbers.HexRunOfHexDigits | src/parser.ts:289 | a run of hexadecimal digits is read whole |
| Numbers.ParseOfHexDigits | src/parser.ts:289 | `parseInt("0x" + h)` is the hexadecimal value of `h`, and `parseFloat` of the same text is 0 |
| Numbers.ParseIntHexExample | src/parser.ts:289 | `parseInt("0x10")` is 16 |
| Numbers.DigitsValueOfNatToString | src/parser.ts:289 | reading back the decimal notation of a natural number gives the number |
| Numbers.UnsignedIntOfDigits | src/parser.ts:289 | a non-empty string of decimal digits is read whole, as their decimal value |
| Numbers.ParseOfDigits | src/parser.ts:29 | both readers read a non-empty string of digits whole |
| Numbers.ParseOfNegatedDigits | src/parser.ts:29 | both readers read digits behind a minus sign as their opposite |
| Numbers.ParseOfNatToString | src/parser.ts:289 | `parseInt` and `parseFloat` invert `String(n)` |
| Numbers.NotANumber | src/parser.ts:29 | text that starts with anything other than white space, a sign, a digit or a point is `NaN` to both readers |
| LayerTable.Get | src/parser.ts:292 | `map.get(k)` finds a value exactly when some entry has key `k` |
| LayerTable.KeyIndexAt | src/parser.ts:292 | the lookup of a key lands on the first entry that carries it, or past the end when none does |
| LayerTable.PutSpec | src/parser.ts:298 | `map.set` keeps the keys unique, maps `k` to `v`, leaves every other key's value alone, grows the map only for a new key, and keeps each entry's position |
| LayerTable.PutKeys | src/parser.ts:298 | `map.set` adds its key to the key set and nothing else |
| LayerTable.KeysOfUnique | src/parser.ts:391 | a map with unique keys has as many values as keys |
| LayerTable.MapValues | src/parser.ts:391 | `Array.from(map.values())` keeps one value per entry, in insertion order |
| LayerTable.InsertPermutes | src/parser.ts:391 | inserting into the sorted part adds the entry and loses nothing |
| LayerTable.InsertSorted | src/parser.ts:391 | inserting into a list sorted by start keeps it sorted |
| LayerTable.SortPermutes | src/parser.ts:391 | the sort by start is a permutation of the values |
| LayerTable.SortByStart | src/parser.ts:391 | the result is ordered by start and is as long as the input |
| Colorizers.NewSimpleColorizer | src/SegmentColorizer.ts:50-55 | the colour is the one given, or `#29BEB0` when none is given |
| Colorizers.SimpleColorIsConstant | src/SegmentColorizer.ts:57-59 | every call gives the colour the colorizer was built with, whatever the segment |
| Colorizers.LineColorizer.constructor | src/SegmentColorizer.ts:29-34 | the config and options are kept, and the cursor starts at 0 |
| Colorizers.LineColorizer.GetColor | src/SegmentColorizer.ts:36-47 | the result and the new cursor are those of one step over the config from the old cursor |
| Colorizers.CursorAdvance | src/SegmentColorizer.ts:42-44 | the cursor moves by one exactly when it is inside the config and the current range ends before the segment's line; otherwise it stays |
| Colorizers.PastEndFallsBack | src/SegmentColorizer.ts:38-40 | past the end of the config, the fallback colour is returned and the cursor stays |
| Colorizers.ColorOfNewCursor | src/SegmentColorizer.ts:42-46 | the call fails exactly when the cursor steps off the last entry; otherwise the colour is that of the entry under the new cursor |
| Colorizers.OnlyLineIsRead | src/SegmentColorizer.ts:36-47 | two segments with the same line number get the same outcome |
| Colorizers.OneRangePerCall | src/SegmentColorizer.ts:42-44 | with ranges ending at lines 10, 20 and 30 and a cursor at 0, line 25 gets the colour of the range ending at 20: the cursor advances by one range per call |
| Colorizers.GetColor | src/parser.ts:328-335 | a call through the colorizer interface is one step of the colorizer's state |
| Colorizers.NoLineNeverFails | src/gcode.ts:341-347 | without a line number, which `gcode.ts` never passes, a colorizer never fails and never moves its cursor |
| Chunks.Chunked | src/parser.ts:259-274 | adding `n` points one at a time makes `(n - 1) / P + 1` chunks, or none |
| Chunks.ChunkedLayout | src/parser.ts:259-274 | chunk `i` holds exactly the points from `iP - 1` (0 for the first chunk) up to `(i+1)P` or the end; only the last chunk is unfinished; no chunk is sliced |
| Chunks.ChunkAt | src/parser.ts:259-274 | the same layout, for one chunk `i` |
| Chunks.ChunkedStep | src/parser.ts:260-273 | the chunking of two or more points grows out of the chunking of all but the last point: either a new chunk is opened or the last chunk gains the point |
| Chunks.ChunksAreContinuous | src/parser.ts:266-268 | each chunk after the first starts with the last point of the chunk before it |
| Chunks.PointsCountOfChunked | src/parser.ts:473-483 | `pointsCount()` counts each added point exactly once |
| Chunks.CountIgnoresFlags | src/parser.ts:473-483 | `pointsCount()` depends only on how many points each chunk holds |
| Chunks.LegacyCountOfChunked | src/gcode.ts:494-496 | the plain sum of `gcode.ts` counts the copied first point of every later chunk a second time |
| Chunks.SumsDiffer | src/gcode.ts:494-496 | the two counts differ by the number of chunks less one |
| Chunks.FourteenPoints | src/parser.ts:259-274 | fourteen points at four per chunk give chunks of 4, 5, 5 and 3 points |
| Chunks.AddLine | src/parser.ts:259-274 | `addLine` keeps the chunks, the current chunk, the last point added and the count equal to the chunking of all points added so far |
| Chunks.ChunkedAppend | src/parser.ts:260-273 | how the chunking of one more point is made from the chunking before it, case by case |
| Chunks.FinishLast | src/parser.ts:387-389 | finishing the current chunk keeps every chunk's points and sets only the last chunk's flag |
| Chunks.FinishedChunks | src/parser.ts:387-389 | after the last chunk is finished, every chunk is finished, still holds its points, and `pointsCount()` is the number of points added |
| Chunks.CountAfterFinish | src/parser.ts:387-389 | after the finish, `pointsCount()` is the number of points added |
| Slicing.SliceAll | src/parser.ts:412-444 | every chunk gets its own window, and nothing else about it changes |
| Slicing.EqualEndsSelectNothing | src/parser.ts:413-417 | equal ends give every chunk the window `[0, 0)` |
| Slicing.OutsideAndInside | src/parser.ts:409-441 | chunks before the start chunk or after the end chunk show nothing, and the chunks between them are shown whole |
| Slicing.ReversedSelectsNothing | src/parser.ts:409-441 | a reversed range shows nothing in any chunk |
| Slicing.SliceSelectsRange | src/parser.ts:409-444 | for `0 <= s < e <= n`, the windows show exactly the global points `[s, e)`, except that a single first chunk shows up to `e + 1` |
| Slicing.CeilOfEnd | src/parser.ts:410 | `ceil(end / P) - 1` is the chunk of the point before `end` |
| Slicing.InsideRange | src/parser.ts:422-436 | where a selected chunk's window starts and ends, as global point numbers |
| Slicing.SliceEverything | src/parser.ts:403 | `slice(0, n)` shows every chunk whole, and a model in a single chunk gets a window one point longer |
| Slicing.SliceFromFour | src/parser.ts:409-441 | for 14 points at four per chunk, `slice(4, 14)` gives the windows `[0,0)`, `[1,5)`, `[0,5)` and `[0,3)` |
| Interpreter.ParseValueDefaults | src/parser.ts:25-31 | an absent or empty word, or one whose payload is not a number, gives the default |
| Interpreter.ParseNumberOfWord | src/parser.ts:29 | a word's value is `parseFloat` of what follows its letter |
| Interpreter.ParseValueOfDigits | src/parser.ts:25-31 | a letter followed by digits gives their value |
| Interpreter.ParseValueOfNegatedDigits | src/parser.ts:25-31 | a letter, a minus sign and digits give their opposite |
| Interpreter.GetValueSpec | src/parser.ts:239-251 | an absent word keeps the last value; a readable one gives its value, plus the last value in relative mode |
| Interpreter.Words | src/parser.ts:303-304 | every line has at least one word, its command, which may be empty |
| Interpreter.RunLinesNext | src/parser.ts:285-371 | the run over `k + 1` lines is the run over `k` lines followed by line `k`, unless it has already failed |
| Interpreter.MoveUpdates | src/parser.ts:305-342 | a move that does not fail sets the position, E and F, and leaves the layers alone |
| Interpreter.MoveInPlace | src/parser.ts:313-315 | a move of length zero does not fail, emits no point, and changes nothing but the machine |
| Interpreter.MoveEmits | src/parser.ts:313-337 | a move of non-zero length that does not fail emits one point at the old position. A non-extruding move gets `travelWidth` and leaves the box alone. An extruding move gets the rate `(e - lastE) / length * 10` and widens the box to the target |
| Interpreter.RateSign | src/parser.ts:316-319 | over a positive length, the rate has the sign of the extruded amount |
| Interpreter.MoveFails | src/parser.ts:313-335 | a move fails only by a colour failure on a move of non-zero length; it keeps points, machine and layers; the box is still widened when the move extrudes into an existing box |
| Interpreter.CommandSpec | src/parser.ts:343-368 | `G92` sets the position and E from the words that are present, `M104`/`M109` set the temperature, `G90`/`G91`/`M82`/`M83` set the relative flags, `G20` fails, any other command does nothing, and none emits a point |
| Interpreter.LayerMarkerSpec | src/parser.ts:288-301 | a marker ends the current layer at the last point emitted, opens layer `k` at the next one, and leaves every other layer alone |
| Interpreter.CloseAndOpenKeys | src/parser.ts:290-298 | opening layer `k` adds the key `k` and no other |
| Interpreter.StepKeys | src/parser.ts:285-371 | a line that does not fail adds to the layer keys the index it declares, if any, and nothing else |
| Interpreter.LayerKeys | src/parser.ts:288-301 | a run that has not failed holds a layer entry for exactly the indices that its markers declare |
| Interpreter.KeysAfterLine | src/parser.ts:288-301 | reading one more line keeps the layer keys equal to the indices declared so far |
| Interpreter.LayerMarkerExample | src/parser.ts:288-301 | `;LAYER:12` opens layer 12 at the current point count |
| Interpreter.SplitMarkerExample | src/parser.ts:289 | the index of `;LAYER:12` is read from the text after the first `:` |
| Interpreter.TwelveExample | src/parser.ts:289 | `parseInt("12")` is 12 |
| Interpreter.StepPreserves | src/parser.ts:285-371 | each line keeps the run consistent, only appends to the points, at most one point, and leaves the box alone when it adds none |
| Interpreter.MarkerPreserves | src/parser.ts:288-301 | a marker keeps the run consistent |
| Interpreter.MovePreserves | src/parser.ts:305-342 | a move keeps the run consistent |
| Interpreter.LayerStartBound | src/parser.ts:298 | every layer starts at or before the current point count |
| Interpreter.RunPreserves | src/parser.ts:285-371 | over any number of lines the run stays consistent, a shorter run's points are a prefix of a longer run's, and `n` lines add at most `n` points |
| Interpreter.ErrorSticks | src/parser.ts:247-249 | after the first error, later lines change nothing |
| Interpreter.BlankLine | src/parser.ts:253 | an empty line does nothing, and it is the only line of an empty text |
| Interpreter.FinalLayersSpec | src/parser.ts:391-392 | the layer table is missing exactly when no layer was declared; otherwise it is the cached layers sorted by start, a permutation of them, and the last entry ends at `pointsCount - 1` |
| Interpreter.CloseLast | src/parser.ts:392 | setting the last entry's end keeps the table sorted and changes nothing else |
| Parser.LayerTableOfMarkers | src/parser.ts:492-495 | after a parse that does not fail, the layer table has one entry per distinct index declared by the markers, so `layerCount()` is that number less one |
| Parser.GCodeParser.LayerCount | src/parser.ts:492-495 | `layerCount()` is one less than the number of layer entries (see `Parser.LayerTableOfMarkers` for what those are) |
| Parser.SliceToLastLayer | src/parser.ts:456-458 | `sliceLayer(a, last)` ends at `pointsCount()` and starts where layer `a` of the sorted table starts |
| Parser.MissingEndLayer | src/parser.ts:457 | a layer past the end of the table gives a `NaN` end, which shows each chunk from the one holding the start through to its end |
| Parser.Generate | src/parser.ts:276-385 | the generator loop and `addLine` give the interpreter's run: the same error, colorizer state and points, the box of the last yielded point, and chunks equal to the chunking of the run's points |
| Parser.GenerateLine | src/parser.ts:285-371 | one line of `lineGenerator` advances the run by that line; a yielded point carries the box as widened so far |
| Parser.GenerateMove | src/parser.ts:305-342 | a move line advances the generator exactly as the interpreter's move advances the run, and yields the point that move emits |
| Parser.FinishRun | src/parser.ts:387-392 | the chunks are finished, and the layer table is the sorted cache closed at `pointsCount - 1`, missing exactly when the cache is empty |
| Parser.GCodeParser.constructor | src/parser.ts:149-154 | the text is kept, the defaults are set (`travelWidth` 0.01, a `SimpleColorizer`, 120000 points per chunk), and the temperature and speed extremes are those of the whole text |
| Parser.GCodeParser.CalcMinMaxMetadata | src/parser.ts:178-213 | the extremes are the old ones extended by every temperature and feed-rate reading of the text; nothing else changes |
| Parser.GCodeParser.MetadataLines | src/parser.ts:179 | the loop extends the extremes by every line in turn |
| Parser.GCodeParser.MetadataLine | src/parser.ts:179-212 | one line extends the extremes by its reading, if it has one |
| Parser.GCodeParser.Parse | src/parser.ts:218-393 | the text is dropped; the box, chunks and colorizer are those of the interpreter's run; an error leaves the layer table as it was; no layer gives a failure and an empty table; otherwise the table is the final sorted layers; a second parse only finishes the first chunk again |
| Parser.GCodeParser.Slice | src/parser.ts:403-445 | a negative bound fails and changes nothing; otherwise every chunk gets its window for `[start, end)`, with defaults 0 and `pointsCount()` |
| Parser.GCodeParser.SliceLayer | src/parser.ts:456-458 | `slice` from the start of layer `start` to one past the end of layer `end`, with the falsy and missing-entry cases |
| Legacy.OrAgainstDefault | src/gcode.ts:185-190 | the older `parseValue` fails on the same words as the newer one, and `parseValue(w) \|\| d` differs from the newer `parseValue(w, d)` exactly on a word whose value is zero |
| Legacy.ZeroWordIgnored | src/gcode.ts:397 | `G92 E0` resets E in `parser.ts` but not in `gcode.ts` |
| Legacy.AlwaysAbsolute | src/gcode.ts:258-270 | `gcode.ts` reads every axis as `parser.ts` does in absolute mode |
| Legacy.MoveUpdates | src/gcode.ts:318-386 | a move sets the position, E and F, whatever it emits |
| Legacy.MoveInPlace | src/gcode.ts:330 | a move of length zero emits nothing and changes nothing but the machine |
| Legacy.MoveEmits | src/gcode.ts:330-353 | a move of non-zero length emits one point, at the old position |
| Legacy.MoveRadius | src/gcode.ts:331-338 | no extrusion gives `travelWidth` and leaves the box alone; any other extrusion, negative included, gives the rate `(e - lastE) / length * 10` and widens the box to the target |
| Legacy.ChangeLayerSpec | src/gcode.ts:356-379 | a change of height ends the layer being left at the point just added and starts the layer entered after it; every other layer is untouched |
| Legacy.MoveLayers | src/gcode.ts:330-379 | a move of non-zero length that changes Z updates the cache by `ChangeLayer` with a count that already includes the point just added; every other move leaves the cache alone |
| Legacy.ChangeLayerKeys | src/gcode.ts:376-377 | a change of height adds the heights left and entered to the cache's keys, and no other key |
| Legacy.MoveKeys | src/gcode.ts:318-386 | a move adds to the keys exactly the two heights of a non-zero-length move that changes Z, and nothing otherwise |
| Legacy.StepKeys | src/gcode.ts:308-407 | a line adds to the keys exactly the heights it leaves and enters |
| Legacy.LayerKeys | src/gcode.ts:308-407 | over any number of lines, the keys are the initial ones plus exactly the heights left or entered by moves of non-zero length that change Z |
| Legacy.KeysAfterLine | src/gcode.ts:308-407 | one more line keeps the keys equal to the heights changed so far |
| Legacy.CommandSpec | src/gcode.ts:389-404 | `G92` sets the position and E from the words that are present and non-zero, `M104`/`M109` set the temperature, and every other command changes nothing, `G90`/`G91`/`M82`/`M83`/`G20` included |
| Legacy.StepPreserves | src/gcode.ts:308-407 | each line keeps the layer keys unique and appends at most one point |
| Legacy.StepPreservesMove | src/gcode.ts:318-386 | a move keeps the layer keys unique and appends at most one point |
| Legacy.RunPreserves | src/gcode.ts:308-407 | over any number of lines, the layer keys stay unique and the points only grow, at most one per line |
| Legacy.BlankLine | src/gcode.ts:308-316 | an empty line does nothing, and it is the only line of an empty text |
| GCode.DrawSegment | src/gcode.ts:331-353 | the point sits at the old position; the radius is `travelWidth` for a zero rate and the rate otherwise; the colour is what the colorizer gives without a line number; the box widens unless the rate is zero |
| GCode.RenderMove | src/gcode.ts:318-386 | a move line advances the older interpreter's run exactly as its move does, and routes the point into the chunks |
| GCode.RenderLine | src/gcode.ts:308-407 | one line advances the run by that line; only a move reaches `addLine` |
| GCode.Draw | src/gcode.ts:278-407 | the loop leaves the run over all lines, with chunks equal to the chunking of its points at 120000 per chunk |
| GCode.Finish | src/gcode.ts:410-415 | no point fails at `finish()`; otherwise the last chunk is finished and the layer index is the cache sorted by start |
| GCode.RenderedCount | src/gcode.ts:494-496 | after a render that adds points, `pointsCount()` is the number of points plus one per extra chunk |
| GCode.LayerIndexSpec | src/gcode.ts:356-415 | the cache's keys are exactly the heights left or entered by moves of non-zero length that change Z, so the layer index has one entry per such height; it is sorted by start and a permutation of the cache |
| GCode.GCodeRenderer.constructor | src/gcode.ts:85-96 | the text is kept, the defaults are set, and the extremes are those of the whole text, with `minSpeed` able to be `NaN` |
| GCode.GCodeRenderer.CalcMinMaxMetadata | src/gcode.ts:195-230 | the extremes are the old ones extended by every reading of the text |
| GCode.GCodeRenderer.MetadataLines | src/gcode.ts:196 | the loop extends the extremes by every line in turn |
| GCode.GCodeRenderer.MetadataLine | src/gcode.ts:196-229 | one line extends the extremes by its reading; a feed rate that is not a number is kept as `NaN` |
| GCode.GCodeRenderer.Render | src/gcode.ts:235-432 | the text is dropped; the box and colorizer are those of the older interpreter's run; no point gives a failure; otherwise the chunks are the finished chunking and the layer index is the sorted cache; a second render only finishes the first chunk again |
| Metadata.ScanSpec | src/parser.ts:193-210 | the minimum is unset exactly when there are no readings and is otherwise one of them; the maximum is the largest of 0 and the readings; every reading lies between them |
| Metadata.Command | src/parser.ts:184 | every line of the metadata pass has at least one word |
| Metadata.CommentLineSkipped | src/parser.ts:180-182 | a line that starts with `;` gives no reading |
| Metadata.LegacyTempAgrees | src/gcode.ts:220 | `parseValue(S) \|\| 0` in `gcode.ts` and `parseValue(S, 0)` in `parser.ts` give the same temperature |
| Metadata.LegacyReadings | src/gcode.ts:201-207 | `gcode.ts` reads the same feed rates as `parser.ts`, plus the `NaN`s, and never `undefined` |
| Metadata.ReadingAgrees | src/gcode.ts:204 | the numbers read from one `F` word agree |
| Metadata.LegacyScanAgrees | src/gcode.ts:209-214 | `maxSpeed` ignores the `NaN`s; without a `NaN`, `gcode.ts` finds the same `minSpeed` as `parser.ts` |
| Metadata.FirstNaNSticks | src/gcode.ts:212-214 | a first reading of `NaN` leaves `minSpeed` at `NaN` for good |
| Metadata.TempScanIsFold | src/parser.ts:179-212 | reading line by line gives the extremes of all temperature readings of those lines |
| Metadata.SpeedScanIsFold | src/parser.ts:179-212 | reading line by line gives the extremes of all feed-rate readings of those lines |
| Metadata.TempScanCoversAll | src/parser.ts:179-212 | reading every line gives the extremes of all temperature readings |
| Metadata.SpeedScanCoversAll | src/parser.ts:179-212 | reading every line gives the extremes of all feed-rate readings |
| Metadata.LegacyScanIsFold | src/gcode.ts:196-229 | reading line by line gives the older extremes of all the older readings of those lines |
| Metadata.LegacyScanCoversAll | src/gcode.ts:196-229 | reading every line gives the older extremes of all the older feed-rate readings |
| Metadata.TempReadingStep | src/parser.ts:199-210 | what one line adds to the temperature readings |
| Metadata.SpeedReadingStep | src/parser.ts:185-198 | what one line adds to the feed-rate readings |
| Metadata.LegacyReadingStep | src/gcode.ts:201-214 | what one line adds to the older feed-rate readings |

## Left out

- Numbers.ParseFloat: reads plain decimal literals only, with an optional sign, digits and an optional fraction. There are no exponents and no `Infinity`, and only space, tab, newline and carriage return count as leading white space. With this grammar every word that is read gives a finite number, so the `NaN` throw in `getValue` (src/parser.ts:247-249) can never fire in the model.
- Numbers.ParseInt: uses the same white-space set and unbounded integers. JavaScript's loss of precision on very long digit strings is not modelled.
- Legacy.GetValue: a word with no readable number after its letter gives `last` instead of `NaN`. In src/gcode.ts:258-270, `G1 Xabc` makes `x` `NaN` and emits a point with a `NaN` radius. `Legacy.AlwaysAbsolute` holds only because of this simplification.
- Parser.GCodeParser.Valid, Parser.GCodeParser.Slice, Parser.GCodeParser.SliceLayer, Chunks.Chunked: these require `pointsPerObject > 0`. The source accepts 0, where `% 0` and `/ 0` give `NaN`, so there is one chunk and the windows are `NaN`.
- The async `delay(0)` every 200 lines of `parse` (src/parser.ts:375, 382-384) is left out: it only yields to the event loop.
- three.js is left out: meshes, materials, the scene, camera, lights, `fitCamera`, `resize`, `element`, `dispose`, `getGeometries` and `getMinMaxValues`. The `LineTubeGeometry` mesh building is also left out: a chunk keeps only its points, its finished flag and its last window.
- The `Lut` colorizers (src/SegmentColorizer.ts:62-94) are left out: they need floating-point colour interpolation. `Colorizers.Colorizer` has only the `Simple` and `ByLine` cases.
- Numbers are `real`, not IEEE doubles: rounding, overflow and `-0` are not modelled.
- Interpreter.IsLength stands in for the square root of `getLength` and for `LineCurve3.getLength`: only non-negativity and zero-exactly-for-equal-points are used.
- Clearing each line after use (`lines[i] = undefined`) only frees memory; it is left out, and so is `console.log`.
- The `slice`/`sliceLayer` of `gcode.ts` only pass windows to the meshes, which are not modelled.
- GCode.Draw and GCode.RenderLine pass the state of `render` as parameters instead of closure variables. The `gcode.ts` bounding box (`this.calcMinMax`, src/gcode.ts:156-183) is modelled by `Values.CalcMinMax` on a local box that is written to the object after the loop. This is observable only when `render` is interrupted, which the model cannot do.
- Parser.Generated and GCode.Drawn are named prefixes of the two interpreters' runs over the text's lines. They add nothing beyond those runs.
