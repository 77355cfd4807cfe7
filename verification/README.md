# SlopDesk: the model and its proofs

A Dafny model of the parts of SlopDesk whose correctness is an argument rather than a glance: the SVG
path reader behind the vector artwork, the cadence of the thinking mark, the inspector's frame stream,
three concurrent hand-offs, the deal of project colours, and the marshalling of messages and titles.

- `Geometry`, `Analysis`, `Algebra`: points and segments; `sqrt`, `sin`, `cos`, `tan`, `atan2` and pi as a value
  `Functions` whose lawfulness is a predicate (`Functions.Lawful`) made of facts true of the real functions; small
  facts of real arithmetic.
- `Arc`, `ArcLaws`, `ArcCubics`, `ArcDrawn`: the endpoint form of an elliptical arc (SVG 1.1, sections F.6.5 and F.6.6) and the
  cubics drawn for it.
- `PathScanner`, `PathCommands`, `PathReader`, `PathJams`: the byte scanner, what each command draws, the reading
  loop, and exactly when that loop ends.
- `PathRuns`, `PathMeaning`: what every run of the loop keeps, and what each command, letter and byte stands for.
- `PathText`, `PathForms`, `PathTextForms`, `PathDecimals`, `PathTaken`: path data as it may be written (SVG 1.1, section 8.3.9), the two letter
  cases, translation, which commands can be written, and what any data says.
- `Cadence`, `CadenceLaws`, `CadencePosition`, `CadenceForm`, `Ink`: the wandering tempo, the position it integrates to, and the
  ink of the gliding gap.
- `Bytes`, `Fields`, `InspectorFrames`, `InspectorStream`, `InspectorLaws`: length-prefixed fields, and the frame decoder that grows
  its buffer and skips what it cannot read.
- `Broadcast`, `BroadcastHub`, `Wakeups`, `ByteChannel`: the multicast hub, the coalesced output wakeup and the
  receive loop, as step relations over every interleaving; the hub's methods besides, as one caller sees them.
- `IdentityDeal`, `ArenaText`, `WireMessages`, `NerdRuns`: the colour deal, the text arena, the flat message record,
  and the split of a title into symbol runs.

`Wrappers` holds `Option`. `dafny verify dfyconfig.toml` checks the whole project.

Where the code and its own documentation part, the model follows the code:

- The wander's comment says the tempo reaches both ends of its band (SlateStatusMark.swift:264-267).
  `CadenceLaws.RateReachesEnds` gives the exact condition, and `CadencePosition.TempoStrictlyInside` shows that the
  shipped swells never meet it: the long swell and the middle one are never at one end together.
- The deal's comment says an insertion can re-deal the project below it and rarely one further
  (SlateDesign.swift:993-996). `IdentityDeal.InsertionCascades` has it re-deal any number, and
  `IdentityDeal.ChangeReaches` says from the hashes exactly how far a change goes.
- The path reader's comments say that anything unrecognised is skipped rather than trapped, and that it never spins
  (SlateVectorArt.swift:14-18, 150-151). A number straight after a close is repeated as the close, which reads
  nothing, so the loop does not end: `PathReader.CloseThenNumberNeverEnds` on the data z1, and
  `PathReader.EndsExactlyUnlessJammed` for all data.
- The frame door's comment says one call always suffices and that too small a buffer costs the frame
  (rust/slopdesk-ffi/src/inspector.rs:241-250). The code asks for a larger buffer and takes nothing, as
  `InspectorStream.DecoderNext` does.

## Model

| member | source | states |
|---|---|---|
| Arc.DenominatorPositive | Sources/SlopDeskSlate/SlateVectorArt.swift:196-224 | past the degenerate guard the centre formula never divides by zero |
| Arc.Fit | Sources/SlopDeskSlate/SlateVectorArt.swift:201-218 | past the guard the radii used are positive and the half chord they are fitted to is not zero |
| ArcLaws.FitFits | Sources/SlopDeskSlate/SlateVectorArt.swift:212-218 | after the correction of section F.6.6 of SVG 1.1 the chord fits inside the ellipse, and spans it exactly when the radii asked for were too small or just enough |
| ArcLaws.CoefficientLaw | Sources/SlopDeskSlate/SlateVectorArt.swift:220-226 | the coefficient solves the centre's equation, with the sign that section F.6.5 of SVG 1.1 gives the two flags |
| ArcLaws.UnitEndsLaw | Sources/SlopDeskSlate/SlateVectorArt.swift:227-233 | seen from the centre, both ends lie on the unit circle, apart; their cross product is positive exactly when the flags differ, and zero exactly for the half turn |
| ArcLaws.ArcMeetsItsEnds | Sources/SlopDeskSlate/SlateVectorArt.swift:196-236 | for every start, end, radii and rotation past the guard, the rotated ellipse passes through the start at the start angle and through the end at start angle plus sweep |
| ArcLaws.FlagsChooseTheSweep | Sources/SlopDeskSlate/SlateVectorArt.swift:224-236 | the sweep has the sweep flag's sign, is within one turn, and exceeds a half turn exactly when the large-arc flag is set, but for the half turn itself |
| ArcCubics.SliceCount | Sources/SlopDeskSlate/SlateVectorArt.swift:238-240 | a sweep of less than a turn is cut into one to four slices of at most a quarter turn |
| ArcCubics.CubicMeetsEllipse | Sources/SlopDeskSlate/SlateVectorArt.swift:242-254 | the halfway point of one slice's cubic lies on the ellipse exactly, at the slice's middle angle |
| ArcCubics.CubicHugsEllipse | Sources/SlopDeskSlate/SlateVectorArt.swift:182-184 | every point of one slice's cubic lies on the ellipse or outside it by at most 0.03 per cent, never inside |
| ArcCubics.CubicsFollow | Sources/SlopDeskSlate/SlateVectorArt.swift:243-256 | each cubic begins where the last ended, in the direction it ended in, from the first angle's point to the last one's |
| ArcCubics.ArcIsSmoothCubics | Sources/SlopDeskSlate/SlateVectorArt.swift:192-257 | a drawn arc is one to four cubics of at most a quarter turn each, from its start to its end, smooth at every joint, on the ellipse at the joints and halfway between them, and within 0.03 per cent of it everywhere |
| ArcDrawn.FitSpans | Sources/SlopDeskSlate/SlateVectorArt.swift:201-218 | the axes are turned by the rotation in degrees; the radii are the ones asked for when the turned half chord fits them, and otherwise larger in the same proportion with the half chord exactly on them |
| ArcDrawn.ArcIsDrawn | Sources/SlopDeskSlate/SlateVectorArt.swift:192-257 | from the five arguments alone: the ellipse of the radii turned by the rotation in degrees, grown only where too small and then just enough; start and end on it; the sweep as both flags say; and the fewest equal cubics of at most a quarter turn, smooth, on the ellipse at their ends and halfway, close to it elsewhere |
| ArcDrawn.DegenerateArcs | Sources/SlopDeskSlate/SlateVectorArt.swift:196-200 | no arc from a point to itself, and a straight line where a radius is zero |
| ArcDrawn.RightAngles | Sources/SlopDeskSlate/SlateVectorArt.swift:203-205 | rotations of 0, 90 and -90 degrees have the cosines and sines of those angles |
| Arc.AppendArc | Sources/SlopDeskSlate/SlateVectorArt.swift:192-257 | the in-place method appends exactly the specified segments: nothing, a line for a degenerate radius, or the cubics |
| Arc.AppendCubics | Sources/SlopDeskSlate/SlateVectorArt.swift:238-256 | the loop over the advancing angle appends the cubics of the specification, slice by slice |
| PathScanner.Scanner.Number | Sources/SlopDeskSlate/SlateVectorArt.swift:334-362 | a number read takes the longest numeral at the cursor and yields what it denotes, zero for a malformed one, passing one byte when there is none; the cursor may pass the end without reading there |
| PathScanner.Scanner.NumberNext | Sources/SlopDeskSlate/SlateVectorArt.swift:325-330 | whether a number comes next, past any separators |
| PathScanner.Scanner.Command | Sources/SlopDeskSlate/SlateVectorArt.swift:313-322 | a letter is taken off, or nothing but separators is |
| PathScanner.Scanner.Flag | Sources/SlopDeskSlate/SlateVectorArt.swift:365-371 | a flag is one byte, set when it is a one |
| PathScanner.Scanner.SkipExponent | Sources/SlopDeskSlate/SlateVectorArt.swift:343-353 | a mark that no digits follow is given back |
| PathReader.Obey | Sources/SlopDeskSlate/SlateVectorArt.swift:61-154 | one command read and drawn in place leaves the scanner, path and pen the specification gives |
| PathReader.TakeTurn | Sources/SlopDeskSlate/SlateVectorArt.swift:42-155 | one turn of the loop is one turn of the specification, including the letter left in force |
| PathReader.ReadPath | Sources/SlopDeskSlate/SlateVectorArt.swift:28-157 | the imperative reader returns the specified path for all data it comes to the end of |
| PathReader.SkipNumbers | Sources/SlopDeskSlate/SlateVectorArt.swift:150-153 | an unknown letter drags every trailing number along |
| PathReader.TurnAdvances | Sources/SlopDeskSlate/SlateVectorArt.swift:42-56 | while no number is still to come under a close, every turn shortens what is left to read |
| PathReader.RepeatedCloseReadsNothing | Sources/SlopDeskSlate/SlateVectorArt.swift:52-53 | a close in force before a number takes off separators at most, draws another close, and leaves the same turn to come again |
| PathReader.JammedNeverEnds | Sources/SlopDeskSlate/SlateVectorArt.swift:42-155 | where a number will come under a close, no number of turns ends the loop |
| PathReader.EndsExactlyUnlessJammed | Sources/SlopDeskSlate/SlateVectorArt.swift:42-155 | the loop ends exactly when it never comes to a number while a close is in force, a condition read off the bytes alone |
| PathReader.CloseThenNumberNeverEnds | Sources/SlopDeskSlate/SlateVectorArt.swift:150-151 | the two bytes z1 are data that the loop never comes to the end of |
| PathJams.JamNeedsNumberAfterClose | Sources/SlopDeskSlate/SlateVectorArt.swift:52-53 | data that never ends has a number standing directly after a close |
| PathRuns.DrawTraces | Sources/SlopDeskSlate/SlateVectorArt.swift:58-148 | the path a command draws, read off its segments, ends where the command leaves the running point and the subpath's start |
| PathRuns.DataReadInStep | Sources/SlopDeskSlate/SlateVectorArt.swift:31-157 | on any bytes, after any number of turns, the path drawn so far ends at the running point and its open subpath starts at the point a close goes back to |
| PathRuns.SmoothGoesOn | Sources/SlopDeskSlate/SlateVectorArt.swift:33-37 | a smooth curve mirrors the control point of a curve of its own kind through the joint, and after any other command starts from the point itself |
| PathMeaning.MoveDraws | Sources/SlopDeskSlate/SlateVectorArt.swift:62-68 | a moveto lands on its pair of coordinates from the running point or the origin, and opens a subpath there |
| PathMeaning.LineDraws | Sources/SlopDeskSlate/SlateVectorArt.swift:70-89 | a line lands on its pair likewise; a horizontal one keeps its height and a vertical one its side |
| PathMeaning.CubicDraws | Sources/SlopDeskSlate/SlateVectorArt.swift:91-98 | a cubic's curve leaves the running point towards its first pair and arrives at its last from its second, in Bernstein form, and keeps the second to be mirrored |
| PathMeaning.SmoothCubicDraws | Sources/SlopDeskSlate/SlateVectorArt.swift:100-107 | a smooth cubic after a cubic mirrors that second pair through the joint |
| PathMeaning.SmoothCubicAlone | Sources/SlopDeskSlate/SlateVectorArt.swift:172-178 | with nothing to mirror it leaves from the running point itself |
| PathMeaning.QuadDraws | Sources/SlopDeskSlate/SlateVectorArt.swift:109-115 | a quadratic's control is its first pair and its end the second |
| PathMeaning.SmoothQuadDraws | Sources/SlopDeskSlate/SlateVectorArt.swift:117-123 | a smooth quadratic mirrors the last control, mirrored ones included, or takes the running point |
| PathMeaning.EllipticDraws | Sources/SlopDeskSlate/SlateVectorArt.swift:125-141 | an arc goes from the running point to its last pair and leaves nothing to mirror |
| PathMeaning.CloseDraws | Sources/SlopDeskSlate/SlateVectorArt.swift:143-148 | a close returns to the subpath's start |
| PathMeaning.LettersKnown | Sources/SlopDeskSlate/SlateVectorArt.swift:279-300 | the twenty letters of the grammar, and the two that a moveto goes on as |
| PathMeaning.LinesSay | Sources/SlopDeskSlate/SlateVectorArt.swift:61-89 | what M, L, H, V and Z in either case make of the numbers after them |
| PathMeaning.CurvesSay | Sources/SlopDeskSlate/SlateVectorArt.swift:91-123 | what C, S, Q and T in either case make of the numbers after them, in order |
| PathMeaning.ArcSays | Sources/SlopDeskSlate/SlateVectorArt.swift:125-134 | an arc's radii, rotation, large-arc flag, sweep flag and end, in order |
| PathMeaning.BytesMean | Sources/SlopDeskSlate/SlateVectorArt.swift:313-384 | which bytes are digits, signs, marks, separators and letters |
| PathMeaning.TensMean | Sources/SlopDeskSlate/SlateVectorArt.swift:358-375 | digits count in tens, and an exponent moves them by tens |
| PathMeaning.NumeralLooks | Sources/SlopDeskSlate/SlateVectorArt.swift:336-353 | a numeral is its sign, digits, point, digits, mark, sign and digits, in that order |
| PathMeaning.NumeralMeans | Sources/SlopDeskSlate/SlateVectorArt.swift:358-361 | a numeral's sign, point and exponent give it its value, in tens |
| PathMeaning.NumberIsThere | Sources/SlopDeskSlate/SlateVectorArt.swift:334-362 | whatever bytes come, a number read is the value of a numeral that is there, or zero |
| PathMeaning.StrayByteIsZero | Sources/SlopDeskSlate/SlateVectorArt.swift:354-357 | a byte no number begins with is passed over as zero |
| PathMeaning.TurnStops | Sources/SlopDeskSlate/SlateVectorArt.swift:43-56 | the loop ends just where neither a letter comes next nor a number with a letter in force |
| PathMeaning.UnknownLetterPasses | Sources/SlopDeskSlate/SlateVectorArt.swift:150-153 | an unknown letter passes over the numbers after it and nothing more, draws nothing and leaves nothing in force |
| PathText.NumeralDenotes | Sources/SlopDeskSlate/SlateVectorArt.swift:358-361 | a well-formed numeral is read as its digits scaled by its exponent less its decimal places |
| PathText.NumberBack | Sources/SlopDeskSlate/SlateVectorArt.swift:334-362 | a numeral packed against whatever cannot extend it reads back as its value, leaving the rest |
| PathText.FlagBack | Sources/SlopDeskSlate/SlateVectorArt.swift:129-133 | a one-character flag reads back with the next number packed straight against it |
| PathText.CommandBack | Sources/SlopDeskSlate/SlateVectorArt.swift:61-148 | every command's arguments read back, whatever the spacing |
| PathText.PhraseTurn | Sources/SlopDeskSlate/SlateVectorArt.swift:42-155 | one written command, with its letter shown or left out, is one turn of the reader |
| PathText.WrittenPathReadsBack | Sources/SlopDeskSlate/SlateVectorArt.swift:28-157 | any command list written in any allowed spacing, with any letters left out that may be, and a moveto going on as a lineto, renders to exactly the segments the commands denote |
| PathText.SpacedOutIsWritten | Sources/SlopDeskSlate/SlateVectorArt.swift:303-306 | showing every letter and separating every argument is always an allowed way of writing |
| PathTaken.DrawsWhatItTakes | Sources/SlopDeskSlate/SlateVectorArt.swift:28-157 | whatever bytes the reader finishes, it draws the commands its turns take off them, one after another |
| PathTaken.TextIsTaken | Sources/SlopDeskSlate/SlateVectorArt.swift:28-157 | the commands taken off any written text are the ones it was written from |
| PathTaken.EveryReadingHasText | Sources/SlopDeskSlate/SlateVectorArt.swift:28-157 | whatever bytes the reader finishes, well formed or not, a well-formed text with the commands taken off them draws the same path |
| PathForms.RecasedDrawsTheSame | Sources/SlopDeskSlate/SlateVectorArt.swift:58-148 | a command put in the other letter case against the running point draws the same and leaves the same pen |
| PathForms.CasesDrawTheSame | Sources/SlopDeskSlate/SlateVectorArt.swift:58-148 | a whole list with its letter cases chosen at will draws the same path, smooth curves and closes included |
| PathForms.ArcMoves | Sources/SlopDeskSlate/SlateVectorArt.swift:192-257 | an arc moved with both its ends is the same arc moved |
| PathForms.PathMoves | Sources/SlopDeskSlate/SlateVectorArt.swift:58-148 | moving a path's first moveto and its other absolute coordinates moves the whole path; an all-relative remainder needs no change |
| PathTextForms.RecasedTextReadsTheSame | Sources/SlopDeskSlate/SlateVectorArt.swift:28-157 | data whose commands are another text's, recased, is read as that text's path |
| PathDecimals.EveryTextHasRecasings | Sources/SlopDeskSlate/SlateVectorArt.swift:58-148 | whatever letter cases are chosen, any written data can be rewritten in them, and is read as the same path |
| PathDecimals.EveryRelativeTextMoves | Sources/SlopDeskSlate/SlateVectorArt.swift:58-148 | data that is relative after its first moveto can be rewritten with that moveto moved by any decimals, and is read as the moved path |
| PathDecimals.TextOfIs | Sources/SlopDeskSlate/SlateVectorArt.swift:28-157 | every list of commands with decimal coordinates has a text that is read as it |
| PathTextForms.RelativeTextMoves | Sources/SlopDeskSlate/SlateVectorArt.swift:28-157 | relative path data under a moved first moveto is read as the moved path |
| Cadence.TurnIsFraction | Sources/SlopDeskSlate/SlateStatusMark.swift:474-478 | the turn of a time is its fraction in periods on both sides of the epoch, though the remainder truncates |
| Cadence.Phase | Sources/SlopDeskSlate/SlateStatusMark.swift:458-472 | the loop's result is the fractional part, at least zero and below one, of an unwrapped lap count |
| CadenceLaws.OddPeak | Sources/SlopDeskSlate/SlateStatusMark.swift:229-232 | three odd harmonics together stay within 14/15 and reach it exactly where the fundamental is at half height |
| CadenceLaws.OddHarmonics | Sources/SlopDeskSlate/SlateStatusMark.swift:229-236 | the three sines add up to one polynomial in the fundamental's sine |
| CadenceLaws.HarmonicFollows | Sources/SlopDeskSlate/SlateStatusMark.swift:249-261 | a harmonic's reduced period and turn put it at a whole multiple of the fundamental's angle |
| CadenceLaws.SwellsAddUp | Sources/SlopDeskSlate/SlateStatusMark.swift:251-261 | the sines a declared swell expands into add up to its share times one shape |
| CadenceLaws.RateInBand | Sources/SlopDeskSlate/SlateStatusMark.swift:439-445 | for any declared swells whose shares sum to one, the tempo stays within its band at every instant and seed |
| CadenceLaws.RateReachesEnds | Sources/SlopDeskSlate/SlateStatusMark.swift:264-267 | the tempo is at an end of the band exactly when every swell with a share is at that end |
| CadencePosition.TempoStrictlyInside | Sources/SlopDeskSlate/SlateStatusMark.swift:290-297 | the shipped swells are never all at one end, so the tempo keeps strictly inside |
| CadencePosition.LapsFollowRate | Sources/SlopDeskSlate/SlateStatusMark.swift:447-472 | the tempo is the derivative of the lap count: a step's error is at most a constant times its square |
| CadencePosition.WalkInBand | Sources/SlopDeskSlate/SlateStatusMark.swift:434-438 | between any two instants the mark walks at least the slow tempo's laps and at most the quick one's |
| CadencePosition.NeverStallsOrReverses | Sources/SlopDeskSlate/SlateStatusMark.swift:434-472 | the shipped mark's lap count strictly increases, by 5/16 to 15/16 of a lap a second |
| CadenceForm.RateWritten | Sources/SlopDeskSlate/SlateStatusMark.swift:290-297 | the shipped tempo written out: five sines of the clock plus the seed, with their shares and turns |
| CadenceForm.LapsWritten | Sources/SlopDeskSlate/SlateStatusMark.swift:458-470 | the shipped lap count written out: the even pace from the epoch less each sine's integral |
| CadenceForm.OffsetsAdd | Sources/SlopDeskSlate/SlateStatusMark.swift:463-467 | with no swell the laps are the time at the even pace, and swells add up |
| CadenceForm.OffsetOpposite | Sources/SlopDeskSlate/SlateStatusMark.swift:464-467 | half a cycle on, a swell puts the mark as far behind the even pace as it was ahead, so no constant is added |
| CadenceForm.CyclesHide | Sources/SlopDeskSlate/SlateStatusMark.swift:474-478 | taking whole cycles off changes neither sine nor cosine |
| CadenceForm.FractionMeans | Sources/SlopDeskSlate/SlateStatusMark.swift:471-472 | the position drawn is what whole laps leave over |
| CadenceForm.TurnMeans | Sources/SlopDeskSlate/SlateStatusMark.swift:474-478 | a turn is what whole cycles leave over, and zero for a period that is none |
| Ink.LitDot | Sources/SlopDeskSlate/SlateStatusMark.swift:422-428 | the method gives a dot's light from its distance around the cell |
| Ink.GapIs | Sources/SlopDeskSlate/SlateStatusMark.swift:424-425 | that distance is the one to the dot's nearest place on the unrolled cell |
| Ink.DotLit | Sources/SlopDeskSlate/SlateStatusMark.swift:416-428 | a dot is fully out within the hole's half width, fully lit a step further off, and in between by the step |
| Ink.ParkedOnDot | Sources/SlopDeskSlate/SlateStatusMark.swift:411-416 | the shipped hole parked on a dot takes out that dot and no other |
| Ink.InkConserved | Sources/SlopDeskSlate/SlateStatusMark.swift:413-428 | for every hole position the eight dots lose one hole width of ink, exactly when that width is from one dot to seven |
| Ink.InkSteady | Sources/SlopDeskSlate/SlateStatusMark.swift:413-416 | the ink taken out never varies with the hole position exactly for those widths and for the ones that take out nothing or everything |
| InspectorFrames.FramesSplit | rust/slopdesk-inspectord/src/wire.rs:97-130 | frames split back into the payloads they were made of, with the unfinished rest kept |
| InspectorFrames.StreamIsFrames | rust/slopdesk-inspectord/src/wire.rs:218-249 | every stream is the frames of its payloads followed by its rest, so the split is the only one |
| InspectorFrames.SplitLater | Sources/SlopDeskInspector/InspectorChannel.swift:101-130 | splitting what has come and then the rest with what follows is splitting it all |
| InspectorFrames.DesyncStays | Sources/SlopDeskInspector/InspectorChannel.swift:86-92 | after an oversized prefix no later byte brings another frame |
| InspectorFrames.BadFrameCostsItself | Sources/SlopDeskInspector/InspectorChannel.swift:76-84 | taking an unreadable frame out of a stream changes nothing else that is yielded |
| InspectorFrames.WrittenFramesReadBack | Sources/SlopDeskInspector/InspectorWire.swift:21-43 | what the far end frames is what this end yields, and an oversized prefix behind it ends the stream there |
| InspectorFrames.Events | Sources/SlopDeskInspector/InspectorChannel.swift:48-68 | the bodies of the events, in order, without the heartbeats |
| InspectorLaws.PrefixLooks | rust/slopdesk-inspectord/src/wire.rs:295-304 | the prefix is big-endian |
| InspectorLaws.CapIs | rust/slopdesk-inspectord/src/wire.rs:22-27 | a payload may be sixteen mebibytes and no byte more |
| InspectorLaws.PayloadSays | rust/slopdesk-inspectord/src/wire.rs:148-155 | tag one is an event with the rest as its body, tag two a heartbeat, any other tag unknown and no tag truncated |
| InspectorLaws.RefusalNamed | Sources/SlopDeskInspector/InspectorWire.swift:124-131 | the verdict a refusal crosses as names it again |
| InspectorLaws.StreamEnds | Sources/SlopDeskInspector/InspectorChannel.swift:125-130 | frames and a rest: an orderly end is clean, a transport's failure is one, and only an oversized prefix is a desync |
| InspectorLaws.RoomIs | Sources/SlopDeskInspector/InspectorWire.swift:152-188 | the buffer grows to the frame's size or to the floor of 4096, whichever is more |
| InspectorLaws.BodyOf | Sources/SlopDeskInspector/InspectorChannel.swift:56-60 | an event gives its body and a heartbeat nothing |
| InspectorLaws.BodiesJoin | Sources/SlopDeskInspector/InspectorChannel.swift:48-68 | event bodies are passed on in order |
| InspectorStream.FrameSplitter.PeekPayloadLen | rust/slopdesk-inspectord/src/wire.rs:258-284 | what the cursor's prefix says, with nothing taken |
| InspectorStream.FrameSplitter.NextPayload | rust/slopdesk-inspectord/src/wire.rs:218-249 | the next payload whole, taken before it is read; the consumed head stays under the compaction threshold |
| InspectorStream.DecoderNext | rust/slopdesk-ffi/src/inspector.rs:241-310 | the frame lands in the caller's buffer, or the size it needs is told and nothing is taken |
| InspectorStream.AnswerMeans | Sources/SlopDeskInspector/InspectorWire.swift:113-131 | the record read against the buffer says what the payload says, and each verdict names its error |
| InspectorStream.InspectorFrameDecoder.NextMessage | Sources/SlopDeskInspector/InspectorWire.swift:176-200 | the next message of the stream, with the buffer grown at most once, to what the frame needs, and no frame lost |
| InspectorStream.DecodeStream | Sources/SlopDeskInspector/InspectorChannel.swift:93-133 | however the stream is cut into chunks, the messages yielded and the way it finishes are those of a one-shot reading of all its bytes: clean or failed as the transport ended, unless an oversized prefix ended it |
| Fields.EncodingUnambiguous | Sources/SlopDeskInspector/InspectorViewModel.swift:118-132 | two tables of texts have the same bytes exactly when they are the same table |
| Fields.SplitFields | Sources/SlopDeskInspector/InspectorViewModel.swift:119-132 | a blob is cut into the table whose bytes it is, and refused exactly when it is no table's |
| Fields.TableLooks | rust/slopdesk-ffi/src/lib.rs:375-393 | a table in bytes |
| Fields.ReadPrefix | Sources/SlopDeskInspector/InspectorViewModel.swift:123-124 | four bytes shifted in are the big-endian number |
| Fields.WrittenTableReadsBack | rust/slopdesk-ffi/src/lib.rs:375-393 | what is cut out of a table the writer wrote is its own texts, with only one too long for its prefix blanked |
| Bytes.PrefixRoundTrip | rust/slopdesk-inspectord/src/wire.rs:119-121 | a length is read back from its prefix, so no two lengths share one |
| Bytes.PrefixReadBack | rust/slopdesk-inspectord/src/wire.rs:295-304 | every four bytes are the prefix of the length read from them |
| Broadcast.StepKeeps | Sources/SlopDeskClient/EventBroadcaster.swift:42-81 | every step, in any interleaving, keeps the roster, the streams and the yields in flight consistent |
| Broadcast.ExactlyOnce | Sources/SlopDeskClient/EventBroadcaster.swift:62-69 | in every run, once a yield holds no turn for a child of its snapshot, that turn came, and the child has the element exactly once if it was open then and not at all if it had closed |
| Broadcast.NothingBlocks | Sources/SlopDeskClient/EventBroadcaster.swift:66-81 | in every run a yield or a finish under way can visit its next child or end, so every turn comes |
| Broadcast.TurnDecides | Sources/SlopDeskClient/EventBroadcaster.swift:62-69 | whether a child is open at its turn decides for good whether it has the element, whatever steps follow, closing included |
| Broadcast.GivenStays | Sources/SlopDeskClient/EventBroadcaster.swift:23-23 | what a child's stream has accepted it keeps, through closing and after it |
| Broadcast.OnlyItsOwnInOrder | Sources/SlopDeskClient/EventBroadcaster.swift:17-27 | in every run a child has only elements snapshotted after it subscribed, one yielder's in that yielder's order |
| Broadcast.SnapshotIsTheLive | Sources/SlopDeskClient/EventBroadcaster.swift:66-68 | a snapshot holds every child still open, but for those a finish is on its way to |
| Broadcast.IdsNeverReused | Sources/SlopDeskClient/EventBroadcaster.swift:44-49 | no two subscriptions are given one id, so a late termination handler removes only its own child |
| Broadcast.FinishedForEver | Sources/SlopDeskClient/EventBroadcaster.swift:71-81 | once finished the roster is empty whatever follows, and when the finish is through no stream is open |
| Broadcast.ClosedStays | Sources/SlopDeskClient/EventBroadcaster.swift:55-58 | a closed stream takes nothing more |
| Broadcast.TicketsAreCalls | Sources/SlopDeskClient/EventBroadcaster.swift:66-69 | in every run each snapshot's element is the one its call was made with |
| Broadcast.SubscribeMeans | Sources/SlopDeskClient/EventBroadcaster.swift:42-60 | a subscription gives a live child under a new id, or after the finish a closed stream in no roster |
| Broadcast.FinishMeans | Sources/SlopDeskClient/EventBroadcaster.swift:73-81 | a finish closes the roster at once and goes on to every child that was in it |
| Broadcast.CancelMeans | Sources/SlopDeskClient/EventBroadcaster.swift:55-58 | a cancelled child closes alone, and its handler takes out its own id and no other |
| Broadcast.CanBegin | Sources/SlopDeskClient/EventBroadcaster.swift:66-81 | a yield and a finish can always begin, whatever the order of the dictionary's values |
| Broadcast.NoOrderAcrossYielders | Sources/SlopDeskClient/EventBroadcaster.swift:66-69 | a run of two concurrent yielders that two children see in opposite orders |
| BroadcastHub.EventBroadcaster.Subscribe | Sources/SlopDeskClient/EventBroadcaster.swift:42-60 | the locked block is the protocol's, and a child subscribed after the finish is finished and in no roster |
| BroadcastHub.EventBroadcaster.Yield | Sources/SlopDeskClient/EventBroadcaster.swift:66-69 | every child in the roster that still accepts gets the element once and no other stream changes |
| BroadcastHub.EventBroadcaster.Finish | Sources/SlopDeskClient/EventBroadcaster.swift:73-81 | every child in the roster is terminated with what it has, the rest untouched, and the roster is closed |
| BroadcastHub.EventBroadcaster.Leave | Sources/SlopDeskClient/EventBroadcaster.swift:55-58 | the termination handler takes one id out |
| Wakeups.StepKeeps | Sources/SlopDeskClient/SlopDeskClient.swift:278-298 | unread output always has a signal pending, one about to be raised, a consumer on its way, or the stream's end to come |
| Wakeups.IngestedInOrder | Sources/SlopDeskClient/SlopDeskClient.swift:319-327 | in every run what is ingested is the front of what was appended, with the batch in hand and the inbox making up the rest |
| Wakeups.ParkedMeansRead | Sources/SlopDeskClient/SlopDeskClient.swift:300-309 | a consumer parked with no signal and none owed has nothing unread |
| Wakeups.DoneMeansDelivered | Sources/SlopDeskWorkspaceCore/Terminal/TerminalViewModel.swift:2385-2411 | a loop that ran to its end has ingested everything appended before the finish |
| Wakeups.WorkShrinks | Sources/SlopDeskWorkspaceCore/Terminal/TerminalViewModel.swift:2385-2411 | with nothing new coming in only so many steps are left |
| Wakeups.RestMeansDelivered | Sources/SlopDeskClient/SlopDeskClient.swift:300-309 | and when none is left all has been ingested, or the loop is over with all from before its end |
| Wakeups.HistoryKept | Sources/SlopDeskClient/SlopDeskClient.swift:278-298 | in every run what was appended and where the first finish fell among it are the run's own |
| Wakeups.DriverSteps | Sources/SlopDeskClient/SlopDeskClient.swift:285-297 | the driver may always append, finish and cancel, and each append owes one wake |
| Wakeups.ConsumerSteps | Sources/SlopDeskWorkspaceCore/Terminal/TerminalViewModel.swift:2385-2411 | the consumer wakes on the slot alone and takes all there is, and a cancelled loop leaves the tail |
| Wakeups.TailNeedsTheLastTake | Sources/SlopDeskClient/SlopDeskClient.swift:303-309 | a run whose last append has no wake left to announce it |
| ByteChannel.StepKeeps | Sources/SlopDeskNet/NWByteChannel.swift:70-137 | every step, in any order of the tasks, keeps one receive outstanding or one completion on its way, never two |
| ByteChannel.BytesInOrder | Sources/SlopDeskNet/NWByteChannel.swift:114-137 | in every run the consumer sees the front of what arrived, and while the stream is open all that was handled |
| ByteChannel.EndedMeansReleased | Sources/SlopDeskNet/NWByteChannel.swift:51-51 | in every run an ended stream has a cancelled connection, and a peer's close loses no byte before it |
| ByteChannel.LoopStaysArmed | Sources/SlopDeskNet/NWByteChannel.swift:114-137 | while the stream is open a receive is outstanding or its completion is about to arm the next |
| ByteChannel.EndingStands | Sources/SlopDeskNet/NWByteChannel.swift:106-112 | an ended stream shows nothing more and its ending stands |
| ByteChannel.EndingIsBrought | Sources/SlopDeskNet/NWByteChannel.swift:70-137 | in every run that ends the stream one step did, and a failure is the error of a receive or of the connection: only a complete receive without one, the connection's cancelling or the consumer's stop ends it clean |
| ByteChannel.StepBrings | Sources/SlopDeskNet/NWByteChannel.swift:122-137 | what each step ends an open stream as, and the data it shows, the last receive's included |
| ByteChannel.CallbacksArrive | Sources/SlopDeskNet/NWByteChannel.swift:70-83 | the connection's callbacks and the consumer are never held back |
| ByteChannel.TwoLoopsReorder | Sources/SlopDeskNet/NWByteChannel.swift:70-72 | two completions on their way at once could be handled out of order, which is what starting once prevents |
| IdentityDeal.Seed | Sources/SlopDeskSlate/SlateDesign.swift:960-965 | the loop and the split find the name after the last slash that has one |
| IdentityDeal.BasenameTravels | Sources/SlopDeskSlate/SlateDesign.swift:949-959 | the seed is the directory's name wherever it sits and however many slashes trail it |
| IdentityDeal.Hash | Sources/SlopDeskSlate/SlateDesign.swift:968-975 | the loop folds FNV-1a at 64 bits over the bytes, wrapping |
| IdentityDeal.DealOne | Sources/SlopDeskSlate/SlateDesign.swift:1017-1024 | one probe: the index is in the register and is not the one above |
| IdentityDeal.Deal | Sources/SlopDeskSlate/SlateDesign.swift:1008-1030 | the loop deals what the specification deals for the keys' hashes |
| IdentityDeal.TwoChoices | Sources/SlopDeskSlate/SlateDesign.swift:1018-1024 | a key has two different indices in all, and takes the second exactly under the first |
| IdentityDeal.DigitsChoose | Sources/SlopDeskSlate/SlateDesign.swift:1018-1024 | a hash's last digit in fives is the key's own index, and its next digit in fours how far on the second one is |
| IdentityDeal.HasDigits | Sources/SlopDeskSlate/SlateDesign.swift:1018-1023 | every hash is made of those digits |
| IdentityDeal.DealMeans | Sources/SlopDeskSlate/SlateDesign.swift:1008-1030 | island by island, the hash of the folded name decides, and the index above alone moves it |
| IdentityDeal.PublishedHashes | Sources/SlopDeskSlate/SlateDesign.swift:968-975 | published values of the hash |
| IdentityDeal.PlainNames | Sources/SlopDeskSlate/SlateDesign.swift:960-965 | a key with no slash is its own name, and one of slashes alone has none |
| IdentityDeal.NeighboursDiffer | Sources/SlopDeskSlate/SlateDesign.swift:1001-1030 | no two keyed neighbours are dealt one index, and a keyless island has none |
| IdentityDeal.NoClashKeepsOwn | Sources/SlopDeskSlate/SlateDesign.swift:997-999 | where no neighbours hash alike every island keeps its own index |
| IdentityDeal.ChangeReaches | Sources/SlopDeskSlate/SlateDesign.swift:993-996 | by the hashes alone: a change above reaches an island exactly when the first island hashes to one of the two indices above it, and every later one down to it to one of the two its upper neighbour can have |
| IdentityDeal.MeetingStays | Sources/SlopDeskSlate/SlateDesign.swift:1001-1030 | two columns with one lower part agree from the first island of it where they meet |
| IdentityDeal.InsertionCascades | Sources/SlopDeskSlate/SlateDesign.swift:993-996 | one insertion re-deals every island below it, however many, when they share a name |
| ArenaText.ReadersAgree | Sources/SlopDeskArena/ArenaText.swift:44-133 | all readers answer alike on every pair, and the optional one says absent exactly where a pair does not fit |
| ArenaText.SpanIsThere | Sources/SlopDeskArena/ArenaText.swift:44-53 | what is read is what is there, byte by byte, and a pair that does not fit reads nothing |
| ArenaText.SpanStays | Sources/SlopDeskArena/ArenaText.swift:44-53 | a read that found its bytes finds them again however the arena grows |
| ArenaText.InternReadsBack | Sources/SlopDeskArena/ArenaText.swift:135-156 | while the offset fits its field a written text reads back exactly when its length fits too |
| ArenaText.SaturatedReads | Sources/SlopDeskArena/ArenaText.swift:143-148 | what a saturated pair reads instead |
| ArenaText.Arena.Intern | Sources/SlopDeskArena/ArenaText.swift:149-156 | the bytes are appended, the pair names them, and every text written before still reads back |
| WireMessages.BuildKeepsType | Sources/SlopDeskProtocol/WireMessageCodec.swift:265-352 | a record is read as a message of its own type, and refused exactly when no message has that type |
| WireMessages.Flatten | Sources/SlopDeskProtocol/WireMessageCodec.swift:108-236 | each kind fills its own fields of the record, its texts in their order and its run, and building from them gives the message back, for all twenty-nine kinds |
| WireMessages.FlattenRun | Sources/SlopDeskProtocol/WireMessageCodec.swift:108-236 | for the kinds with an opaque run, whatever the arena holds |
| WireMessages.FlattenFields | Sources/SlopDeskProtocol/WireMessageCodec.swift:108-236 | for the kinds with neither a run nor a text, whatever the arena and the run hold |
| WireMessages.FlattenTexts | Sources/SlopDeskProtocol/WireMessageCodec.swift:240-256 | for the kinds with one text or two, in an arena that may hold others before them |
| NerdRuns.Runs | Sources/SlopDeskFontFaces/NerdSymbolFont.swift:127-147 | the runs make up the text, are never empty, are of one kind each and alternate |
| NerdRuns.LoopRuns | Sources/SlopDeskFontFaces/NerdSymbolFont.swift:132-146 | the character loop alone gives such runs too |
| NerdRuns.ContainsPrivate | Sources/SlopDeskFontFaces/NerdSymbolFont.swift:128-128 | the shortcut looks at every scalar, not only a character's first |
| NerdRuns.FirstScalarCounts | Sources/SlopDeskFontFaces/NerdSymbolFont.swift:136-136 | a character is a symbol when its first scalar is |
| NerdRuns.SplitUnique | Sources/SlopDeskFontFaces/NerdSymbolFont.swift:127-147 | a text has only one such split, so the shortcut and the loop agree |

## Left out

- ReadPath: asks for data that the reader comes to the end of, because on the rest the original loop does not end; `PathReader.EndsExactlyUnlessJammed` says which data that is.
- Flatten: promises the message back when each text is well formed and the arena stays below 2^32 bytes, which is where the original's 32-bit pairs can name it; `ArenaText.InternReadsBack` and `ArenaText.SaturatedReads` say what happens past that.
- DecodeStream: takes the chunks as a list and answers what was yielded in the end; cancellation of the task, and that an element can be consumed before the next chunk arrives, are not modelled.
- Phase: is over the reals, and so are the tempo, the ink and the path; rounding in floating point, and the parsing of a number to a nearest double, are not modelled.
- Runs: takes a text as its characters; how scalars are grouped into characters, and that appending one may regroup them, is not modelled.
- Seed: takes case folding with normalisation, and UTF-8, as parameters.
- SplitFields: takes which bytes are well-formed UTF-8 as a parameter, and a string as its bytes.
- What Core Graphics makes of a list of segments, one that does not begin with a moveto in particular.
- That the functions of `Analysis` exist is not proved: `Functions.Lawful` states known facts of the real sine, cosine, tangent, arctangent and square root, and every theorem about them assumes it.
- The scaling of a path into a rectangle, icons, colours and drawing: geometry with no decision in it.
- `NerdSymbolFont.strippingSymbols`, `InspectorViewModel.answer` and its feed state, the register's hexes and the bed lookup: short filters, probes and guards that would add only easy members.
- The seed span of the thinking mark and its frozen still: constants.
- Adoption of a new transport with chunks held back, duplicate suppression, epochs and credit in the client driver: the wakeup model begins at the append to the inbox.
- A second consumer of the wake stream, which the original rules out: the model has one.
- Weak references: that a hub, a channel or a driver may be gone when a callback runs.
- The send half of the byte channel and its connection parameters.
- The frame's `subscribe` control and the daemon's own decoder: fixed nine-byte payloads.
- The blob spans of the flat record, which only the far side fills and reads.
- Sockets, dispatch queues, pointer lifetimes, and every decision taken in the Rust crates beyond the frame splitter and its door.
