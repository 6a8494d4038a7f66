# The terminal engine, the MATLAB lifecycle and the viewer lease, proved

A Dafny 4.11 model of three parts of matlab-proxy-go, with proofs of what they promise:

- **The terminal engine** (`internal/server/static/js/xterm.js`, xterm.js 5.5.0 in one line; modules are
  named by their numeric keys). The streaming escape sequence parser with its hand-written loops (2015, 6242,
  6351, 8742), the UTF-16 and UTF-8 decoders (482), the ring buffer of lines (6349) with the markers that
  follow them (4863, 9092) and the scrolling on top of it (744), the rows of cells (8437) and their
  rewrapping (4634), the merging of ranges (4269) and the write queue (5981).
- **The MATLAB lifecycle** (`internal/matlab/process.go`), as a state machine over its critical sections.
- **The single-viewer lease** (`internal/session/session.go`).

What the source updates in place is updated in place here: classes with arrays and fields, loops with
invariants. Beside each stands what it means, a sequence, a list or a machine that takes one step at a time,
and the methods are proved to do what that says. The laws are proved about the meaning, for all inputs. They
say what comes out without naming how it is computed: whole sequences and who hears of them, cell by cell, place
by place in a log, step by step from a call to its end.

Where the code does not keep a law everywhere, the law is proved to hold exactly under a condition:

- The put loop of device control strings takes DEL (127), which the transition table ignores. The loops
  refine the table, and chunks compose, exactly when no DEL is affected. Runs are compared with all that was
  ever handed to device control strings, which the parser does not remember; where the difference shows outside
  is proved separately: a fallback hears of it, a handler gets it when the string ends well, an abort hides it.
- The UTF-8 decoder, when it resumes a sequence, forgets a stored continuation byte 0x80 and all after it.
  Valid text in any list of chunks decodes as in one call exactly when no cut leaves such a byte pending;
  otherwise less of it comes out, one code point less for a single cut.
- The UTF-16 decoder is given a buffer as long as its input. There is one code point more than that, and the last
  one is lost, exactly when a surrogate was held back before, none is held back after, and in between no U+FEFF
  is dropped and no pair is joined.
- `CircularList.splice` is list splicing exactly when the insertion index is at least the number of elements
  that fall out, or is at the end. What it leaves elsewhere is stated place by place.
- Rows that are rewrapped to more columns break the text greedily. They read as that text exactly when no full row
  ends in an empty cell with a wide one next and something to show from there on; such a row reads as one cell
  shorter.
- A replacement of cells leaves wide characters whole exactly when its range is not backwards with its end
  inside one. No caller in xterm.js passes a backwards range.
- Sub-parameter indices are packed into 8 bits, but the `Params` constructor admits 256 sub-parameters; the list
  reads back exactly up to 255. No caller in xterm.js asks for more than the default of 32.
- `attached` is never reset, so a `Stop` after an attach takes the path that only detaches even when a MATLAB of
  our own is running. It ends a process exactly when the context that it finds is that of a command that runs.
- The context of an attach replaces that of a run. A MATLAB of ours whose start has timed out runs on through an
  attach and a `Stop`, and no call ever ends it afterwards.
- `Stop` can return and the status come up afterwards, when a ping was answered before. "Down" is final exactly
  when every goroutine is past the point where it could connect.

Each of these comes with a concrete input or run.

`dafny verify dfyconfig.toml` checks the whole project.

## Model

xterm.js is one line; the numbers in parentheses are the keys of its modules.

| member | source | states |
|---|---|---|
| `TransitionTable.AssignedIsEntry` | internal/server/static/js/xterm.js:1 | the long list of assignments that fills the VT500 table, in which later ones override earlier ones, ends up with exactly the entry that the state machine prescribes, for every state and column (2015) |
| `TransitionTable.Table.VT500` | internal/server/static/js/xterm.js:1 | building the table in place, assignment by assignment, yields that table; no element is left unassigned or out of range (2015) |
| `TransitionTable.Table.SetDefault` | internal/server/static/js/xterm.js:1 | `setDefault` reaches every element (2015) |
| `TransitionTable.Table.Add` | internal/server/static/js/xterm.js:1 | `add` packs one entry and disturbs no other (2015) |
| `TransitionTable.Table.AddMany` | internal/server/static/js/xterm.js:1 | `addMany` changes exactly the columns listed, in one state (2015) |
| `ParserMachine.OnlyFrom` | internal/server/static/js/xterm.js:1 | printing, string and parameter actions occur only in the states, and on the code points, that their hand-written loops presuppose (2015) |
| `ParserMachine.EntryFits` | internal/server/static/js/xterm.js:1 | packing action and state into one byte loses nothing (2015) |
| `ParserMachine.FeedConcat` | internal/server/static/js/xterm.js:1 | what a call does after a prefix depends only on the machine and the loop flag the prefix leaves (2015) |
| `ParserMachine.FeedPrint` | internal/server/static/js/xterm.js:1 | a whole run of printable code points may be reported at once (2015) |
| `ParserMachine.FeedParams` | internal/server/static/js/xterm.js:1 | a run of parameter bytes does to the state and the store what its bytes do one by one (2015) |
| `ParserMachine.FeedOscPut` | internal/server/static/js/xterm.js:1 | an operating system command may be given a whole slice at once (2015) |
| `ParserMachine.FeedDcsPut` | internal/server/static/js/xterm.js:1 | a device control string may be given a whole slice at once, DEL included once the loop runs (2015) |
| `ParserLaws.LoopsRefineTable` | internal/server/static/js/xterm.js:1 | the fast loops of `parse` do what one table transition per code point does, in state, parameters, identifiers, payloads, log and all that was ever handed to device control strings, exactly when no DEL is taken as device control payload (2015) |
| `ParserLaws.SwallowIsDelAfterPayload` | internal/server/static/js/xterm.js:1 | the exception in plain words: a DEL inside a device control string whose predecessor in the same chunk was payload (2015) |
| `ParserLaws.DelMakesADifference` | internal/server/static/js/xterm.js:1 | a concrete input on which the log, or the text that handlers collect, differs from the table and from chunked input (2015) |
| `ParserLaws.ChunksCompose` | internal/server/static/js/xterm.js:1 | `parse(a)` then `parse(b)` is `parse(a ++ b)` in all these for every cut, exactly when the cut is not between payload and a DEL (2015) |
| `ParserLaws.ChunkingIsInvisible` | internal/server/static/js/xterm.js:1 | any list of chunks gives what the table machine gives on the whole, where no DEL is taken (2015) |
| `ParserSwallow.SwallowShows` | internal/server/static/js/xterm.js:1 | the first DEL that the put loop takes while nobody is registered for the string makes the log differ from the table's, whatever the input before and after (2015, 6351) |
| `ParserSwallow.CutShows` | internal/server/static/js/xterm.js:1 | so does a cut between payload and a DEL, against the same input in one call (2015, 6351) |
| `ParserSwallow.HandlerHears` | internal/server/static/js/xterm.js:1 | when handlers are registered and the string ends well, the first one asked is given the DELs that the table would drop; the calls are the same exactly when there is none, below the payload limit (2015, 6351) |
| `ParserSwallow.AbortHides` | internal/server/static/js/xterm.js:1 | when CAN or SUB aborts such a string, its DELs leave no trace outside (2015, 6351) |
| `EscapeSequenceParser.EscapeSequenceParser.Parse` | internal/server/static/js/xterm.js:1 | the parser as written leaves in its fields, sub-parsers and merged log what the specification machine has after the first `length` code points (2015) |
| `EscapeSequenceParser.EscapeSequenceParser.ScanPrint` | internal/server/static/js/xterm.js:1 | the four-times unrolled scan stops at the first code point that the printing loop may not take (2015) |
| `EscapeSequenceParser.EscapeSequenceParser.ParsePrint` | internal/server/static/js/xterm.js:1 | the printing loop reports exactly the printable run and nothing after it (2015) |
| `EscapeSequenceParser.EscapeSequenceParser.ParseParams` | internal/server/static/js/xterm.js:1 | the parameter loop stores a run of digits and separators as the machine does (2015) |
| `EscapeSequenceParser.EscapeSequenceParser.ParseOscPut` | internal/server/static/js/xterm.js:1 | the string loop hands over one slice where the machine takes code points one by one (2015) |
| `EscapeSequenceParser.EscapeSequenceParser.ParseDcsPut` | internal/server/static/js/xterm.js:1 | the same for device control strings (2015) |
| `EscapeSequenceParser.EscapeSequenceParser.FeedBytes` | internal/server/static/js/xterm.js:1 | the run of parameter bytes taken is the longest there is, and is stored byte by byte (2015) |
| `EscapeSequenceParser.EscapeSequenceParser.ScanOscPut` | internal/server/static/js/xterm.js:1 | a slice for an operating system command ends exactly before the first control code, or with the input (2015) |
| `EscapeSequenceParser.EscapeSequenceParser.ScanDcsPut` | internal/server/static/js/xterm.js:1 | a slice for a device control string ends exactly before CAN, SUB, ESC or a C1 code; DEL does not end it (2015) |
| `EscapeSequenceParser.EscapeSequenceParser.StartString` | internal/server/static/js/xterm.js:1 | an operating system command begins afresh (2015) |
| `EscapeSequenceParser.EscapeSequenceParser.EndString` | internal/server/static/js/xterm.js:1 | it ends well unless by CAN or SUB, parameters and collected bytes are cleared, and ESC leads into an escape sequence (2015) |
| `EscapeSequenceParser.EscapeSequenceParser.Hook` | internal/server/static/js/xterm.js:1 | a device control string is hooked with the identifier collected and the parameters (2015) |
| `EscapeSequenceParser.EscapeSequenceParser.Unhook` | internal/server/static/js/xterm.js:1 | it ends as an operating system command does (2015) |
| `EscapeSequenceParser.EscapeSequenceParser.CsiDispatch` | internal/server/static/js/xterm.js:1 | handlers are asked last to first until one accepts; the fallback hears of it only when none does (2015) |
| `EscapeSequenceParser.EscapeSequenceParser.EscDispatch` | internal/server/static/js/xterm.js:1 | the same for escape sequences (2015) |
| `ParserDelivery.CsiDelivered` | internal/server/static/js/xterm.js:1 | a control sequence with any prefix, any written parameters and any intermediate bytes, introduced in either form, in the midst of anything but a string: the handlers under the number of exactly these bytes are asked one after the other, the one registered last first, until one accepts; each is given the parameters as written, as far as they fit; only when none accepts the fallback is told, with the same number (2015, 8742) |
| `ParserDelivery.EscDelivered` | internal/server/static/js/xterm.js:1 | the same for ESC, any intermediate bytes and a final byte (2015) |
| `ParserDelivery.DcsDelivered` | internal/server/static/js/xterm.js:1 | a device control string is hooked under that same number; its handlers are offered the text, but for a DEL at its beginning, and the parameters when it ends with ESC or ST, in the same order, nothing of a text beyond the limit, nothing when CAN or SUB aborts it; where nobody is registered the fallback hears of hook, every unit of text, and end (2015, 6351, 8742) |
| `ParserDelivery.OscDelivered` | internal/server/static/js/xterm.js:1 | an identifier in digits, `;` and a text, ended in any of the five ways: the same for the handlers of that number and exactly that text (2015, 6242) |
| `ParserDelivery.OscBare` | internal/server/static/js/xterm.js:1 | without `;` the text is empty (2015, 6242) |
| `ParserDelivery.OscMalformed` | internal/server/static/js/xterm.js:1 | an identifier that is no number: nothing is reported, and the command ends as it would (2015, 6242) |
| `ParserDelivery.CsiIgnored` | internal/server/static/js/xterm.js:1 | a second prefix, or a parameter byte after intermediates: the sequence is passed over up to its final byte, and nobody hears of it (2015) |
| `ParserDelivery.DcsIgnored` | internal/server/static/js/xterm.js:1 | the same for a device control string, up to ST (2015) |
| `ParserDelivery.StringsIgnored` | internal/server/static/js/xterm.js:1 | SOS, PM and APC strings are passed over (2015) |
| `ParserDelivery.TextPrinted` | internal/server/static/js/xterm.js:1 | outside of sequences every printable code point is printed, in order, and nothing else happens (2015) |
| `ParserDelivery.ExecutedAmidst` | internal/server/static/js/xterm.js:1 | a control character in the midst of a sequence is executed there and then, by its handler or the fallback, and the sequence goes on as without it (2015) |
| `ParserDelivery.Abandoned` | internal/server/static/js/xterm.js:1 | CAN, SUB and the C1 controls that begin nothing are executed and give up the sequence (2015) |
| `ParserDelivery.UnexpectedReported` | internal/server/static/js/xterm.js:1 | a code point without a place is reported as an error with what had been collected, and the sequence is given up (2015) |
| `ParserIdentifiers.Identifier` | internal/server/static/js/xterm.js:1 | what `_identifier` accepts, and the positional number in base 256 that it joins in its loop (2015) |
| `ParserIdentifiers.Collects` | internal/server/static/js/xterm.js:1 | collecting a byte in the parser shifts in one more digit of that number, in 32 bits (2015) |
| `ParserIdentifiers.IdentIs` | internal/server/static/js/xterm.js:1 | the number byte by byte: of the final byte alone, with a prefix, with an intermediate byte, with both (2015) |
| `ParserIdentifiers.FindsItsOwn` | internal/server/static/js/xterm.js:1 | a registered handler is looked up for a sequence exactly when prefix, intermediates and final byte are the ones it was registered for, whatever the number of intermediate bytes in the sequence; a NUL registered as prefix counts as none (2015) |
| `ParamList.ParamHoldsDecimal` | internal/server/static/js/xterm.js:1 | after any digit string a parameter holds the smaller of its decimal value and 2^31 - 1 (8742) |
| `ParamList.SubParamHoldsDecimal` | internal/server/static/js/xterm.js:1 | the same for a sub-parameter, which is -1 without digits (8742) |
| `ParamList.ReadBack` | internal/server/static/js/xterm.js:1 | parsing inverts writing: the decimal text of a list within the limits leaves exactly that list (8742) |
| `ParamList.ReadsWhatFits` | internal/server/static/js/xterm.js:1 | the text of any list at all leaves the first parameters up to the limit, each with its value, and sub-parameters as long as there is room (8742) |
| `ParamList.ArrayRoundTrip` | internal/server/static/js/xterm.js:1 | `fromArray` then `toArray` is the identity on well-formed lists within the 32/32 limits (8742) |
| `Params.PackedExactly` | internal/server/static/js/xterm.js:1 | two 8-bit indices packed into 16 bits come back exactly when the end is at most 255 (8742) |
| `Params.ReadSlot` | internal/server/static/js/xterm.js:1 | what the packed indices of a slot delimit is exactly what can be read of its parameter, up to 256 sub-parameters (8742) |
| `Params.ReadableExactly` | internal/server/static/js/xterm.js:1 | the whole list can be read back exactly up to 255 sub-parameters (8742) |
| `Params.OneTooMany` | internal/server/static/js/xterm.js:1 | with the 256th, which the constructor admits, all sub-parameters of its parameter are gone and nothing else is (8742) |
| `Params.StoresOneSub` | internal/server/static/js/xterm.js:1 | counting a slot up by one in its sixteen bits stores one sub-parameter more, also where it carries (8742) |
| `Params.StretchesInOrder` | internal/server/static/js/xterm.js:1 | the packed stretches of sub-parameters do not overlap and keep the order of their parameters (8742) |
| `Params.Params.AddParam` | internal/server/static/js/xterm.js:1 | the store in three arrays stands for the list with one more clamped parameter; below -1 it refuses, past the limit it only remembers to reject digits (8742) |
| `Params.Params.AddSubParam` | internal/server/static/js/xterm.js:1 | the same for a sub-parameter of the last parameter (8742) |
| `Params.Params.AddDigit` | internal/server/static/js/xterm.js:1 | one more digit goes to the value that is open, saturating, or nowhere (8742) |
| `Params.Params.FromArray` | internal/server/static/js/xterm.js:1 | the nested form builds the list it describes, or is refused (8742) |
| `Params.Params.ToArray` | internal/server/static/js/xterm.js:1 | the nested form of what can be read back, which is that of the stored list exactly up to 255 sub-parameters (8742) |
| `Params.Params.Snapshot` | internal/server/static/js/xterm.js:1 | a handler sees the list as it was stored, for limits up to 255 (8742) |
| `Params.Params.constructor` | internal/server/static/js/xterm.js:1 | a new store is the empty list with these limits, up to 256 sub-parameters, all three arrays its own (8742) |
| `Params.Params.Reset` | internal/server/static/js/xterm.js:1 | forgets parameters and flags, keeps the limits (8742) |
| `OscParser.PutAllConcat` | internal/server/static/js/xterm.js:1 | identifier, payload and limit flags do not depend on how the code points are cut into slices (6242) |
| `OscParser.PutSlice` | internal/server/static/js/xterm.js:1 | once the payload has begun a slice is one delivery of its UTF-16 units (6242) |
| `OscParser.OscParser.Put` | internal/server/static/js/xterm.js:1 | the parser as written does for a slice what the one-code-point machine does (6242) |
| `OscParser.OscParser.End` | internal/server/static/js/xterm.js:1 | handlers are asked last to first, those past the payload limit are passed over, and all is reset (6242) |
| `OscParser.OscParser.Start` | internal/server/static/js/xterm.js:1 | whatever came before, the next code points belong to an identifier (6242) |
| `OscParser.OscParser.Reset` | internal/server/static/js/xterm.js:1 | an unfinished command is given up and nothing of it stays (6242) |
| `DcsParser.PutAllConcat` | internal/server/static/js/xterm.js:1 | payload and limit flags of a device control string do not depend on the slices (6351) |
| `DcsParser.DcsParser.Hook` | internal/server/static/js/xterm.js:1 | all registered handlers begin with the parameters as they are then (6351) |
| `DcsParser.DcsParser.Put` | internal/server/static/js/xterm.js:1 | a slice reaches every active handler, or the fallback (6351) |
| `DcsParser.DcsParser.Unhook` | internal/server/static/js/xterm.js:1 | handlers are asked last to first with what they collected and the hooked parameters (6351) |
| `DcsParser.DcsParser.Reset` | internal/server/static/js/xterm.js:1 | an unfinished string is given up and nothing of it stays (6351) |
| `ParserEvents.CollectConcat` | internal/server/static/js/xterm.js:1 | the payload limit of ten million applies to the total, whatever the pieces (6242, 6351) |
| `Utf16.Utf32ToString` | internal/server/static/js/xterm.js:1 | `utf32ToString` gives the UTF-16 units of the code points, as sections 2.1 and 2.2 of RFC 2781 define them (482) |
| `Utf16.DecodeConcat` | internal/server/static/js/xterm.js:1 | decoding pieces in turn gives the code points and the held-back surrogate of the whole, for any code units, well-formed or not (482) |
| `Utf16.ChunkingIsInvisible` | internal/server/static/js/xterm.js:1 | the same for any list of chunks (482) |
| `Utf16.DecodedLength` | internal/server/static/js/xterm.js:1 | the output is never longer than the input, one more when a surrogate was held back (482) |
| `Utf16.DecodesText` | internal/server/static/js/xterm.js:1 | text of scalar values encoded as section 2.1 of RFC 2781 defines decodes to its code points less U+FEFF, with nothing held back (482) |
| `Utf16.RoundTrip` | internal/server/static/js/xterm.js:1 | encoding the decoded text and the held-back unit gives back the input exactly when no U+FEFF is dropped (482) |
| `Utf16.StringToUtf32.Decode` | internal/server/static/js/xterm.js:1 | for any input and any target the decoder as written holds back, counts and stores what the one-unit decoder says, as far as the target reaches; what is past its end is lost (482) |
| `Utf16.StringFromCodePoint` | internal/server/static/js/xterm.js:1 | one code point above the basic plane is two units, any other one (482) |
| `Utf16.AllAccounted` | internal/server/static/js/xterm.js:1 | code points out, the unit held back after, U+FEFF dropped and second halves joined add up to the units in and the one held back before (482) |
| `Utf16.MoreThanUnits` | internal/server/static/js/xterm.js:1 | there are more code points than units, and then one more, exactly when a surrogate was held back before, none is after, and none of the units is dropped or joined (482) |
| `Utf16.FitsUnlessOneTooMany` | internal/server/static/js/xterm.js:1 | with a target at least as long as the input, which is what the caller provides, all code points arrive exactly unless that is so and the input fills the target; then all but the last do (482) |
| `Utf16.LosesTheLast` | internal/server/static/js/xterm.js:1 | a concrete input that loses its last code point (482) |
| `Utf16.StringToUtf32.Clear` | internal/server/static/js/xterm.js:1 | a held-back surrogate is forgotten (482) |
| `Utf8.OnlyScalars` | internal/server/static/js/xterm.js:1 | whatever the bytes, only Unicode scalar values come out, and never U+FEFF (482) |
| `Utf8.DecodesValid` | internal/server/static/js/xterm.js:1 | every text encoded as section 3 of RFC 3629 defines decodes to its code points, less U+FEFF (482) |
| `Utf8.OnlyEncodings` | internal/server/static/js/xterm.js:1 | and a lead byte with its continuation bytes decodes to nothing but the code point whose encoding it is: overlong forms, surrogates, U+FEFF and what is beyond U+10FFFF are dropped (482) |
| `Utf8.Begins` | internal/server/static/js/xterm.js:1 | a byte that continues nothing begins afresh whatever was unfinished: ASCII comes out, a lead byte is kept, any other byte is dropped (482) |
| `Utf8.FeedConcat` | internal/server/static/js/xterm.js:1 | the one-byte decoder does not care where its input is cut (482) |
| `Utf8.ChunkingIsInvisible` | internal/server/static/js/xterm.js:1 | any bytes in any chunks decode as the whole does, as long as no cut leaves a continuation byte 0x80 pending (482) |
| `Utf8.SplitValid` | internal/server/static/js/xterm.js:1 | valid text in two calls gives what one call gives exactly when the first leaves no continuation byte 0x80 pending (482) |
| `Utf8.SplitLoses` | internal/server/static/js/xterm.js:1 | otherwise exactly one code point is lost (482) |
| `Utf8Chunks.ValidChunks` | internal/server/static/js/xterm.js:1 | valid text in any list of chunks decodes to its code points, less U+FEFF, exactly when no cut leaves a continuation byte 0x80 pending; otherwise fewer come out (482) |
| `Utf8.SplitLosesAtInput` | internal/server/static/js/xterm.js:1 | U+10000 cut after its third byte is not decoded at all (482) |
| `Utf8.Utf8ToUtf32.Decode` | internal/server/static/js/xterm.js:1 | the decoder as written, with its store, its resume loop and its fast path, gives what the one-byte decoder gives after the sequence it still remembers (482) |
| `Utf8.Utf8ToUtf32.FourAtOnce` | internal/server/static/js/xterm.js:1 | the loop over four ASCII bytes changes nothing but speed, and leaves a byte over (482) |
| `Utf8.Utf8ToUtf32.Resume` | internal/server/static/js/xterm.js:1 | a sequence from an earlier chunk is completed, dropped with the offending byte kept, or kept waiting (482) |
| `Utf8.Utf8ToUtf32.DecodeOne` | internal/server/static/js/xterm.js:1 | one start byte with what belongs to it: a code point, nothing, or a sequence to wait for (482) |
| `Utf8.Utf8ToUtf32.Clear` | internal/server/static/js/xterm.js:1 | an unfinished sequence is forgotten (482) |
| `CircularList.SlotIsMod` | internal/server/static/js/xterm.js:1 | the slot of an index is its remainder, however large the start index has grown (6349) |
| `CircularList.CircularList.constructor` | internal/server/static/js/xterm.js:1 | a new list is empty and has room for `maxLength` elements (6349) |
| `CircularList.CircularList.Get` | internal/server/static/js/xterm.js:1 | reads the logical element, for a start index not reduced either (6349) |
| `CircularList.CircularList.Set` | internal/server/static/js/xterm.js:1 | replaces one logical element and no other (6349) |
| `CircularList.CircularList.Push` | internal/server/static/js/xterm.js:1 | appends, and drops the oldest element and tells so when the list is full (6349) |
| `CircularList.CircularList.Recycle` | internal/server/static/js/xterm.js:1 | the oldest element becomes the newest, and the trim is told (6349) |
| `CircularList.CircularList.Pop` | internal/server/static/js/xterm.js:1 | takes off the last element and tells nobody (6349) |
| `CircularList.CircularList.TrimStart` | internal/server/static/js/xterm.js:1 | drops elements from the front, at most all, for an unreduced start index too (6349) |
| `CircularList.CircularList.Splice` | internal/server/static/js/xterm.js:1 | deletes, inserts and trims with the events of all three; leaves the plain edit wherever the condition below holds, and elsewhere, place by place, the items, those of them that have wrapped around, and what survives of the tail when its copying wraps over itself (6349) |
| `CircularList.SpliceIsPlainEdit` | internal/server/static/js/xterm.js:1 | `splice` is list deletion and insertion with the oldest dropped exactly when the insertion index is at least the number of elements that fall out, or is at the end (6349) |
| `CircularList.SpliceLosesTheLast` | internal/server/static/js/xterm.js:1 | a full list of two and an item inserted at the front: the list is not what the plain edit gives (6349) |
| `CircularList.CircularList.ShiftElements` | internal/server/static/js/xterm.js:1 | moves elements up or down as memmove does, and refuses what starts outside (6349) |
| `CircularList.MovedDownIs` | internal/server/static/js/xterm.js:1 | copying lowest first moves a block down intact (6349) |
| `CircularList.MovedUpIs` | internal/server/static/js/xterm.js:1 | copying highest first moves a block up intact (6349) |
| `CircularList.CircularList.SetMaxLength` | internal/server/static/js/xterm.js:1 | a new maximum that the elements fit into keeps them in order (6349) |
| `CircularList.CircularList.SetLength` | internal/server/static/js/xterm.js:1 | a smaller length cuts off the end and tells nobody (6349) |
| `Markers.FollowsTrim` | internal/server/static/js/xterm.js:1 | a marker that hears of a trim stays with its line, or is disposed of exactly when the line is gone (4863, 9092) |
| `Markers.FollowsDelete` | internal/server/static/js/xterm.js:1 | the same for a deletion (4863, 9092) |
| `Markers.FollowsInsert` | internal/server/static/js/xterm.js:1 | the same for an insertion (4863, 9092) |
| `Markers.FollowsPush` | internal/server/static/js/xterm.js:1 | the events of `push` keep every marker with its line (4863, 9092) |
| `Markers.FollowsSplice` | internal/server/static/js/xterm.js:1 | the events of `splice`, heard in order, keep every marker with its line (4863, 9092) |
| `Markers.FollowsPop` | internal/server/static/js/xterm.js:1 | after `pop`, which fires nothing, a marker is right exactly when its line was not the last (4863, 9092) |
| `Markers.Marker.Hear` | internal/server/static/js/xterm.js:1 | the three listeners of `addMarker` do what the events say (4863, 9092) |
| `Markers.Marker.Dispose` | internal/server/static/js/xterm.js:1 | a marker is disposed of once; its line is -1 from then on (4863, 9092) |
| `Markers.Buffer.AddMarker` | internal/server/static/js/xterm.js:1 | a new marker follows the line it was put on (4863, 9092) |
| `Markers.Buffer.Push` | internal/server/static/js/xterm.js:1 | all markers of the buffer still follow their lines (4863, 9092) |
| `Markers.Buffer.Recycle` | internal/server/static/js/xterm.js:1 | the same when the oldest line is reused for a new one (4863, 9092) |
| `Markers.Buffer.Splice` | internal/server/static/js/xterm.js:1 | the same, wherever the list itself is right (4863, 9092) |
| `Markers.Buffer.TrimStart` | internal/server/static/js/xterm.js:1 | the same (4863, 9092) |
| `BufferService.ViewStaysOnce` | internal/server/static/js/xterm.js:1 | while the user has scrolled back, one scroll leaves the line at the top of the view unless the ring has trimmed it (744) |
| `BufferService.ViewStays` | internal/server/static/js/xterm.js:1 | in every run of `scroll` and `scrollLines`, from any moment at which the user has scrolled back: until the user scrolls again the line at the top of the view stays, or the oldest line is shown once it is trimmed (744) |
| `BufferService.HistoryGrows` | internal/server/static/js/xterm.js:1 | only lines that leave the top of the screen enter the scrollback, and only its oldest is forgotten (744) |
| `BufferService.RegionScrolls` | internal/server/static/js/xterm.js:1 | row by row: the scroll region moves up by one, the new line comes in at its bottom, the other rows stay (744) |
| `BufferService.ScrolledViewShows` | internal/server/static/js/xterm.js:1 | scrolling the view by some lines shows what is that many further down, or up, not past the oldest line nor the screen; the buffer stays as it is (744) |
| `BufferService.BufferService.Scroll` | internal/server/static/js/xterm.js:1 | keeps the number of lines at `ybase + rows` and the view within the scrollback, and scrolls region, scrollback and view as specified (744) |
| `BufferService.BufferService.ScrollLines` | internal/server/static/js/xterm.js:1 | moves the view within the scrollback; the user is scrolling exactly while it is not at the bottom (744) |
| `MergeRanges.ReplacedMerges` | internal/server/static/js/xterm.js:1 | replacing the ranges that a new one touches by their span keeps a sorted disjoint list that covers exactly the union (4269) |
| `MergeRanges.Merge` | internal/server/static/js/xterm.js:1 | `_mergeRanges`, which edits the list it walks and steps back, ends and returns such a list (4269) |
| `BufferLine.InsertedAt` | internal/server/static/js/xterm.js:1 | cell by cell: what stands where after an insertion, and which halves of wide characters are blanked (8437) |
| `BufferLine.DeletedAt` | internal/server/static/js/xterm.js:1 | the same for a deletion (8437) |
| `BufferLine.ReplacedAt` | internal/server/static/js/xterm.js:1 | the same for an unprotected replacement (8437) |
| `BufferLine.InsertedWhole` | internal/server/static/js/xterm.js:1 | an insertion with its repairs keeps every wide cell followed by its second half in the same row (8437) |
| `BufferLine.DeletedWhole` | internal/server/static/js/xterm.js:1 | the same for a deletion (8437) |
| `BufferLine.ReplacedWhole` | internal/server/static/js/xterm.js:1 | an unprotected replacement keeps it exactly when its range is not backwards with its end inside a wide character (8437) |
| `BufferLine.CutsBackwardsAtInput` | internal/server/static/js/xterm.js:1 | a concrete replacement that does (8437) |
| `BufferLine.RunsKeepWhole` | internal/server/static/js/xterm.js:1 | every run of the three keeps it, as long as no replacement goes backwards into a wide character (8437) |
| `BufferLine.BufferLine.InsertCells` | internal/server/static/js/xterm.js:1 | the in-place insertion is the edit on the sequence of cells (8437) |
| `BufferLine.BufferLine.DeleteCells` | internal/server/static/js/xterm.js:1 | the in-place deletion is the edit on the sequence of cells (8437) |
| `BufferLine.BufferLine.ReplaceCells` | internal/server/static/js/xterm.js:1 | the in-place replacement is the edit on the sequence of cells (8437) |
| `BufferLine.BufferLine.CopyCellsFrom` | internal/server/static/js/xterm.js:1 | copies cells as they were, also within one row when the direction fits (8437) |
| `BufferLine.BufferLine.GetTrimmedLength` | internal/server/static/js/xterm.js:1 | where the text of a row ends (8437) |
| `ReflowText.TrimmedEnds` | internal/server/static/js/xterm.js:1 | the text of a row ends after the last cell that shows something, with the second half of a wide one (8437) |
| `ReflowText.WritesBehind` | internal/server/static/js/xterm.js:1 | while a group is rewrapped in place, no cell is overwritten before it is read (4634) |
| `ReflowText.LiveLength` | internal/server/static/js/xterm.js:1 | measuring a row after parts of it have been overwritten gives its original length (4634) |
| `ReflowText.RoomBelow` | internal/server/static/js/xterm.js:1 | when a row is full there is another to write to, so that no index passes the end of the group (4634) |
| `ReflowText.CopyKeeps` | internal/server/static/js/xterm.js:1 | a copy keeps what has been written equal to what has been read (4634) |
| `ReflowText.WrapKeeps` | internal/server/static/js/xterm.js:1 | so does going on to the next row, with a wide cell that does not fit moved along (4634) |
| `ReflowText.Finishes` | internal/server/static/js/xterm.js:1 | after the last copy the rows hold the text of the group, laid out anew (4634) |
| `ReflowText.NothingLost` | internal/server/static/js/xterm.js:1 | the rows that stay hold the whole text but for cells at its end that show nothing (4634) |
| `ReflowBreaks.BreaksGreedily` | internal/server/static/js/xterm.js:1 | each row then begins and ends where breaking the text of the group greedily from the front, with a wide character that would be cut going to the next row, has it (4634) |
| `ReflowBreaks.RowsAreLongest` | internal/server/static/js/xterm.js:1 | each row takes as many cells of the text as a row can without parting a wide character (4634) |
| `ReflowBreaks.ReadsBack` | internal/server/static/js/xterm.js:1 | reading the rows that stay with `getWrappedLineTrimmedLength` gives that text exactly when the text, so broken, has no full row that ends in an empty cell before a wide one with something to show (4634) |
| `ReflowBreaks.GapLosesACell` | internal/server/static/js/xterm.js:1 | a concrete group of two rows, four columns made five, that reads as one cell shorter afterwards (4634) |
| `ReflowLarger.ReflowGroup` | internal/server/static/js/xterm.js:1 | the in-place loop ends, stays within the group, keeps its text with wide characters whole, and counts the rows that are left over (4634) |
| `ReflowLarger.WrappedLength` | internal/server/static/js/xterm.js:1 | `getWrappedLineTrimmedLength`: a full row that ends in an empty cell before a wide one counts one less (4634) |
| `ReflowLarger.GetLinesToRemove` | internal/server/static/js/xterm.js:1 | every logical line of the buffer is rewrapped, except the one with the cursor, and the rows to remove are those left over (4634) |
| `ReflowLarger.KeptRemains` | internal/server/static/js/xterm.js:1 | taking these rows out leaves of each logical line what holds its text (4634) |
| `ReflowLayout.CreateNewLayout` | internal/server/static/js/xterm.js:1 | the layout lists the rows that stay, and the deletions told, carried out in order, lead to it (4634) |
| `ReflowLayout.ApplyNewLayout` | internal/server/static/js/xterm.js:1 | the ring buffer then holds the rows of the layout, in order (4634) |
| `ReflowLayout.FollowsEdited` | internal/server/static/js/xterm.js:1 | markers that hear these deletions follow their lines through the rewrapping (4634) |
| `ReflowLarger.Reflow` | internal/server/static/js/xterm.js:1 | all of it together on the list of lines (4634) |
| `ReflowSmaller.NewLineLengths` | internal/server/static/js/xterm.js:1 | the new row lengths break the text of the group from the front; no index leaves it, and the loop ends because there are at least two columns (4634) |
| `ReflowSmaller.WrappingLengths` | internal/server/static/js/xterm.js:1 | they add up to the text, none exceeds the columns, and all but the last are at most one short (4634) |
| `ReflowSmaller.RowsAreLongest` | internal/server/static/js/xterm.js:1 | so does each row here (4634) |
| `ReflowSmaller.WrappingKeepsWide` | internal/server/static/js/xterm.js:1 | no break comes between a wide cell and its second half (4634) |
| `ReflowSmaller.MovesOn` | internal/server/static/js/xterm.js:1 | a row takes at least one cell except with a single column before a wide cell, which the minimum of two columns excludes (4634) |
| `WriteBuffer.OnceAndInOrder` | internal/server/static/js/xterm.js:1 | in the log of what is done each chunk is acted on once and in order, and so is each callback (5981) |
| `WriteBuffer.ActsThenCalls` | internal/server/static/js/xterm.js:1 | place by place: a chunk is acted on when all before it have been, their callbacks called, and no other; its own callback is the very next event (5981) |
| `WriteBuffer.CalledAfterItsChunk` | internal/server/static/js/xterm.js:1 | so every call comes right after the action on the chunk it was given with (5981) |
| `WriteBuffer.WriteBuffer.Write` | internal/server/static/js/xterm.js:1 | accepts unless too much is pending, conserves every chunk, and has one slice scheduled exactly when work remains (5981) |
| `WriteBuffer.WriteBuffer.InnerWrite` | internal/server/static/js/xterm.js:1 | works from the front through any re-entrant writes, at least one chunk, until nothing is left or the time is up, and keeps all that (5981) |
| `WriteBuffer.WriteBuffer.Slice` | internal/server/static/js/xterm.js:1 | the same for a scheduled slice (5981) |
| `Lifecycle.StartOk` | internal/matlab/process.go:103-168 | every step of `Start` and `Attach` keeps the invariant |
| `Lifecycle.AttachedOk` | internal/matlab/process.go:177-267 | so does every step of an attached run and its monitor, whatever pings and time-outs do |
| `Lifecycle.RunOk` | internal/matlab/process.go:269-488 | so does every step of a spawned run up to its connector |
| `Lifecycle.EndOk` | internal/matlab/process.go:362-519 | so does every step of the end of such a run, and of its poller |
| `Lifecycle.StopOk` | internal/matlab/process.go:521-584 | so does every step of `Stop`: it reads command, connector and mode in one critical section, asks for an exit only when it is neither forced nor finds MATLAB starting, and kills only when it may |
| `Lifecycle.WaitOk` | internal/matlab/process.go:541-599 | and every wait of `Stop`, whether the goroutine ends in time or not |
| `Lifecycle.Always` | internal/matlab/process.go:103-599 | the invariant holds after every interleaving of calls, goroutines and process exits |
| `Lifecycle.AlwaysNumbered` | internal/matlab/process.go:137-139 | in every reachable state, a run that is yet to begin has not been cancelled, no command of it has been started or has exited, and no command ever has the number of an attach |
| `Lifecycle.UpHasConnector` | internal/matlab/process.go:475-480 | in every reachable state "up" comes with a connector, and a connector to a foreign process with `attached` |
| `Lifecycle.OnlyOursAreEnded` | internal/matlab/process.go:521-584 | an exit request goes only through a connector that a run made after starting its command, and none is sent, nor a process killed directly, by a `Stop` that begins after an attach; what a `Stop` ends, directly or through its context, is a command that one of our runs has started |
| `Lifecycle.AsksBeforeForcing` | internal/matlab/process.go:555-584 | in every run: a `Stop` that is not forced and finds MATLAB up kills only after its own exit request has failed or has not been followed in time, and does not cut it off before that either where it could ask; only such a `Stop` asks, through the connector it has read |
| `Lifecycle.StopAsks` | internal/matlab/process.go:521-578 | from any state with a MATLAB of ours: `Stop` asks it to exit, through its connector, exactly when it is not forced, MATLAB is not starting and there is a connector; otherwise it cancels the context at once |
| `Lifecycle.StopKills` | internal/matlab/process.go:575-584 | where it does not ask, the kill follows exactly when it is forced or MATLAB was starting |
| `Lifecycle.StopForces` | internal/matlab/process.go:555-584 | a request that is not followed in time: the context is cancelled and the process killed after all |
| `Lifecycle.DetachEnds` | internal/matlab/process.go:521-541 | from any state that is not down, after an attach or without a command: a `Stop`, taken to where it has cancelled the context, ends a process exactly when the context it finds is that of a command that runs, and nothing else |
| `Lifecycle.AttachesEndNothing` | internal/matlab/process.go:521-584 | in every reachable state: where the context found is that of an attach, that ends nothing; no process is ever ended under the number of an attach |
| `Lifecycle.EndsThroughContext` | internal/matlab/process.go:535-541 | from every reachable state that is down after an attach, a MATLAB of ours can be started, and the `Stop` that follows, still in attach mode, ends it through its context |
| `Lifecycle.StaysOutOfReach` | internal/matlab/process.go:103-599 | once an attach has replaced the context of a run, and no `Stop` under way knows of it, nothing that is called or happens ends its command |
| `Lifecycle.LeftRunning` | internal/matlab/process.go:137-163 | from every reachable state that is down there is a run in which our MATLAB is started, times out, an attach comes and `Stop` returns with the status down, while that MATLAB runs on; no call ends it afterwards |
| `Lifecycle.DownIsFinal` | internal/matlab/process.go:103-599 | in a reachable state that is down, the status stays down whatever happens until the next call exactly when every goroutine is past the point where it could still connect, or its context was cancelled before its command is started |
| `Lifecycle.ComesUp` | internal/matlab/process.go:103-599 | from a goroutine that is not, through an attach, a start or the start that follows a stop, there is a run without calls in which the status comes up |
| `Lifecycle.LateConnection` | internal/matlab/process.go:475-480 | having returned from `Stop` is not enough for that: from every reachable state that is down there is a run in which the status comes up after `Stop` has returned |
| `LifecycleCalls.StartBegins` | internal/matlab/process.go:103-148 | `Start` when down, step by step from any state: the status is starting, the connector gone, and a goroutine runs under a new context and channel |
| `LifecycleCalls.StartRefused` | internal/matlab/process.go:103-131 | it comes to nothing without a command, or when not down and not to restart |
| `LifecycleCalls.RestartStops` | internal/matlab/process.go:106-119 | one that restarts stops first, by force exactly when a `Stop` is stuck |
| `LifecycleCalls.RestartStarts` | internal/matlab/process.go:114-147 | and starts when that `Stop` is over, even if it only gave up waiting |
| `LifecycleCalls.AttachBegins` | internal/matlab/process.go:150-168 | `Attach` when down: the same, with `attached` set for good |
| `LifecycleCalls.AttachRefused` | internal/matlab/process.go:150-155 | otherwise it comes to nothing |
| `LifecycleCalls.RunConnects` | internal/matlab/process.go:410-486 | a run whose port is found and whose ping is answered: the status is up with its connector, and a poller begins |
| `LifecycleCalls.AttachConnects` | internal/matlab/process.go:177-215 | an attach whose ping is answered: the same with a foreign connector, and no poller |
| `LifecycleCalls.GivesUpEarly` | internal/matlab/process.go:177-333 | a run that cannot start its command, or an attach that nobody answers: the status is down, the channel closed, nothing started |
| `LifecycleCalls.TimesOutComingUp` | internal/matlab/process.go:410-488 | a MATLAB that does not come up in time: the status is down, and it runs on |
| `LifecycleCalls.RunEnds` | internal/matlab/process.go:362-408 | when the command exits the run forgets command and connector, is down and closes its channel |
| `LifecycleCalls.MonitorKeepsOn` | internal/matlab/process.go:217-267 | four polls of an attached process without an answer change nothing but the busy status |
| `LifecycleCalls.MonitorDetaches` | internal/matlab/process.go:217-267 | the fifth in a row detaches |
| `LifecycleCalls.MonitorForgives` | internal/matlab/process.go:217-267 | a busy status in between, and the count begins again; an answered ping alone leaves the count as it is |
| `LifecycleCalls.PollTells` | internal/matlab/process.go:490-519 | what a poll does to the busy status, whether it is answered, only its ping is, or nothing |
| `LifecycleCalls.PollEnds` | internal/matlab/process.go:490-502 | the poller ends with the connector or the context |
| `LifecycleCalls.StopReturns` | internal/matlab/process.go:541-599 | what each wait of `Stop` leaves when it is over, in time or not |
| `LifecycleCalls.StartThenStop` | internal/matlab/process.go:103-599 | from every reachable state that is down with nothing attached: `Start` brings MATLAB up, a `Stop` that is not forced asks it to exit and returns, all fields are as at first, and nothing was killed or cut off |
| `Lifecycle.Process.BeginAttach` | internal/matlab/process.go:150-160 | the critical section of `Attach`, which only a process that is down enters |
| `Lifecycle.Process.Connect` | internal/matlab/process.go:476-479 | the connection, keeping the fields safe |
| `Lifecycle.Process.BeginStop` | internal/matlab/process.go:522-533 | `Stop` reads a consistent view: an attached connector comes with `attached` |
| `Lease.PassesOn` | internal/session/session.go:62-115 | after a grant, the next poll of another client is granted exactly when it asks for a transfer, or the first was cleared since its last granted poll, or that is more than ten seconds ago |
| `Lease.KeepsOn` | internal/session/session.go:91-105 | while nobody else is granted, every poll of the client is: it keeps the lease by polling |
| `Lease.Holds` | internal/session/session.go:62-115 | between grants the first client has the lease as of its last granted poll, unless it was cleared |
| `Lease.FirstPoll` | internal/session/session.go:87-92 | the first poll of all is granted |
| `Lease.Manager.constructor` | internal/session/session.go:32-46 | nobody holds the lease at first |
| `Lease.Manager.SetActiveClient` | internal/session/session.go:62-105 | the method on the fields grants what the protocol says; without concurrency control everyone is active |

## Left out

- DOM, rendering, input, themes, accessibility and selection of xterm.js: user interface.
- `InputHandler` and the meaning of individual sequences: handlers are values here.
- Parser handlers that return promises, and the pausing and resuming they need.
- EscapeSequenceParser.EscapeSequenceParser.Parse: does not model `precedingJoinState`, the position in an error report, or an error handler that asks to abort or to change the state; handlers are values whose answers may depend on everything reported so far, and pieces of streamed text are compared joined together.
- ParserDelivery.OscDelivered: identifiers are unbounded numbers, where JavaScript rounds beyond 2^53.
- ParserIdentifiers.Identifier: its error messages are one refusal; the strings it is given are sequences of code units.
- Utf8.Utf8ToUtf32.Decode: the target must have room for the input; bytes are numbers, so masks and shifts appear as ranges, products and remainders.
- CircularList.CircularList.Pop: the list is not empty; the source would leave a length of -1.
- CircularList.CircularList.Splice: the range to delete lies within the list; the source would count elements that are not there.
- CircularList.CircularList.SetLength: shortens only; growing fills physical slots of the ring and rests on a caller that rewrites the whole list.
- CircularList.CircularList.SetMaxLength: for elements that fit; shrinking below the length rests on callers that trim first.
- CircularList.CircularList.ShiftElements: does not model a shift beyond the end of the list, which grows and trims it.
- Markers.Buffer.Push: marker identifiers, the dispose event and `clearMarkers` are not modelled.
- BufferService.BufferService.Scroll: lines are values; the cached blank row, the copying into a recycled row and the scroll event are not modelled. Resizing is not either.
- BufferLine.BufferLine.ReplaceCells: without protection; a cell is a content, a width and an attribute, and the side tables for combined characters and extended attributes are not modelled.
- ReflowLarger.Reflow: without the adjustment of cursor and viewport; the two numbers of a removal are one record.
- `_reflowSmaller` beyond the row lengths: the copying into new rows and the rebuilding of the list.
- MergeRanges.Merge: the list that the source edits in place is a sequence that is reassigned, so aliasing with the caller's list is not captured.
- WriteBuffer.WriteBuffer.Write: `writeSync`, the `onWriteParsed` event and actions that return promises are not modelled; time is a script of turns, and a re-entrant write that is refused is taken to be handled where it happens.
- Lifecycle.ComesUp: where a context is cancelled after its command was started, or while attaching, the run takes a `select` whose timer is due to prefer it to the cancellation, as the language allows, or a ping that was under way; a command that has exited meanwhile may still be taken to answer a ping, as whatever listens on the port read from its file might.
- Lifecycle.Always: errors, warnings, log lines, the display, the API key, files and the process environment are not modelled; closing a channel twice is taken as closing it once; there is no fairness.
- Lease.PassesOn: for clients with names and a clock that does not show the zero time; the idle countdown and the generation of client identifiers are left out.
- HTTP, WebSocket, TLS, terminals, process spawning and the MathWorks services: calls to the outside.
- Authentication, configuration, licensing, logging and installers: short branches that would add only easy members.
