# dumpmidi-rt: the MIDI monitor's line formatter and port selection

`dumpmidi-rt` is a command-line MIDI monitor. A MIDI backend decodes incoming
messages into integers or byte arrays and calls one slot of a `DumpMIDI`
object per message. Each slot writes one line to standard output. The line
starts with the milliseconds since the previous line in a 10-wide column.
Then comes a fixed-width label and the message's fields:

- channel-voice messages get width-padded decimal fields;
- system-exclusive, system-common and system-realtime messages get unpadded
  lower-case hexadecimal.

Before the event loop starts, `main` picks the input connection to open from
the backend's list:

- `std::remove_if` moves the named connections to the front;
- `std::find_if` looks for the `--port` name;
- `first()` is the fallback.

This project models both parts in Dafny:

- `Text` (text.dfy): padding to a stream width (`Fill`), decimal and
  lower-case hexadecimal numerals, and their parsers. Round-trip lemmas link
  each rendering to its parser.
- `OStream` (ostream.dfy): the part of `std::cout` the monitor relies on, as
  a class. It holds the text written so far, the sticky `adjustfield`
  (`std::left`/`std::right`) and `basefield` (`std::dec`/`std::hex`), and the
  one-shot `std::setw` width. Integers written under `std::hex` are reduced
  modulo 2^32, as `unsigned int` of the same bits.
- `Timing` (timing.dfy): the delta column. The clock is an integer count of
  nanosecond ticks, and each delta is truncated toward zero, as
  `duration_cast` does.
- `Lines` (lines.dfy): the layout of each kind of line as functions. Parsers
  read the lines back, and lemmas show that the columns lose nothing when the
  values are within their MIDI ranges.
- `Monitor` (monitor.dfy): the `DumpMIDI` class. It holds `m_last` and
  shares the stream. Each slot is a method that performs the source's
  sequence of stream operations, and its contract says exactly which text is
  appended and what format state is left behind.
- `Ports` (ports.dfy): the in-place `remove_if` on an array, `find_if`, and
  the selection with its warning.

Behaviour of the code that the model keeps:

- The adjustment is sticky. After a system-exclusive line the stream stays
  `std::left`, so the delta column of the next line is left-aligned rather
  than right-aligned. `Monitor.SysexThenNoteOn` proves this.
- `first()` is called on the connection list without any check, which is
  undefined behaviour for an empty list. `Ports.SelectPort` therefore
  requires a non-empty list.
- The result of `remove_if` is discarded, so the list keeps its length. The
  unnamed connections stay in it, behind the named ones. `remove_if` moves
  entries, and the move assignment of a `QString` exchanges the two strings,
  so the entries are swapped rather than copied.
  - If no connection is named, nothing moves, and the first, unnamed,
    connection is opened.
  - An empty `--port` name matches the first unnamed entry left behind the
    named ones, and that entry is opened without a warning. With "Synth A",
    an unnamed connection and "Synth B", the unnamed connection ends up last
    and is the one opened (`Ports.EmptyPortNameExample`).
  - `Ports.SelectAfterCompaction` proves that every other selection agrees
    with the list of named connections alone.
- Every output line starts with the delta column; no option leaves it out.

## Model

| member | source | states |
|---|---|---|
| Text.Fill | dumpmidi.cpp:56-59 | a field written under `setw(width)` has length max(width, text length); left adjustment appends spaces and right adjustment prepends them, and the text itself is kept whole, so it is never truncated and a '-' sign survives |
| Text.Decimal | dumpmidi.cpp:57-59 | a decimal insertion is a '-' sign for a negative value, then the digits of the magnitude |
| Text.NumeralRoundTrip | dumpmidi.cpp:119 | a numeral has only digits of its radix, starts with '0' only for zero (no leading zeros), and reads back as its value |
| Text.NumeralLength | dumpmidi.cpp:57-59 | a number below radix^k needs at most k digits |
| Text.DecimalRoundTrip | dumpmidi.cpp:57-59 | a decimal insertion, sign included, reads back as the integer and contains no space |
| Text.HexRoundTrip | dumpmidi.cpp:119 | a `std::hex` insertion reads back as the value, is non-empty, contains no space and has no leading zero |
| Text.Hex | dumpmidi.cpp:119 | a `std::hex` insertion of an unsigned value is its lower-case base-16 digits, with no "0x" and no padding |
| Text.DecimalFits | dumpmidi.cpp:57-59 | a value between -10^(k-1) and 10^k exclusive takes at most k characters in decimal |
| Text.TrimLeftPadding | dumpmidi.cpp:57-59 | dropping leading spaces from right-aligned padding gives back the text |
| Text.TrimRightPadding | dumpmidi.cpp:56 | dropping trailing spaces from left-aligned padding gives back the text |
| Text.RightFieldRoundTrip | dumpmidi.cpp:57-59 | a right-aligned decimal field of any width reads back as the value written into it |
| Text.LeftFieldRoundTrip | dumpmidi.cpp:56 | a left-aligned label reads back as itself once the padding is dropped |
| OStream.Render | dumpmidi.cpp:119 | an integer is written in decimal under `std::dec`, and under `std::hex` as the hex digits of the unsigned integer of the same width |
| OStream.Stream.constructor | dumpmidi.cpp:48 | standard output starts empty, decimal, width 0, padding on the right |
| OStream.Stream.SetWidth | dumpmidi.cpp:48 | `std::setw` sets the pending width and nothing else |
| OStream.Stream.SetLeft | dumpmidi.cpp:56 | `std::left` sets the adjustment and nothing else |
| OStream.Stream.SetRight | dumpmidi.cpp:57 | `std::right` sets the adjustment and nothing else |
| OStream.Stream.SetHex | dumpmidi.cpp:119 | `std::hex` sets the base and nothing else |
| OStream.Stream.SetDec | dumpmidi.cpp:121 | `std::dec` sets the base and nothing else |
| OStream.Stream.PutString | dumpmidi.cpp:56 | a string insertion appends the string padded to the pending width under the current adjustment, then the width is 0 again |
| OStream.Stream.PutInteger | dumpmidi.cpp:57 | an integer insertion appends the value in the current base (hex as the unsigned value of the same width), padded, then the width is 0 again |
| OStream.Stream.EndLine | dumpmidi.cpp:59 | `std::endl` appends a line break and leaves width, adjustment and base alone |
| Timing.MsBetween | dumpmidi.cpp:47 | the delta is the tick difference truncated toward zero to whole milliseconds: non-negative and less than one millisecond short for a forward clock, non-positive and less than one millisecond over for a backward one |
| Timing.Deltas | dumpmidi.cpp:44-50 | one printed delta per clock reading |
| Timing.DeltasBounds | dumpmidi.cpp:44-50 | with a non-decreasing clock every printed delta is at least 0; the printed deltas sum to at most the elapsed milliseconds since construction, and fall short by less than one millisecond per line |
| Timing.DeltasSnoc | dumpmidi.cpp:47-49 | a new reading adds exactly one delta, measured from the previous reading |
| Lines.DeltaField | dumpmidi.cpp:48 | the delta column is the milliseconds in decimal padded to width 10 under the current adjustment, then a space |
| Lines.Fields | dumpmidi.cpp:58-59 | data fields are right-aligned decimals of the given width separated by single spaces |
| Lines.VoiceLine | dumpmidi.cpp:53-60 | a channel-voice line is the label padded on the right to 23, the channel right-aligned in 2, a space, the data fields and a line break |
| Lines.FieldsRoundTrip | dumpmidi.cpp:58-59 | data fields that fit their width read back, in order, from the space-separated columns |
| Lines.FieldsLength | dumpmidi.cpp:58-59 | n fields of width w take n*(w+1)-1 characters |
| Lines.VoiceLineRoundTrip | dumpmidi.cpp:53-111 | a channel-voice line is the 23-wide label, the 2-wide channel, a space and the data fields; it has that exact length and reads back as label, channel and data |
| Lines.MidiVoiceLineRoundTrip | dumpmidi.cpp:53-111 | channels 0-15, seven-bit values in width 3 and pitch-bend values -8192..8191 in width 5 never overflow their columns, so every such line reads back exactly |
| Lines.MidiValuesFit | dumpmidi.cpp:58-110 | seven-bit values fit width 3 and signed fourteen-bit values fit width 5 |
| Lines.Mask | dumpmidi.cpp:118 | `data[i] & 0xff` is below 256, keeps a byte 0..255 and adds 256 to a negative `char` |
| Lines.HexBytes | dumpmidi.cpp:117-120 | the payload is each masked byte in hex followed by one space |
| Lines.SysexLine | dumpmidi.cpp:116-121 | a system-exclusive line is "system exclusive" padded on the right to 26, the payload bytes and a line break |
| Lines.HexBytesRoundTrip | dumpmidi.cpp:117-120 | the payload written as hex numerals, each followed by one space, reads back as the masked payload |
| Lines.HexBytesSnoc | dumpmidi.cpp:117-120 | one more loop iteration appends exactly that byte's numeral and a space |
| Lines.SysexLineRoundTrip | dumpmidi.cpp:113-122 | a system-exclusive line is "system exclusive" padded to 26, then the payload that reads back as the masked bytes, then the line break; the line is just the padded label exactly when the payload is empty |
| Lines.SystemLine | dumpmidi.cpp:127-133 | a system line is its literal prefix, the status in hex as an unsigned 32-bit value, and a line break |
| Lines.SystemLineRoundTrip | dumpmidi.cpp:124-134 | a system line is the prefix, then the status in hex, which reads back as the status modulo 2^32: a status byte as itself in at most two digits, a negative `int` as its two's complement |
| Lines.NoteOnExample | dumpmidi.cpp:53-60 | note on, channel 0, note 60, velocity 100 is written "note on" padded to 23, " 0", " 60", "100" with single spaces between |
| Lines.SysexExample | dumpmidi.cpp:117-120 | the payload F0 01 F7 is written "f0 1 f7 ": no zero padding and a space after each byte |
| Monitor.DumpMidi.constructor | dumpmidi.cpp:38-42 | `m_last` starts at the clock reading of construction and nothing has been printed |
| Monitor.DumpMidi.Valid | dumpmidi.cpp:44-50 | between slots the stream writes decimal with no width pending, and `m_last` is the latest clock reading |
| Monitor.DumpMidi.DeltaOut | dumpmidi.cpp:44-50 | appends the truncated milliseconds since `m_last` in width 10 under the current adjustment, then a space; `m_last` becomes now; one more delta is recorded; base stays decimal and no width is left pending |
| Monitor.DumpMidi.NoteOn | dumpmidi.cpp:53-60 | appends exactly the delta field and the "note on" channel-voice line of channel, note and velocity; leaves the stream right-aligned and decimal |
| Monitor.DumpMidi.NoteOff | dumpmidi.cpp:62-69 | appends exactly the delta field and the "note off" line of channel, note and velocity; leaves the stream right-aligned and decimal |
| Monitor.DumpMidi.KeyPressure | dumpmidi.cpp:71-78 | appends exactly the delta field and the "polyphonic aftertouch" line of channel, note and pressure; leaves the stream right-aligned and decimal |
| Monitor.DumpMidi.Controller | dumpmidi.cpp:80-87 | appends exactly the delta field and the "control change" line of channel, controller and value; leaves the stream right-aligned and decimal |
| Monitor.DumpMidi.Program | dumpmidi.cpp:89-95 | appends exactly the delta field and the "program change" line with one width-3 value; leaves the stream right-aligned and decimal |
| Monitor.DumpMidi.ChannelPressure | dumpmidi.cpp:97-103 | appends exactly the delta field and the "channel aftertouch" line with one width-3 value; leaves the stream right-aligned and decimal |
| Monitor.DumpMidi.PitchBend | dumpmidi.cpp:105-111 | appends exactly the delta field and the "pitch bend" line with one width-5 signed value; leaves the stream right-aligned and decimal |
| Monitor.DumpMidi.Sysex | dumpmidi.cpp:113-122 | appends exactly the delta field and the system-exclusive line; the base is decimal again but the adjustment stays left |
| Monitor.DumpMidi.PayloadOut | dumpmidi.cpp:117-120 | the loop appends each masked byte in hex followed by a space, with no padding; afterwards the base is hex if any byte was written |
| Monitor.DumpMidi.SystemCommon | dumpmidi.cpp:124-128 | appends exactly the delta field and "system common: " with the status in hex; base back to decimal, adjustment unchanged |
| Monitor.DumpMidi.SystemRealtime | dumpmidi.cpp:130-134 | appends exactly the delta field and "system realtime: " with the status in hex; base back to decimal, adjustment unchanged |
| Monitor.SysexThenNoteOn | dumpmidi.cpp:48-116 | on a fresh standard output a system-exclusive line's delta is right-aligned, but the following note-on line's delta is left-aligned |
| Ports.Named | dumpmidi.cpp:207-209 | the named connections are at most as many as all connections |
| Ports.NamedAppend | dumpmidi.cpp:207-209 | the named connections keep their relative order |
| Ports.NamedMembers | dumpmidi.cpp:207-209 | the named connections are exactly the entries with a non-empty name, and there are none exactly when every name is empty |
| Ports.CompactFrom | dumpmidi.cpp:207-209 | `remove_if` on values: each later named entry is swapped to the write position, which then advances; the list keeps its length and the write position never passes the end |
| Ports.CompactedShape | dumpmidi.cpp:207-209 | the pass returns the number of named connections, puts them in front in their order, leaves only unnamed entries behind them, loses and duplicates nothing, and moves nothing when no connection is named |
| Ports.RemoveEmptyNames | dumpmidi.cpp:207-209 | the in-place pass leaves the array and returns the position that the pass on values (`Compacted`) gives; so the returned position is the number of named connections, they are in front in their order, every entry after them is unnamed, the array is a permutation of the old one, and with no named connection it is unchanged |
| Ports.FindByName | dumpmidi.cpp:219-223 | the position of the first entry with exactly the requested name, or the end when no entry has it |
| Ports.NotAvailable | dumpmidi.cpp:227 | the warning is "Port ", the requested name and " not available." |
| Ports.SelectPort | dumpmidi.cpp:217-232 | without `--port`, the first entry and no warning; with it, no warning exactly when some entry has that name, and then the first such entry; otherwise the warning "Port <name> not available." and the first entry |
| Ports.FindInPrefix | dumpmidi.cpp:219-223 | a match found in a prefix is the match found in the whole list |
| Ports.SelectAfterCompaction | dumpmidi.cpp:207-232 | for any list whose named connections are in front in order and whose other entries are unnamed: when some connection is named and the requested name is absent or non-empty, the choice is the one the named connections alone give, so the fallback is the first named connection; an empty requested name opens the first entry behind the named ones, without a warning, whenever one is unnamed |
| Ports.MissingPortExample | dumpmidi.cpp:224-229 | requesting "Synth C" among "Synth A" and "Synth B" warns "Port Synth C not available." and opens "Synth A" |
| Ports.EmptyPortNameExample | dumpmidi.cpp:207-225 | compacting "Synth A", an unnamed connection and "Synth B" and requesting the empty name opens the unnamed connection, swapped to the end, without a warning |
| Ports.ChoosePort | dumpmidi.cpp:205-232 | the choice is the selection made in the list as compacted in place; the compacted list has the named connections in front in order, only unnamed entries behind them, the same entries as before, and is unchanged when no connection is named |

## Left out

- The clock: `steady_clock::now()` becomes a tick count passed to each slot and to the constructor.
- Timing.MsBetween: the 64-bit `long` tick and millisecond counts are unbounded integers; overflow after centuries of uptime is not modelled.
- Output goes to a text field of the stream; flushing, `std::cerr` as a separate stream and I/O errors are not modelled. The warning of the port selection is returned as a value.
- Ports.RemoveEmptyNames: each move of `remove_if` is modelled as an exchange of the two connections. This holds for the names, whose `QString` move assignment swaps. For the backend identifier it holds where `QVariant` move assignment swaps too (Qt 5); where a moved-from `QVariant` is left null instead, the unnamed entries behind the named ones would carry null identifiers, which the model does not capture.
- Ports.SelectPort: requires a non-empty list, because `first()` of an empty list is undefined behaviour in the source.
- Qt signal/slot wiring, the `Q_OBJECT` machinery, `QCommandLineParser` with the help and version exits, the signal handlers and the event loop: framework plumbing outside the formatter and the selection.
- Driver lookup, `connections`, `open` and `backendName` of the backend: the connection list is an input and the opened connection is the returned value.
- The platform default driver, the `--list` printout and the startup banner: constant strings and plain output.
- Monitor.DumpMidi: the slot parameters are 32-bit `int` values, but the values a backend delivers (channel, note, velocity, controller, program, pressure, pitch bend) are not range-checked by the source and are not constrained in the model either; the layout lemmas take the MIDI ranges as preconditions.
