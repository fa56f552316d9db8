/**
  * The line each MIDI message kind is rendered as, after the delta column.
  * Channel-voice lines are fixed-width columns: a left-aligned label, a
  * right-aligned channel, then right-aligned data fields separated by single
  * spaces. System-exclusive lines list the payload bytes in hexadecimal, and
  * system common and realtime lines are a literal prefix and the status in
  * hexadecimal. For each kind a parser reads the line back, and the round-trip
  * lemmas show that the layout loses nothing.
  */
module Lines {
  import opened Wrappers
  import opened Text
  import opened OStream

  const DeltaWidth: nat := 10
  const LabelWidth: nat := 23
  const ChannelWidth: nat := 2
  /** Width of note, velocity, controller, program and aftertouch values. */
  const DataWidth: nat := 3
  /** Width of the pitch-bend value, which may carry a '-' sign. */
  const BendWidth: nat := 5
  const SysexLabelWidth: nat := 26

  const SysexLabel: string := "system exclusive"
  const CommonPrefix: string := "system common: "
  const RealtimePrefix: string := "system realtime: "

  /** The delta column: whole milliseconds in width 10 under the stream's current adjustment, then a space. */
  function DeltaField(ms: int, adjust: Adjust): (r: string)
  {
    Fill(Decimal(ms), DeltaWidth, adjust) + " "
  }

  /** Right-aligned decimal data fields separated by single spaces. */
  function Fields(data: seq<int>, width: nat): (r: string)
    requires |data| >= 1
    decreases |data|
  {
    if |data| == 1 then Fill(Decimal(data[0]), width, Right)
    else Fill(Decimal(data[0]), width, Right) + " " + Fields(data[1..], width)
  }

  /** A channel-voice line: label, channel and data fields, then the line break. */
  function VoiceLine(name: string, channel: int, data: seq<int>, width: nat): (r: string)
    requires |data| >= 1
  {
    Fill(name, LabelWidth, Left) + Fill(Decimal(channel), ChannelWidth, Right) + " " + Fields(data, width) + "\n"
  }

  /** What a reader of the monitor's output recovers from a channel-voice line. */
  datatype Voice = Voice(name: string, channel: int, data: seq<int>)

  /** Reads `n` right-aligned decimal fields of the given width, separated by single spaces. */
  function ParseFields(s: string, width: nat, n: nat): (r: Option<seq<int>>)
    decreases n
  {
    if n == 0 || |s| < width then None
    else match ParseInt(TrimLeft(s[..width]))
      case None => None
      case Some(x) =>
        if n == 1 then (if |s| == width then Some([x]) else None)
        else if |s| == width || s[width] != ' ' then None
        else match ParseFields(s[width + 1..], width, n - 1)
          case None => None
          case Some(rest) => Some([x] + rest)
  }

  /** Reads a channel-voice line back by its columns. */
  function ParseVoiceLine(line: string, width: nat, n: nat): (r: Option<Voice>)
  {
    var channelEnd := LabelWidth + ChannelWidth;
    if |line| < channelEnd + 2 || line[|line| - 1] != '\n' || line[channelEnd] != ' ' then None
    else match (ParseInt(TrimLeft(line[LabelWidth..channelEnd])), ParseFields(line[channelEnd + 1..|line| - 1], width, n))
      case (Some(c), Some(d)) => Some(Voice(TrimRight(line[..LabelWidth]), c, d))
      case _ => None
  }

  /** Every value needs at most `width` characters, so no field overflows its column. */
  predicate Fits(data: seq<int>, width: nat)
  {
    data == [] || (|Decimal(data[0])| <= width && Fits(data[1..], width))
  }

  lemma ParseFieldsLast(s: string, width: nat, x: int)
    requires |s| == width && ParseInt(TrimLeft(s)) == Some(x)
    ensures ParseFields(s, width, 1) == Some([x])
  {
    assert s[..width] == s;
  }

  lemma ParseFieldsCons(first: string, tail: string, width: nat, n: nat, x: int, rest: seq<int>)
    requires |first| == width && ParseInt(TrimLeft(first)) == Some(x)
    requires n >= 2 && ParseFields(tail, width, n - 1) == Some(rest)
    ensures ParseFields(first + " " + tail, width, n) == Some([x] + rest)
  {
    var s := first + " " + tail;
    assert s[..width] == first && s[width] == ' ' && s[width + 1..] == tail;
  }

  lemma {:induction false} FieldsRoundTrip(data: seq<int>, width: nat)
    requires |data| >= 1 && Fits(data, width)
    ensures ParseFields(Fields(data, width), width, |data|) == Some(data)
    decreases |data|
  {
    var first := Fill(Decimal(data[0]), width, Right);
    assert |first| == width && ParseInt(TrimLeft(first)) == Some(data[0]) by {
      assert |Decimal(data[0])| <= width;
      RightFieldRoundTrip(data[0], width);
    }
    if |data| == 1 {
      ParseFieldsLast(first, width, data[0]);
      assert [data[0]] == data;
    } else {
      var rest := data[1..];
      var tail := Fields(rest, width);
      assert ParseFields(tail, width, |rest|) == Some(rest) by {
        FieldsRoundTrip(rest, width);
      }
      assert Fields(data, width) == first + " " + tail;
      ParseFieldsCons(first, tail, width, |data|, data[0], rest);
      assert [data[0]] + rest == data;
    }
  }

  lemma {:induction false} FieldsLength(data: seq<int>, width: nat)
    requires |data| >= 1 && Fits(data, width)
    ensures |Fields(data, width)| + 1 == |data| * (width + 1)
    decreases |data|
  {
    var first := Fill(Decimal(data[0]), width, Right);
    assert |first| == width by {
      assert |Decimal(data[0])| <= width;
    }
    if |data| > 1 {
      var rest := data[1..];
      FieldsLength(rest, width);
      assert |Fields(data, width)| == width + 1 + |Fields(rest, width)| by {
        assert Fields(data, width) == first + " " + Fields(rest, width);
      }
      MulStep(|rest|, width + 1);
    }
  }

  lemma MulStep(a: nat, b: nat)
    ensures (a + 1) * b == a * b + b
  {
  }

  /**
    * The columns of a channel-voice line: the label fills 23 characters, the
    * channel the next two, a space follows, and each data field takes `width`
    * characters plus its separator. Reading the columns back gives the label,
    * the channel and the data as they were written, negative values included.
    */
  lemma VoiceLineRoundTrip(name: string, channel: int, data: seq<int>, width: nat)
    requires |name| <= LabelWidth && (name == [] || name[|name| - 1] != ' ')
    requires |Decimal(channel)| <= ChannelWidth
    requires |data| >= 1 && Fits(data, width)
    ensures |VoiceLine(name, channel, data, width)| == LabelWidth + ChannelWidth + 1 + |data| * (width + 1)
    ensures ParseVoiceLine(VoiceLine(name, channel, data, width), width, |data|) == Some(Voice(name, channel, data))
  {
    var l := Fill(name, LabelWidth, Left);
    var c := Fill(Decimal(channel), ChannelWidth, Right);
    var f := Fields(data, width);
    assert |l| == LabelWidth && TrimRight(l) == name by {
      LeftFieldRoundTrip(name, LabelWidth);
    }
    assert |c| == ChannelWidth && ParseInt(TrimLeft(c)) == Some(channel) by {
      RightFieldRoundTrip(channel, ChannelWidth);
    }
    FieldsRoundTrip(data, width);
    FieldsLength(data, width);
    ParseColumns(l, c, f, name, channel, data, width);
  }

  /** Reading back the columns of a line assembled from a label, a channel and the data fields. */
  lemma ParseColumns(l: string, c: string, f: string, name: string, channel: int, data: seq<int>, width: nat)
    requires |l| == LabelWidth && TrimRight(l) == name
    requires |c| == ChannelWidth && ParseInt(TrimLeft(c)) == Some(channel)
    requires ParseFields(f, width, |data|) == Some(data)
    ensures ParseVoiceLine(l + c + " " + f + "\n", width, |data|) == Some(Voice(name, channel, data))
  {
    var line := l + c + " " + f + "\n";
    assert line[..LabelWidth] == l;
    assert line[LabelWidth..LabelWidth + ChannelWidth] == c;
    assert line[LabelWidth + ChannelWidth] == ' ';
    assert line[LabelWidth + ChannelWidth + 1..|line| - 1] == f;
  }

  /**
    * Channel-voice messages within their MIDI ranges never overflow a column:
    * channels 0-15 in width 2, seven-bit values in width 3 and fourteen-bit
    * signed pitch-bend values in width 5, so every such line reads back exactly.
    */
  lemma MidiVoiceLineRoundTrip(name: string, channel: int, data: seq<int>, width: nat)
    requires |name| <= LabelWidth && (name == [] || name[|name| - 1] != ' ')
    requires 0 <= channel < 16
    requires |data| >= 1
    requires (width == DataWidth && forall i | 0 <= i < |data| :: 0 <= data[i] < 128)
          || (width == BendWidth && forall i | 0 <= i < |data| :: -8192 <= data[i] < 8192)
    ensures |VoiceLine(name, channel, data, width)| == LabelWidth + ChannelWidth + 1 + |data| * (width + 1)
    ensures ParseVoiceLine(VoiceLine(name, channel, data, width), width, |data|) == Some(Voice(name, channel, data))
  {
    assert Pow(10, 1) == 10 && Pow(10, 2) == 100;
    DecimalFits(channel, ChannelWidth);
    MidiValuesFit(data, width);
    VoiceLineRoundTrip(name, channel, data, width);
  }

  lemma {:induction false} MidiValuesFit(data: seq<int>, width: nat)
    requires (width == DataWidth && forall i | 0 <= i < |data| :: 0 <= data[i] < 128)
          || (width == BendWidth && forall i | 0 <= i < |data| :: -8192 <= data[i] < 8192)
    ensures Fits(data, width)
    decreases |data|
  {
    if data != [] {
      assert Pow(10, 1) == 10 && Pow(10, 2) == 100 && Pow(10, 3) == 1000 && Pow(10, 4) == 10000;
      DecimalFits(data[0], width);
      assert forall i | 0 <= i < |data| - 1 :: data[1..][i] == data[i + 1];
      MidiValuesFit(data[1..], width);
    }
  }

  /** `data[i] & 0xff`: a payload byte (a signed or unsigned `char`) as an unsigned value. */
  function Mask(b: int): (r: nat)
    ensures r < 256
    ensures 0 <= b < 256 ==> r == b
    ensures -128 <= b < 0 ==> r == b + 256
  {
    b % 256
  }

  /** The payload as the unsigned bytes it is printed as. */
  function Masked(data: seq<int>): (r: seq<nat>)
  {
    if data == [] then [] else [Mask(data[0])] + Masked(data[1..])
  }

  /** Each payload byte in hexadecimal, each followed by one space. */
  function HexBytes(data: seq<int>): (r: string)
  {
    if data == [] then [] else Text.Hex(Mask(data[0])) + " " + HexBytes(data[1..])
  }

  /** A system-exclusive line: the label padded to 26, then the payload bytes. */
  function SysexLine(data: seq<int>): (r: string)
  {
    Fill(SysexLabel, SysexLabelWidth, Left) + HexBytes(data) + "\n"
  }

  /** The index of the first space in `s`, or `|s|` when there is none. */
  function SpaceIndex(s: string): (i: nat)
    ensures i <= |s| && (i < |s| ==> s[i] == ' ')
    ensures forall j | 0 <= j < i :: s[j] != ' '
  {
    if s == [] || s[0] == ' ' then 0 else 1 + SpaceIndex(s[1..])
  }

  /** Reads a sequence of hexadecimal numerals, each terminated by a space. */
  function ParseHexBytes(s: string): (r: Option<seq<nat>>)
    decreases |s|
  {
    if s == [] then Some([])
    else
      var i := SpaceIndex(s);
      if i == |s| then None
      else match (ParseHex(s[..i]), ParseHexBytes(s[i + 1..]))
        case (Some(b), Some(rest)) => Some([b] + rest)
        case _ => None
  }

  lemma {:induction false} HexBytesRoundTrip(data: seq<int>)
    ensures ParseHexBytes(HexBytes(data)) == Some(Masked(data))
    decreases |data|
  {
    if data != [] {
      var s := HexBytes(data);
      var h := Text.Hex(Mask(data[0]));
      HexRoundTrip(Mask(data[0]));
      assert s == h + " " + HexBytes(data[1..]);
      assert SpaceIndex(s) == |h| by {
        forall j | 0 <= j < |h| ensures s[j] != ' ' {
          assert s[j] == h[j] && h[j] in h;
        }
        assert s[|h|] == ' ';
      }
      assert s[..|h|] == h;
      assert s[|h| + 1..] == HexBytes(data[1..]);
      HexBytesRoundTrip(data[1..]);
    }
  }

  lemma {:induction false} HexBytesSnoc(data: seq<int>, b: int)
    ensures HexBytes(data + [b]) == HexBytes(data) + Text.Hex(Mask(b)) + " "
    decreases |data|
  {
    if data == [] {
      assert [] + [b] == [b];
    } else {
      assert (data + [b])[1..] == data[1..] + [b];
      HexBytesSnoc(data[1..], b);
    }
  }

  /**
    * A system-exclusive line is "system exclusive" padded to 26 characters,
    * then one lower-case hexadecimal numeral per payload byte, masked to
    * 0..255, each followed by a space. An empty payload leaves the padded label.
    */
  lemma SysexLineRoundTrip(data: seq<int>)
    ensures |SysexLine(data)| >= SysexLabelWidth + 1
    ensures SysexLine(data)[..SysexLabelWidth] == SysexLabel + Spaces(SysexLabelWidth - |SysexLabel|)
    ensures ParseHexBytes(SysexLine(data)[SysexLabelWidth..|SysexLine(data)| - 1]) == Some(Masked(data))
    ensures data == [] <==> SysexLine(data) == SysexLabel + Spaces(SysexLabelWidth - |SysexLabel|) + "\n"
  {
    var line := SysexLine(data);
    var l := Fill(SysexLabel, SysexLabelWidth, Left);
    assert l == SysexLabel + Spaces(SysexLabelWidth - |SysexLabel|);
    assert line == l + HexBytes(data) + "\n";
    assert line[..SysexLabelWidth] == l;
    assert line[SysexLabelWidth..|line| - 1] == HexBytes(data);
    HexBytesRoundTrip(data);
    if data != [] {
      HexRoundTrip(Mask(data[0]));
      assert |HexBytes(data)| > 0;
    }
  }

  /** A system common or realtime line: the literal prefix, then the status as `std::hex` writes an `int`. */
  function SystemLine(prefix: string, status: int): (r: string)
  {
    prefix + Text.Hex(status % IntModulus) + "\n"
  }

  /**
    * The status reads back from a system line in hexadecimal. A status byte
    * 0..255 is written as itself, at most two digits; a negative `int` is
    * written as its 32-bit two's complement.
    */
  lemma SystemLineRoundTrip(prefix: string, status: int)
    ensures SystemLine(prefix, status)[..|prefix|] == prefix
    ensures ParseHex(SystemLine(prefix, status)[|prefix|..|SystemLine(prefix, status)| - 1]) == Some(status % IntModulus)
    ensures 0 <= status < 256 ==> status % IntModulus == status && |SystemLine(prefix, status)| <= |prefix| + 3
    ensures -0x8000_0000 <= status < 0 ==> status % IntModulus == status + 0x1_0000_0000
  {
    var line := SystemLine(prefix, status);
    var h := Text.Hex(status % IntModulus);
    assert line[..|prefix|] == prefix && line[|prefix|..|line| - 1] == h by {
      assert line == prefix + h + "\n";
    }
    HexRoundTrip(status % IntModulus);
    if 0 <= status < 256 {
      assert |h| <= 2 by {
        assert Pow(16, 2) == 256 by {
          assert Pow(16, 1) == 16;
        }
        NumeralLength(status, 16, 2);
      }
    }
  }

  /** Note on, channel 0, note 60, velocity 100, character for character. */
  lemma NoteOnExample()
    ensures VoiceLine("note on", 0, [60, 100], DataWidth) == "note on                 0  60 100\n"
  {
    var l, c := Fill("note on", LabelWidth, Left), Fill(Decimal(0), ChannelWidth, Right);
    var f := Fields([60, 100], DataWidth);
    ExampleColumns();
    assert VoiceLine("note on", 0, [60, 100], DataWidth) == l + c + " " + f + "\n";
  }

  lemma ExampleColumns()
    ensures Fill("note on", LabelWidth, Left) == "note on                "
    ensures Fill(Decimal(0), ChannelWidth, Right) == " 0"
    ensures Fields([60, 100], DataWidth) == " 60 100"
  {
    assert Spaces(16) == "                ";
    assert Decimal(0) == "0" && Spaces(1) == " ";
    ExampleDataFields();
  }

  lemma ExampleDataFields()
    ensures Fields([60, 100], DataWidth) == " 60 100"
  {
    assert Fill(Decimal(60), DataWidth, Right) == " 60" by {
      assert Decimal(60) == "60" by {
        assert Numeral(6, 10) == "6";
      }
      assert Spaces(1) == " ";
    }
    assert Fill(Decimal(100), DataWidth, Right) == "100" by {
      assert Decimal(100) == "100" by {
        assert Numeral(10, 10) == "10" by {
          assert Numeral(1, 10) == "1";
        }
      }
    }
    assert [60, 100][1..] == [100];
  }

  /** The payload F0 01 F7 is written "f0 1 f7 ": no zero padding, a space after each byte. */
  lemma SysexExample()
    ensures HexBytes([0xF0, 0x01, 0xF7]) == "f0 1 f7 "
  {
    assert Numeral(0xF0, 16) == "f0" by { assert Numeral(15, 16) == "f"; }
    assert Numeral(0xF7, 16) == "f7" by { assert Numeral(15, 16) == "f"; }
    assert [0xF0, 0x01, 0xF7][1..] == [0x01, 0xF7];
    assert [0x01, 0xF7][1..] == [0xF7];
    assert [0xF7][1..] == [];
  }
}
