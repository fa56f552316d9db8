/**
  * The `DumpMIDI` object: one method per MIDI message kind, each writing one
  * line to standard output. The object's only field is the clock reading of
  * the previous line; the format state that the lines leave behind lives in
  * the shared stream. The clock is a parameter: every call receives the
  * reading `steady_clock::now()` would have returned.
  */
module Monitor {
  import opened Text
  import opened OStream
  import opened Timing
  import opened Lines

  /** A C++ `int`. */
  type Int32 = x: int | -0x8000_0000 <= x < 0x8000_0000

  class DumpMidi {
    /** `m_last`: the clock reading of the previous line, in ticks. */
    var last: int
    /** `std::cout`, shared with everything else that writes to standard output. */
    const cout: Stream
    /** The clock reading at construction, and every reading taken since. */
    ghost var start: int
    ghost var stamps: seq<int>

    /**
      * Between calls the stream writes decimal with no width pending, and
      * `last` is the latest clock reading. The adjustment is free: it is
      * whatever the previous line left.
      */
    ghost predicate Valid()
      reads this, cout
    {
      cout.base == Dec && cout.width == 0 && last == LastStamp(start, stamps)
    }

    /** The deltas printed so far, one per line. */
    ghost function Printed(): seq<int>
      reads this
    {
      Deltas(start, stamps)
    }

    constructor (now: int, out: Stream)
      requires out.base == Dec && out.width == 0
      ensures Valid()
      ensures cout == out && start == now && stamps == [] && Printed() == []
    {
      last := now;
      cout := out;
      start := now;
      stamps := [];
    }

    /** `delta_out`: the whole milliseconds since the previous line, in width 10, and a space; then `m_last := now`. */
    method DeltaOut(now: int)
      requires Valid()
      modifies this, cout
      ensures Valid() && cout.adjust == old(cout.adjust)
      ensures cout.text == old(cout.text) + DeltaField(MsBetween(old(last), now), old(cout.adjust))
      ensures last == now && start == old(start) && stamps == old(stamps) + [now]
      ensures Printed() == old(Printed()) + [MsBetween(old(last), now)]
    {
      var delta := MsBetween(last, now);
      cout.SetWidth(DeltaWidth);
      cout.PutInteger(delta, LongModulus);
      cout.PutString(" ");
      last := now;
      stamps := stamps + [now];
      DeltasSnoc(start, old(stamps), now);
    }

    /** `noteOn`: delta, then "note on", channel, note and velocity. */
    method NoteOn(now: int, chan: Int32, note: Int32, vel: Int32)
      requires Valid()
      modifies this, cout
      ensures Valid() && cout.adjust == Right
      ensures cout.text == old(cout.text) + DeltaField(MsBetween(old(last), now), old(cout.adjust))
                           + VoiceLine("note on", chan, [note, vel], DataWidth)
      ensures last == now && start == old(start) && stamps == old(stamps) + [now]
    {
      DeltaOut(now);
      ghost var t0 := cout.text;
      cout.SetWidth(LabelWidth); cout.SetLeft(); cout.PutString("note on");
      ghost var t1 := cout.text;
      cout.SetWidth(ChannelWidth); cout.SetRight(); cout.PutInteger(chan, IntModulus); cout.PutString(" ");
      ghost var t2 := cout.text;
      cout.SetWidth(DataWidth); cout.PutInteger(note, IntModulus); cout.PutString(" ");
      ghost var t3 := cout.text;
      cout.SetWidth(DataWidth); cout.PutInteger(vel, IntModulus); cout.EndLine();
      Unpadded(" ", Right);
      AppendTwoFields(old(cout.text), DeltaField(MsBetween(old(last), now), old(cout.adjust)),
                      Fill("note on", LabelWidth, Left), Fill(Decimal(chan), ChannelWidth, Right),
                      Fill(Decimal(note), DataWidth, Right), Fill(Decimal(vel), DataWidth, Right),
                      t0, t1, t2, t3, cout.text);
      VoiceLineOfTwo("note on", chan, note, vel, DataWidth);
    }

    /** `noteOff`: delta, then "note off", channel, note and velocity. */
    method NoteOff(now: int, chan: Int32, note: Int32, vel: Int32)
      requires Valid()
      modifies this, cout
      ensures Valid() && cout.adjust == Right
      ensures cout.text == old(cout.text) + DeltaField(MsBetween(old(last), now), old(cout.adjust))
                           + VoiceLine("note off", chan, [note, vel], DataWidth)
      ensures last == now && start == old(start) && stamps == old(stamps) + [now]
    {
      DeltaOut(now);
      ghost var t0 := cout.text;
      cout.SetWidth(LabelWidth); cout.SetLeft(); cout.PutString("note off");
      ghost var t1 := cout.text;
      cout.SetWidth(ChannelWidth); cout.SetRight(); cout.PutInteger(chan, IntModulus); cout.PutString(" ");
      ghost var t2 := cout.text;
      cout.SetWidth(DataWidth); cout.PutInteger(note, IntModulus); cout.PutString(" ");
      ghost var t3 := cout.text;
      cout.SetWidth(DataWidth); cout.PutInteger(vel, IntModulus); cout.EndLine();
      Unpadded(" ", Right);
      AppendTwoFields(old(cout.text), DeltaField(MsBetween(old(last), now), old(cout.adjust)),
                      Fill("note off", LabelWidth, Left), Fill(Decimal(chan), ChannelWidth, Right),
                      Fill(Decimal(note), DataWidth, Right), Fill(Decimal(vel), DataWidth, Right),
                      t0, t1, t2, t3, cout.text);
      VoiceLineOfTwo("note off", chan, note, vel, DataWidth);
    }

    /** `keyPressure`: delta, then "polyphonic aftertouch", channel, note and pressure. */
    method KeyPressure(now: int, chan: Int32, note: Int32, value: Int32)
      requires Valid()
      modifies this, cout
      ensures Valid() && cout.adjust == Right
      ensures cout.text == old(cout.text) + DeltaField(MsBetween(old(last), now), old(cout.adjust))
                           + VoiceLine("polyphonic aftertouch", chan, [note, value], DataWidth)
      ensures last == now && start == old(start) && stamps == old(stamps) + [now]
    {
      DeltaOut(now);
      ghost var t0 := cout.text;
      cout.SetWidth(LabelWidth); cout.SetLeft(); cout.PutString("polyphonic aftertouch");
      ghost var t1 := cout.text;
      cout.SetWidth(ChannelWidth); cout.SetRight(); cout.PutInteger(chan, IntModulus); cout.PutString(" ");
      ghost var t2 := cout.text;
      cout.SetWidth(DataWidth); cout.PutInteger(note, IntModulus); cout.PutString(" ");
      ghost var t3 := cout.text;
      cout.SetWidth(DataWidth); cout.PutInteger(value, IntModulus); cout.EndLine();
      Unpadded(" ", Right);
      AppendTwoFields(old(cout.text), DeltaField(MsBetween(old(last), now), old(cout.adjust)),
                      Fill("polyphonic aftertouch", LabelWidth, Left), Fill(Decimal(chan), ChannelWidth, Right),
                      Fill(Decimal(note), DataWidth, Right), Fill(Decimal(value), DataWidth, Right),
                      t0, t1, t2, t3, cout.text);
      VoiceLineOfTwo("polyphonic aftertouch", chan, note, value, DataWidth);
    }

    /** `controller`: delta, then "control change", channel, controller number and value. */
    method Controller(now: int, chan: Int32, control: Int32, value: Int32)
      requires Valid()
      modifies this, cout
      ensures Valid() && cout.adjust == Right
      ensures cout.text == old(cout.text) + DeltaField(MsBetween(old(last), now), old(cout.adjust))
                           + VoiceLine("control change", chan, [control, value], DataWidth)
      ensures last == now && start == old(start) && stamps == old(stamps) + [now]
    {
      DeltaOut(now);
      ghost var t0 := cout.text;
      cout.SetWidth(LabelWidth); cout.SetLeft(); cout.PutString("control change");
      ghost var t1 := cout.text;
      cout.SetWidth(ChannelWidth); cout.SetRight(); cout.PutInteger(chan, IntModulus); cout.PutString(" ");
      ghost var t2 := cout.text;
      cout.SetWidth(DataWidth); cout.PutInteger(control, IntModulus); cout.PutString(" ");
      ghost var t3 := cout.text;
      cout.SetWidth(DataWidth); cout.PutInteger(value, IntModulus); cout.EndLine();
      Unpadded(" ", Right);
      AppendTwoFields(old(cout.text), DeltaField(MsBetween(old(last), now), old(cout.adjust)),
                      Fill("control change", LabelWidth, Left), Fill(Decimal(chan), ChannelWidth, Right),
                      Fill(Decimal(control), DataWidth, Right), Fill(Decimal(value), DataWidth, Right),
                      t0, t1, t2, t3, cout.text);
      VoiceLineOfTwo("control change", chan, control, value, DataWidth);
    }

    /** `program`: delta, then "program change", channel and program number. */
    method Program(now: int, chan: Int32, program: Int32)
      requires Valid()
      modifies this, cout
      ensures Valid() && cout.adjust == Right
      ensures cout.text == old(cout.text) + DeltaField(MsBetween(old(last), now), old(cout.adjust))
                           + VoiceLine("program change", chan, [program], DataWidth)
      ensures last == now && start == old(start) && stamps == old(stamps) + [now]
    {
      DeltaOut(now);
      ghost var t0 := cout.text;
      cout.SetWidth(LabelWidth); cout.SetLeft(); cout.PutString("program change");
      ghost var t1 := cout.text;
      cout.SetWidth(ChannelWidth); cout.SetRight(); cout.PutInteger(chan, IntModulus); cout.PutString(" ");
      ghost var t2 := cout.text;
      cout.SetWidth(DataWidth); cout.PutInteger(program, IntModulus); cout.EndLine();
      Unpadded(" ", Right);
      AppendOneField(old(cout.text), DeltaField(MsBetween(old(last), now), old(cout.adjust)),
                     Fill("program change", LabelWidth, Left), Fill(Decimal(chan), ChannelWidth, Right),
                     Fill(Decimal(program), DataWidth, Right), t0, t1, t2, cout.text);
      VoiceLineOfOne("program change", chan, program, DataWidth);
    }

    /** `channelPressure`: delta, then "channel aftertouch", channel and pressure. */
    method ChannelPressure(now: int, chan: Int32, value: Int32)
      requires Valid()
      modifies this, cout
      ensures Valid() && cout.adjust == Right
      ensures cout.text == old(cout.text) + DeltaField(MsBetween(old(last), now), old(cout.adjust))
                           + VoiceLine("channel aftertouch", chan, [value], DataWidth)
      ensures last == now && start == old(start) && stamps == old(stamps) + [now]
    {
      DeltaOut(now);
      ghost var t0 := cout.text;
      cout.SetWidth(LabelWidth); cout.SetLeft(); cout.PutString("channel aftertouch");
      ghost var t1 := cout.text;
      cout.SetWidth(ChannelWidth); cout.SetRight(); cout.PutInteger(chan, IntModulus); cout.PutString(" ");
      ghost var t2 := cout.text;
      cout.SetWidth(DataWidth); cout.PutInteger(value, IntModulus); cout.EndLine();
      Unpadded(" ", Right);
      AppendOneField(old(cout.text), DeltaField(MsBetween(old(last), now), old(cout.adjust)),
                     Fill("channel aftertouch", LabelWidth, Left), Fill(Decimal(chan), ChannelWidth, Right),
                     Fill(Decimal(value), DataWidth, Right), t0, t1, t2, cout.text);
      VoiceLineOfOne("channel aftertouch", chan, value, DataWidth);
    }

    /** `pitchBend`: delta, then "pitch bend", channel and the signed value in width 5. */
    method PitchBend(now: int, chan: Int32, value: Int32)
      requires Valid()
      modifies this, cout
      ensures Valid() && cout.adjust == Right
      ensures cout.text == old(cout.text) + DeltaField(MsBetween(old(last), now), old(cout.adjust))
                           + VoiceLine("pitch bend", chan, [value], BendWidth)
      ensures last == now && start == old(start) && stamps == old(stamps) + [now]
    {
      DeltaOut(now);
      ghost var t0 := cout.text;
      cout.SetWidth(LabelWidth); cout.SetLeft(); cout.PutString("pitch bend");
      ghost var t1 := cout.text;
      cout.SetWidth(ChannelWidth); cout.SetRight(); cout.PutInteger(chan, IntModulus); cout.PutString(" ");
      ghost var t2 := cout.text;
      cout.SetWidth(BendWidth); cout.PutInteger(value, IntModulus); cout.EndLine();
      Unpadded(" ", Right);
      AppendOneField(old(cout.text), DeltaField(MsBetween(old(last), now), old(cout.adjust)),
                     Fill("pitch bend", LabelWidth, Left), Fill(Decimal(chan), ChannelWidth, Right),
                     Fill(Decimal(value), BendWidth, Right), t0, t1, t2, cout.text);
      VoiceLineOfOne("pitch bend", chan, value, BendWidth);
    }

    /**
      * `sysex`: delta, the label, then each payload byte masked to 0..255 in
      * hexadecimal followed by a space. The base goes back to decimal at the
      * end; the left adjustment set for the label stays.
      */
    method Sysex(now: int, data: seq<int>)
      requires Valid()
      modifies this, cout
      ensures Valid() && cout.adjust == Left
      ensures cout.text == old(cout.text) + DeltaField(MsBetween(old(last), now), old(cout.adjust)) + SysexLine(data)
      ensures last == now && start == old(start) && stamps == old(stamps) + [now]
    {
      DeltaOut(now);
      ghost var t0 := cout.text;
      cout.SetWidth(SysexLabelWidth); cout.SetLeft(); cout.PutString(SysexLabel); cout.SetWidth(0);
      ghost var labelled := cout.text;
      PayloadOut(data);
      ghost var payload := cout.text;
      cout.SetDec();
      cout.EndLine();
      AppendSysex(old(cout.text), DeltaField(MsBetween(old(last), now), old(cout.adjust)),
                  Fill(SysexLabel, SysexLabelWidth, Left), HexBytes(data), t0, labelled, payload, cout.text);
    }

    /**
      * The loop of `sysex`: each payload byte masked to 0..255, written in
      * hexadecimal with no width, and a space. Only the stream changes.
      */
    method PayloadOut(data: seq<int>)
      requires cout.width == 0
      modifies cout
      ensures cout.text == old(cout.text) + HexBytes(data)
      ensures cout.width == 0 && cout.adjust == old(cout.adjust)
      ensures data == [] ==> cout.base == old(cout.base)
      ensures data != [] ==> cout.base == Hex
    {
      for i := 0 to |data|
        invariant cout.text == old(cout.text) + HexBytes(data[..i])
        invariant cout.width == 0 && cout.adjust == old(cout.adjust)
        invariant i == 0 ==> cout.base == old(cout.base)
        invariant i > 0 ==> cout.base == Hex
      {
        ghost var before := cout.text;
        var digits := Mask(data[i]);
        cout.SetHex();
        cout.PutInteger(digits, IntModulus);
        ghost var written := cout.text;
        cout.PutString(" ");
        HexByte(digits, cout.adjust);
        Unpadded(" ", cout.adjust);
        HexBytesPrefix(data, i);
        AppendByte(old(cout.text), HexBytes(data[..i]), Text.Hex(Mask(data[i])), before, written, cout.text);
      }
      assert data[..|data|] == data;
    }

    /** `systemCommon`: delta, "system common: " and the status in hexadecimal; base back to decimal. */
    method SystemCommon(now: int, status: Int32)
      requires Valid()
      modifies this, cout
      ensures Valid() && cout.adjust == old(cout.adjust)
      ensures cout.text == old(cout.text) + DeltaField(MsBetween(old(last), now), old(cout.adjust))
                           + SystemLine(CommonPrefix, status)
      ensures last == now && start == old(start) && stamps == old(stamps) + [now]
    {
      DeltaOut(now);
      ghost var t0 := cout.text;
      cout.PutString(CommonPrefix);
      ghost var t1 := cout.text;
      cout.SetHex(); cout.PutInteger(status, IntModulus);
      ghost var t2 := cout.text;
      cout.SetDec(); cout.EndLine();
      Unpadded(CommonPrefix, cout.adjust);
      Unpadded(Text.Hex(status % IntModulus), cout.adjust);
      AppendSystem(old(cout.text), DeltaField(MsBetween(old(last), now), old(cout.adjust)),
                   CommonPrefix, Text.Hex(status % IntModulus), t0, t1, t2, cout.text);
    }

    /** `systemRealtime`: delta, "system realtime: " and the status in hexadecimal; base back to decimal. */
    method SystemRealtime(now: int, status: Int32)
      requires Valid()
      modifies this, cout
      ensures Valid() && cout.adjust == old(cout.adjust)
      ensures cout.text == old(cout.text) + DeltaField(MsBetween(old(last), now), old(cout.adjust))
                           + SystemLine(RealtimePrefix, status)
      ensures last == now && start == old(start) && stamps == old(stamps) + [now]
    {
      DeltaOut(now);
      ghost var t0 := cout.text;
      cout.PutString(RealtimePrefix);
      ghost var t1 := cout.text;
      cout.SetHex(); cout.PutInteger(status, IntModulus);
      ghost var t2 := cout.text;
      cout.SetDec(); cout.EndLine();
      Unpadded(RealtimePrefix, cout.adjust);
      Unpadded(Text.Hex(status % IntModulus), cout.adjust);
      AppendSystem(old(cout.text), DeltaField(MsBetween(old(last), now), old(cout.adjust)),
                   RealtimePrefix, Text.Hex(status % IntModulus), t0, t1, t2, cout.text);
    }
  }

  /*
    * The slots append their output piece by piece; these lemmas regroup the
    * pieces into a delta field and one line, on strings in general.
    */

  lemma AppendTwoFields(o: string, d: string, l: string, c: string, x: string, y: string,
                        t0: string, t1: string, t2: string, t3: string, t4: string)
    requires t0 == o + d && t1 == t0 + l && t2 == t1 + c + " " && t3 == t2 + x + " " && t4 == t3 + y + "\n"
    ensures t4 == o + d + (l + c + " " + x + " " + y + "\n")
  {
  }

  lemma AppendOneField(o: string, d: string, l: string, c: string, x: string,
                       t0: string, t1: string, t2: string, t3: string)
    requires t0 == o + d && t1 == t0 + l && t2 == t1 + c + " " && t3 == t2 + x + "\n"
    ensures t3 == o + d + (l + c + " " + x + "\n")
  {
  }

  lemma AppendByte(l: string, p: string, h: string, t0: string, t1: string, t2: string)
    requires t0 == l + p && t1 == t0 + h && t2 == t1 + " "
    ensures t2 == l + (p + h + " ")
  {
  }

  lemma AppendSysex(o: string, d: string, l: string, p: string, t0: string, t1: string, t2: string, t3: string)
    requires t0 == o + d && t1 == t0 + l && t2 == t1 + p && t3 == t2 + "\n"
    ensures t3 == o + d + (l + p + "\n")
  {
  }

  lemma AppendSystem(o: string, d: string, p: string, h: string, t0: string, t1: string, t2: string, t3: string)
    requires t0 == o + d && t1 == t0 + p && t2 == t1 + h && t3 == t2 + "\n"
    ensures t3 == o + d + (p + h + "\n")
  {
  }

  lemma HexBytesPrefix(data: seq<int>, i: nat)
    requires i < |data|
    ensures HexBytes(data[..i + 1]) == HexBytes(data[..i]) + Text.Hex(Mask(data[i])) + " "
  {
    assert data[..i + 1] == data[..i] + [data[i]];
    HexBytesSnoc(data[..i], data[i]);
  }

  lemma HexByte(b: nat, adjust: Adjust)
    requires b < 256
    ensures Fill(Render(b, IntModulus, Hex), 0, adjust) == Text.Hex(b)
  {
  }

  lemma Unpadded(s: string, adjust: Adjust)
    ensures Fill(s, 0, adjust) == s
  {
  }

  lemma VoiceLineOfTwo(name: string, chan: int, a: int, b: int, width: nat)
    ensures VoiceLine(name, chan, [a, b], width)
            == Fill(name, LabelWidth, Left) + Fill(Decimal(chan), ChannelWidth, Right) + " "
               + Fill(Decimal(a), width, Right) + " " + Fill(Decimal(b), width, Right) + "\n"
  {
    var x, y := Fill(Decimal(a), width, Right), Fill(Decimal(b), width, Right);
    assert Fields([a, b], width) == x + " " + y by {
      assert [a, b][1..] == [b];
    }
    Regroup(Fill(name, LabelWidth, Left) + Fill(Decimal(chan), ChannelWidth, Right) + " ", Fields([a, b], width), x, y);
  }

  lemma Regroup(p: string, f: string, x: string, y: string)
    requires f == x + " " + y
    ensures p + f + "\n" == p + x + " " + y + "\n"
  {
  }

  lemma VoiceLineOfOne(name: string, chan: int, a: int, width: nat)
    ensures VoiceLine(name, chan, [a], width)
            == Fill(name, LabelWidth, Left) + Fill(Decimal(chan), ChannelWidth, Right) + " "
               + Fill(Decimal(a), width, Right) + "\n"
  {
    assert Fields([a], width) == Fill(Decimal(a), width, Right);
  }

  /**
    * The adjustment is sticky: on a fresh standard output the first delta is
    * right-aligned, but a system-exclusive line leaves `std::left` behind, so
    * the delta of the next line is left-aligned until a channel-voice line
    * sets `std::right` again at its channel field.
    */
  method SysexThenNoteOn(t0: int, t1: int, t2: int, data: seq<int>, chan: Int32, note: Int32, vel: Int32)
    returns (text: string)
    ensures text == DeltaField(MsBetween(t0, t1), Right) + SysexLine(data)
                    + DeltaField(MsBetween(t1, t2), Left) + VoiceLine("note on", chan, [note, vel], DataWidth)
  {
    var out := new Stream();
    var dump := new DumpMidi(t0, out);
    dump.Sysex(t1, data);
    ghost var first := out.text;
    dump.NoteOn(t2, chan, note, vel);
    text := out.text;
    AppendLines(DeltaField(MsBetween(t0, t1), Right), SysexLine(data),
                DeltaField(MsBetween(t1, t2), Left), VoiceLine("note on", chan, [note, vel], DataWidth), first, text);
  }

  lemma AppendLines(d1: string, l1: string, d2: string, l2: string, t1: string, t2: string)
    requires t1 == [] + d1 + l1 && t2 == t1 + d2 + l2
    ensures t2 == d1 + l1 + d2 + l2
  {
  }
}
