/**
 * Uploading a heating program to the thermostat (`NewProgramEnterDialog`): the start
 * temperature setter, one fixed-width `SEG_` command per segment whose temperature is not
 * zero, the tolerance-band and cycle setters, the success rule over the collected replies,
 * and the "last entered program" record.
 */
module ProgramUpload {
  import opened Options
  import opened Serial
  import opened Decimal

  /** One program segment: target temperature in °C, duration in hours and minutes. */
  datatype Segment = Segment(temp: nat, hours: nat, minutes: nat)

  /** What the dialog holds when Enter is pressed. */
  datatype Program = Program(startTemp: nat, segments: seq<Segment>, toleranceBand: real, cycles: nat)

  /** The ranges the dialog's spin boxes allow. */
  predicate DialogRanges(p: Program)
  {
    && p.startTemp <= 250
    && |p.segments| == 5
    && (forall s :: s in p.segments ==> s.temp <= 250 && s.hours <= 9 && s.minutes <= 59)
    && 0.1 <= p.toleranceBand <= 9.9
    && 1 <= p.cycles <= 10
  }

  // ---------------------------------------------------------------- segment filter

  /** The segments whose temperature is not zero, in input order. */
  function Kept(segs: seq<Segment>): (k: seq<Segment>)
    ensures |k| <= |segs|
  {
    if segs == [] then []
    else (if segs[0].temp != 0 then [segs[0]] else []) + Kept(segs[1..])
  }

  /** The filter distributes over concatenation, so it keeps exactly the non-zero segments and keeps their order. */
  lemma {:induction false} KeptAppend(a: seq<Segment>, b: seq<Segment>)
    ensures Kept(a + b) == Kept(a) + Kept(b)
    decreases |a|
  {
    if a == [] {
      assert a + b == b;
    } else {
      assert (a + b)[1..] == a[1..] + b;
      KeptAppend(a[1..], b);
    }
  }

  /** Every kept segment is one of the input segments and has a non-zero temperature. */
  lemma {:induction false} KeptMembers(segs: seq<Segment>, s: Segment)
    requires s in Kept(segs)
    ensures s in segs && s.temp != 0
    decreases |segs|
  {
    if s != segs[0] || segs[0].temp == 0 {
      KeptMembers(segs[1..], s);
    }
  }

  lemma {:induction false} KeptEmpty(segs: seq<Segment>)
    ensures Kept(segs) == [] <==> forall s :: s in segs ==> s.temp == 0
    decreases |segs|
  {
    if segs != [] {
      KeptEmpty(segs[1..]);
      assert forall s :: s in segs ==> s == segs[0] || s in segs[1..];
    }
  }

  // ---------------------------------------------------------------- SEG command format

  /** `f'SEG_({i:02d})_{temperature:03d}.{hours:02d}:{minutes:02d}\r\n'`. */
  function SegCommand(i: nat, s: Segment): string
  {
    "SEG_(" + Pad(i, 2) + ")_" + Pad(s.temp, 3) + "." + Pad(s.hours, 2) + ":" + Pad(s.minutes, 2) + "\r\n"
  }

  /** The fields a SEG command carries. */
  datatype SegFields = SegFields(index: nat, temp: nat, hours: nat, minutes: nat)

  /** Reads a SEG command back: 20 characters, fixed punctuation, four digit fields. */
  function ParseSegCommand(c: string): Option<SegFields>
  {
    if |c| == 20 && c[..5] == "SEG_(" && c[7..9] == ")_" && c[12] == '.' && c[15] == ':' && c[18..] == "\r\n"
       && AllDigits(c[5..7]) && AllDigits(c[9..12]) && AllDigits(c[13..15]) && AllDigits(c[16..18])
    then Some(SegFields(Value(c[5..7]), Value(c[9..12]), Value(c[13..15]), Value(c[16..18])))
    else None
  }

  /** Field values that fit their widths (the dialog's ranges are well inside). */
  predicate Encodable(i: nat, s: Segment)
  {
    i < 100 && s.temp < 1000 && s.hours < 100 && s.minutes < 100
  }

  /** Every SEG command is 20 characters long and decodes to the index and segment it was built from. */
  lemma SegCommandRoundTrip(i: nat, s: Segment)
    requires Encodable(i, s)
    ensures |SegCommand(i, s)| == 20
    ensures ParseSegCommand(SegCommand(i, s)) == Some(SegFields(i, s.temp, s.hours, s.minutes))
  {
    PadRoundTrip(i, 2);
    PadRoundTrip(s.temp, 3);
    PadRoundTrip(s.hours, 2);
    PadRoundTrip(s.minutes, 2);
    var c := SegCommand(i, s);
    assert c[5..7] == Pad(i, 2);
    assert c[9..12] == Pad(s.temp, 3);
    assert c[13..15] == Pad(s.hours, 2);
    assert c[16..18] == Pad(s.minutes, 2);
  }

  /** Two SEG commands are equal only when they carry the same index and segment. */
  lemma SegCommandInjective(i: nat, s: Segment, j: nat, t: Segment)
    requires Encodable(i, s) && Encodable(j, t)
    requires SegCommand(i, s) == SegCommand(j, t)
    ensures i == j && s == t
  {
    SegCommandRoundTrip(i, s);
    SegCommandRoundTrip(j, t);
  }

  // ---------------------------------------------------------------- the command sequence

  /** `f'OUT_{Ts:.2f}\r\n'` for the integer start temperature. */
  function StartCommand(t: nat): string
  {
    "OUT_" + Dec(t) + ".00\r\n"
  }

  /** `f'OUT_TB{tolerance_band}\r\n'`; `show` renders a float as `str()` does. */
  function ToleranceCommand(tb: real, show: real -> string): string
  {
    "OUT_TB" + show(tb) + "\r\n"
  }

  /** `f'OUT_CY{cycles}\r\n'`. */
  function CyclesCommand(n: nat): string
  {
    "OUT_CY" + Dec(n) + "\r\n"
  }

  /** One SEG command per kept segment, indexed 0, 1, 2, ... over the kept ones. */
  function SegCommands(kept: seq<Segment>): (cs: seq<string>)
    ensures |cs| == |kept|
  {
    seq(|kept|, i requires 0 <= i < |kept| => SegCommand(i, kept[i]))
  }

  /** The tolerance-band and cycle setters, each only when its value is not zero. */
  function Setters(p: Program, show: real -> string): (cs: seq<string>)
    ensures |cs| == (if p.toleranceBand != 0.0 then 1 else 0) + (if p.cycles != 0 then 1 else 0)
  {
    (if p.toleranceBand != 0.0 then [ToleranceCommand(p.toleranceBand, show)] else [])
    + (if p.cycles != 0 then [CyclesCommand(p.cycles)] else [])
  }

  /** The commands an upload writes when no reply faults. */
  function UploadCommands(p: Program, show: real -> string): (cs: seq<string>)
    ensures |cs| == 1 + |Kept(p.segments)| + |Setters(p, show)|
  {
    [StartCommand(p.startTemp)] + SegCommands(Kept(p.segments)) + Setters(p, show)
  }

  /** Within the dialog's ranges every SEG command has the documented 20-character shape,
      and the segment part of the upload lists exactly the non-zero segments in order. */
  lemma UploadSegmentsWellFormed(p: Program, show: real -> string, j: nat)
    requires DialogRanges(p) && j < |Kept(p.segments)|
    ensures var k := Kept(p.segments)[j];
            var c := UploadCommands(p, show)[1 + j];
            |c| == 20 && k.temp != 0 && k in p.segments
            && ParseSegCommand(c) == Some(SegFields(j, k.temp, k.hours, k.minutes))
  {
    var k := Kept(p.segments)[j];
    KeptMembers(p.segments, k);
    assert |Kept(p.segments)| <= 5;
    SegCommandRoundTrip(j, k);
  }

  // ---------------------------------------------------------------- the saved record

  /** One column of the "last entered program" CSV record. */
  datatype Field = Field(key: string, value: string)

  /** `f"Temp: {t}, Hours: {h}, minutes: {m}"`. */
  function SegmentText(s: Segment): string
  {
    "Temp: " + Dec(s.temp) + ", Hours: " + Dec(s.hours) + ", minutes: " + Dec(s.minutes)
  }

  /** `f"Segment {n}"`. */
  function SegmentKey(n: nat): string
  {
    "Segment " + Dec(n)
  }

  /** The record `saveLastentered` writes: `Last Updated`, `Start Temperature`, then
      `Segment 1 .. n` with the kept segments in order, numbered without gaps. */
  ghost predicate IsLastEntered(r: seq<Field>, p: Program, stamp: string)
  {
    var kept := Kept(p.segments);
    && |r| == 2 + |kept|
    && r[0] == Field("Last Updated", stamp)
    && r[1] == Field("Start Temperature", Dec(p.startTemp))
    && forall j :: 0 <= j < |kept| ==> r[2 + j] == Field(SegmentKey(j + 1), SegmentText(kept[j]))
  }

  /** The record's keys are pairwise distinct, so building it as a dictionary loses nothing. */
  lemma RecordKeysDistinct(r: seq<Field>, p: Program, stamp: string, a: nat, b: nat)
    requires IsLastEntered(r, p, stamp)
    requires a < b < |r|
    ensures r[a].key != r[b].key
  {
    var kept := Kept(p.segments);
    if 2 <= b {
      var jb := b - 2;
      assert r[2 + jb] == Field(SegmentKey(jb + 1), SegmentText(kept[jb]));
      if 2 <= a {
        var ja := a - 2;
        assert r[2 + ja] == Field(SegmentKey(ja + 1), SegmentText(kept[ja]));
        if r[a].key == r[b].key {
          assert Dec(ja + 1) == SegmentKey(ja + 1)[8..];
          assert Dec(jb + 1) == SegmentKey(jb + 1)[8..];
          DecInjective(ja + 1, jb + 1);
        }
      } else {
        assert r[b].key[1] == 'e';
        assert r[a].key[1] != 'e';
      }
    }
  }

  /** `saveLastentered`: collects the non-zero segments, then numbers them from 1. */
  method SaveLastEntered(p: Program, stamp: string) returns (r: seq<Field>)
    ensures IsLastEntered(r, p, stamp)
  {
    r := [Field("Last Updated", stamp), Field("Start Temperature", Dec(p.startTemp))];
    var values: seq<Segment> := [];
    var i := 0;
    while i < |p.segments|
      invariant 0 <= i <= |p.segments|
      invariant values == Kept(p.segments[..i])
    {
      var s := p.segments[i];
      KeptAppend(p.segments[..i], [s]);
      assert p.segments[..i + 1] == p.segments[..i] + [s];
      if s.temp != 0 {
        values := values + [s];
      }
      i := i + 1;
    }
    assert p.segments[..i] == p.segments;
    var n := 0;
    while n < |values|
      invariant 0 <= n <= |values|
      invariant |r| == 2 + n
      invariant r[0] == Field("Last Updated", stamp)
      invariant r[1] == Field("Start Temperature", Dec(p.startTemp))
      invariant forall j :: 0 <= j < n ==> r[2 + j] == Field(SegmentKey(j + 1), SegmentText(values[j]))
    {
      r := r + [Field(SegmentKey(n + 1), SegmentText(values[n]))];
      n := n + 1;
    }
  }

  // ---------------------------------------------------------------- the upload

  datatype UploadOutcome =
    | NoConnection
      /** The reply to command number `at` raised; nothing after it was sent. */
    | Interrupted(at: nat)
      /** All commands answered: `acks` is `programm_ok`, `record` what was saved. */
    | Finished(acks: seq<string>, accepted: bool, record: Option<seq<Field>>)

  /** Writes the commands in turn, reading one reply after each and collecting the texts;
      the first reply that raises ends the run. */
  method SendEach(ser: Link, cs: seq<string>) returns (acks: seq<string>, fault: Option<nat>)
    modifies ser
    ensures Transcript(ser.script, old(ser.written), ser.written, cs, acks, fault)
  {
    acks := [];
    var i := 0;
    TranscriptEmpty(ser.script, ser.written);
    while i < |cs|
      invariant 0 <= i <= |cs|
      invariant Transcript(ser.script, old(ser.written), ser.written, cs[..i], acks, None)
    {
      ghost var mid := ser.written;
      var r := ser.Query(cs[i]);
      TranscriptExtend(ser.script, old(ser.written), mid, cs[..i], acks, cs[i], r);
      assert cs[..i] + [cs[i]] == cs[..i + 1];
      if r.Fault? {
        TranscriptStop(ser.script, old(ser.written), ser.written, cs[..i + 1], acks, i, cs[i + 1..], acks);
        assert cs[..i + 1] + cs[i + 1..] == cs;
        return acks, Some(i);
      }
      acks := acks + [r.text];
      i := i + 1;
    }
    assert cs[..i] == cs;
    return acks, None;
  }

  /** The tolerance-band and cycle setters as the dialog sends them, each only when its value
      is not zero. */
  method SendSetters(ser: Link, p: Program, show: real -> string) returns (acks: seq<string>, fault: Option<nat>)
    modifies ser
    ensures Transcript(ser.script, old(ser.written), ser.written, Setters(p, show), acks, fault)
  {
    var tb := if p.toleranceBand != 0.0 then [ToleranceCommand(p.toleranceBand, show)] else [];
    var cy := if p.cycles != 0 then [CyclesCommand(p.cycles)] else [];
    assert Setters(p, show) == tb + cy;
    acks := [];
    assert Window(ser.script, |ser.written|, 0) == [];
    assert Transcript(ser.script, old(ser.written), ser.written, [], acks, None);
    if p.toleranceBand != 0.0 {
      var r := ser.Query(ToleranceCommand(p.toleranceBand, show));
      TranscriptOne(ser.script, old(ser.written), tb[0], r);
      if r.Fault? {
        TranscriptStop(ser.script, old(ser.written), ser.written, tb, acks, 0, cy, acks);
        return acks, Some(0);
      }
      acks := acks + [r.text];
    }
    ghost var mid := ser.written;
    if p.cycles != 0 {
      var r := ser.Query(CyclesCommand(p.cycles));
      TranscriptOne(ser.script, mid, cy[0], r);
      TranscriptThen(ser.script, old(ser.written), mid, ser.written, tb, cy, acks,
                     if r.Line? then [r.text] else [], if r.Fault? then Some(0) else None);
      if r.Fault? {
        return acks, Some(|tb|);
      }
      acks := acks + [r.text];
    } else {
      assert tb + cy == tb;
    }
    return acks, None;
  }

  /** The start temperature setter followed by the SEG commands, one reply read after each. */
  method SendHead(ser: Link, p: Program) returns (replies: seq<string>, fault: Option<nat>)
    modifies ser
    ensures Transcript(ser.script, old(ser.written), ser.written,
                       [StartCommand(p.startTemp)] + SegCommands(Kept(p.segments)), replies, fault)
  {
    var first := StartCommand(p.startTemp);
    var segs := SegCommands(Kept(p.segments));
    var r := ser.Query(first);
    TranscriptOne(ser.script, old(ser.written), first, r);
    if r.Fault? {
      TranscriptStop(ser.script, old(ser.written), ser.written, [first], [], 0, segs, []);
      return [], Some(0);
    }
    ghost var m1 := ser.written;
    var segAcks, segFault := SendEach(ser, segs);
    TranscriptThen(ser.script, old(ser.written), m1, ser.written, [first], segs, [r.text], segAcks, segFault);
    replies := [r.text] + segAcks;
    fault := if segFault.None? then None else Some(1 + segFault.value);
  }

  /** The write/read part of `enter_button_clicked`: `replies` are the texts read after the
      start temperature, each segment and each setter, in order. */
  method Transmit(ser: Link, p: Program, show: real -> string) returns (replies: seq<string>, fault: Option<nat>)
    modifies ser
    ensures Transcript(ser.script, old(ser.written), ser.written, UploadCommands(p, show), replies, fault)
  {
    var head := [StartCommand(p.startTemp)] + SegCommands(Kept(p.segments));
    ghost var tail := Setters(p, show);
    assert UploadCommands(p, show) == head + tail;
    var acks, headFault := SendHead(ser, p);
    if headFault.Some? {
      TranscriptStop(ser.script, old(ser.written), ser.written, head, acks, headFault.value, tail, []);
      return [], headFault;
    }
    ghost var m := ser.written;
    var more, setFault := SendSetters(ser, p, show);
    TranscriptThen(ser.script, old(ser.written), m, ser.written, head, tail, acks, more, setFault);
    replies := acks + more;
    fault := if setFault.None? then None else Some(|head| + setFault.value);
  }

  /** `enter_button_clicked`: the upload protocol and its success rule `len(programm_ok) > 2`.
      The reply to the start temperature is read but not collected into `programm_ok`. */
  method EnterProgram(ser: Link?, p: Program, show: real -> string, stamp: string) returns (out: UploadOutcome)
    modifies ser
    ensures ser == null ==> out == NoConnection
    ensures ser != null ==>
      var cmds := UploadCommands(p, show);
      var w := Window(ser.script, |old(ser.written)|, |cmds|);
      && (out.Finished? || out.Interrupted?)
      && (out.Finished? <==> Clean(w))
      && (out.Interrupted? ==> FirstFault(w, out.at) && ser.written == old(ser.written) + cmds[..out.at + 1])
      && (out.Finished? ==>
            && ser.written == old(ser.written) + cmds
            && out.acks == Texts(w[1..])
            && out.accepted == (|cmds| - 1 > 2)
            && (out.accepted ==> out.record.Some? && IsLastEntered(out.record.value, p, stamp))
            && (!out.accepted ==> out.record == None))
  {
    if ser == null {
      return NoConnection;
    }
    var replies, fault := Transmit(ser, p, show);
    if fault.Some? {
      return Interrupted(fault.value);
    }
    var acks := replies[1..];
    ghost var w := Window(ser.script, |old(ser.written)|, |UploadCommands(p, show)|);
    assert acks == Texts(w[1..]);
    var accepted := |acks| > 2;
    var record: Option<seq<Field>> := None;
    if accepted {
      var saved := SaveLastEntered(p, stamp);
      record := Some(saved);
    }
    out := Finished(acks, accepted, record);
  }

  /** Within the dialog's ranges the tolerance-band and cycle setters are always sent, so an
      upload whose replies all arrive is accepted exactly when some segment temperature is not
      zero, whatever the replies say. */
  lemma AcceptedIffSomeSegment(p: Program, show: real -> string)
    requires DialogRanges(p)
    ensures |UploadCommands(p, show)| - 1 == |Kept(p.segments)| + 2
    ensures (|UploadCommands(p, show)| - 1 > 2) <==> exists s :: s in p.segments && s.temp != 0
  {
    KeptEmpty(p.segments);
  }

  /** Success does not depend on what the device answers: an upload to a thermostat that no
      longer answers runs to the end, every read timing out, and is still accepted when some
      segment temperature is not zero. */
  lemma SilentDeviceAccepted(p: Program, show: real -> string, script: seq<Reply>, base: nat)
    requires DialogRanges(p) && base >= |script|
    requires exists s :: s in p.segments && s.temp != 0
    ensures var cmds := UploadCommands(p, show);
      Clean(Window(script, base, |cmds|)) && |cmds| - 1 > 2
  {
    SilentWindow(script, base, |UploadCommands(p, show)|);
    AcceptedIffSomeSegment(p, show);
  }
}
