/**
 * Setting the thermostat's control values and controller parameters
 * (`ReglerParameterDialog`): setpoint, lower and upper switching points, the control
 * source, and the Xp, Tn, Tv parameters, one command and one reply each. The values
 * count as entered when at least one reply is `OK`.
 */
module ControllerParams {
  import opened Options
  import opened Serial

  /** The two entries of the "Sw Quelle" drop-down. */
  const ReactorT1: string := "T1 (im Reaktor)"
  const FlowTi: string := "Ti (im Vorlauf)"

  /** What the dialog holds when Enter is pressed; `source` is the drop-down's current text. */
  datatype Settings = Settings(setpoint: real, low: real, high: real, source: string,
                               xp: real, tn: real, tv: real)

  /** The control-source command: `OUT_RT1` for the reactor sensor, `OUT_RTi` for the flow
      sensor, none for any other text. */
  function SourceCommands(source: string): (cs: seq<string>)
    ensures |cs| <= 1
    ensures |cs| == 1 <==> source == ReactorT1 || source == FlowTi
  {
    if source == ReactorT1 then ["OUT_RT1\r\n"]
    else if source == FlowTi then ["OUT_RTi\r\n"]
    else []
  }

  /** The commands in the order they are written; `fixed2` renders a float as `%.2f` does. */
  function ControllerCommands(s: Settings, fixed2: real -> string): (cs: seq<string>)
    ensures |cs| == 6 + |SourceCommands(s.source)|
  {
    ["OUT_" + fixed2(s.setpoint) + "\r\n",
     "OUT_L" + fixed2(s.low) + "\r\n",
     "OUT_H" + fixed2(s.high) + "\r\n"]
    + SourceCommands(s.source)
    + ["OUT_XP" + fixed2(s.xp) + "\r\n",
       "OUT_TN" + fixed2(s.tn) + "\r\n",
       "OUT_TV" + fixed2(s.tv) + "\r\n"]
  }

  /** `out_all`: the replies in eight fixed slots, both control-source slots empty except the
      one whose command was sent. */
  function OutAll(replies: seq<string>, source: string): (all: seq<string>)
    requires |replies| == 6 + |SourceCommands(source)|
    ensures |all| == 8
    ensures all[..3] == replies[..3] && all[5..] == replies[|replies| - 3..]
    ensures all[3] == (if source == ReactorT1 then replies[3] else "")
    ensures all[4] == (if source == FlowTi && source != ReactorT1 then replies[3] else "")
  {
    var k := |replies| - 3;
    replies[..3]
    + (if source == ReactorT1 then [replies[3], ""]
       else if source == FlowTi then ["", replies[3]]
       else ["", ""])
    + replies[k..]
  }

  /** `out_ok`: the slots that read `OK`, in order. */
  function OkReplies(all: seq<string>): (ok: seq<string>)
    ensures |ok| <= |all|
    ensures forall j :: 0 <= j < |ok| ==> ok[j] == "OK"
  {
    if all == [] then []
    else (if all[0] == "OK" then ["OK"] else []) + OkReplies(all[1..])
  }

  /** `out_ok` is non-empty exactly when some slot reads `OK`. */
  lemma {:induction false} OkRepliesNonEmpty(all: seq<string>)
    ensures OkReplies(all) != [] <==> exists j :: 0 <= j < |all| && all[j] == "OK"
    decreases |all|
  {
    if all != [] {
      OkRepliesNonEmpty(all[1..]);
      if all[0] != "OK" && exists j :: 0 <= j < |all| && all[j] == "OK" {
        var j :| 0 <= j < |all| && all[j] == "OK";
        assert all[1..][j - 1] == "OK";
      }
    }
  }

  /** The dialog's verdict over the replies. */
  predicate Entered(replies: seq<string>, source: string)
    requires |replies| == 6 + |SourceCommands(source)|
  {
    OkReplies(OutAll(replies, source)) != []
  }

  /** The empty filler slots never count, so the values are entered exactly when the device
      acknowledges at least one command with `OK`. */
  lemma EnteredIffSomeOk(replies: seq<string>, source: string)
    requires |replies| == 6 + |SourceCommands(source)|
    ensures Entered(replies, source) <==> exists j :: 0 <= j < |replies| && replies[j] == "OK"
  {
    var all := OutAll(replies, source);
    OkRepliesNonEmpty(all);
    var k := |replies| - 3;
    if exists j :: 0 <= j < |replies| && replies[j] == "OK" {
      var j :| 0 <= j < |replies| && replies[j] == "OK";
      if j < 3 {
        assert all[..3][j] == "OK";
      } else if j >= k {
        assert all[5..][j - k] == "OK";
      } else if source == ReactorT1 {
        assert all[3] == "OK";
      } else {
        assert all[4] == "OK";
      }
    }
    if exists i :: 0 <= i < |all| && all[i] == "OK" {
      var i :| 0 <= i < |all| && all[i] == "OK";
      if i < 3 {
        assert replies[i] == all[..3][i];
      } else if i >= 5 {
        assert replies[k + (i - 5)] == all[5..][i - 5];
      } else {
        assert replies[3] == "OK";
      }
    }
  }

  /** A thermostat that no longer answers lets every command through, since each read times
      out as an empty line, and the dialog reports the values as not entered. */
  lemma SilentDeviceNotEntered(s: Settings, fixed2: real -> string, script: seq<Reply>, base: nat)
    requires base >= |script|
    ensures var w := Window(script, base, |ControllerCommands(s, fixed2)|);
      Clean(w) && !Entered(Texts(w), s.source)
  {
    var w := Window(script, base, |ControllerCommands(s, fixed2)|);
    SilentWindow(script, base, |w|);
    EnteredIffSomeOk(Texts(w), s.source);
  }

  datatype ControllerOutcome =
    | NoConnection
      /** The reply to command number `at` raised; nothing after it was sent. */
    | Interrupted(at: nat)
      /** Every command answered; `entered` is the verdict shown to the user. */
    | Done(entered: bool)

  /** The write/read sequence of `enter_button_clicked`, one reply read after each command;
      `replies` are `out`, `out_l`, `out_h`, the control-source reply if one was read, `out_xp`,
      `out_tn`, `out_tv`. */
  method SendSettings(ser: Link, s: Settings, fixed2: real -> string) returns (replies: seq<string>, fault: Option<nat>)
    modifies ser
    ensures Transcript(ser.script, old(ser.written), ser.written, ControllerCommands(s, fixed2), replies, fault)
  {
    ghost var o := ser.written;
    ghost var cmds := ControllerCommands(s, fixed2);
    TranscriptEmpty(ser.script, o);
    assert cmds[..0] == [];
    var r := Exchange(ser, "OUT_" + fixed2(s.setpoint) + "\r\n", o, cmds, 0, []);
    if r.Fault? { return [], Some(0); }
    replies := [r.text];
    r := Exchange(ser, "OUT_L" + fixed2(s.low) + "\r\n", o, cmds, 1, replies);
    if r.Fault? { return replies, Some(1); }
    replies := replies + [r.text];
    r := Exchange(ser, "OUT_H" + fixed2(s.high) + "\r\n", o, cmds, 2, replies);
    if r.Fault? { return replies, Some(2); }
    replies := replies + [r.text];
    if s.source == ReactorT1 {
      r := Exchange(ser, "OUT_RT1\r\n", o, cmds, 3, replies);
      if r.Fault? { return replies, Some(3); }
      replies := replies + [r.text];
    } else if s.source == FlowTi {
      r := Exchange(ser, "OUT_RTi\r\n", o, cmds, 3, replies);
      if r.Fault? { return replies, Some(3); }
      replies := replies + [r.text];
    }
    var k := 3 + |SourceCommands(s.source)|;
    r := Exchange(ser, "OUT_XP" + fixed2(s.xp) + "\r\n", o, cmds, k, replies);
    if r.Fault? { return replies, Some(k); }
    replies := replies + [r.text];
    r := Exchange(ser, "OUT_TN" + fixed2(s.tn) + "\r\n", o, cmds, k + 1, replies);
    if r.Fault? { return replies, Some(k + 1); }
    replies := replies + [r.text];
    r := Exchange(ser, "OUT_TV" + fixed2(s.tv) + "\r\n", o, cmds, k + 2, replies);
    if r.Fault? { return replies, Some(k + 2); }
    replies := replies + [r.text];
    assert cmds[..k + 3] == cmds;
    fault := None;
  }

  /** `enter_button_clicked` of the controller dialog: nothing is sent without an open port;
      otherwise every command is sent unless a reply raises, and the values count as entered
      when `out_ok` is not empty. */
  method EnterController(ser: Link?, s: Settings, fixed2: real -> string) returns (out: ControllerOutcome)
    modifies ser
    ensures (ser == null || !ser.isOpen) ==> out == NoConnection && (ser != null ==> ser.written == old(ser.written))
    ensures ser != null && ser.isOpen ==>
      var cmds := ControllerCommands(s, fixed2);
      var w := Window(ser.script, |old(ser.written)|, |cmds|);
      && (out.Done? || out.Interrupted?)
      && (out.Done? <==> Clean(w))
      && (out.Interrupted? ==> FirstFault(w, out.at) && ser.written == old(ser.written) + cmds[..out.at + 1])
      && (out.Done? ==> ser.written == old(ser.written) + cmds && out.entered == Entered(Texts(w), s.source))
  {
    if ser == null || !ser.isOpen {
      return NoConnection;
    }
    var replies, fault := SendSettings(ser, s, fixed2);
    if fault.Some? {
      return Interrupted(fault.value);
    }
    var outAll := OutAll(replies, s.source);
    var outOk := OkReplies(outAll);
    out := Done(outOk != []);
  }
}
