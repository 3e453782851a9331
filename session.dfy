/**
 * The measuring session of the main window (`MainWindow`): the start and stop buttons, the
 * pressure safety latch, its reset, and the handling of every sample the reader thread
 * delivers, with the five plot buffers (`deque(maxlen=2000)`) it appends to.
 *
 * The flags are those the source keeps on the window: `receiving`, `running`,
 * `pressure_exceeded`, `filepath`, `file` and the program / no-program radio buttons. Each
 * handler is a method of `MainWindow` proved equal to a pure transition (`StartSpec`,
 * `StopSpec`, `CheckSpec`, `ResetSpec`); the latch properties are lemmas about those.
 * An exception that escapes a handler ends the handler where it was raised; the flags
 * keep what was assigned before it.
 */
module Session {
  import opened Options
  import opened Serial
  import opened StatusFlags
  import opened Poll

  const StartCmd: string := "START\r\n"
  const StopCmd: string := "STOP\r\n"
  const ResetCmd: string := "OUT_30\r\n"

  /** The pressure in bar above which the latch trips. */
  const PressureLimit: real := 50.0

  /** `max_data_points`: the capacity of every plot buffer. */
  const MaxDataPoints: nat := 2000

  /** Which of the two exclusive radio buttons is checked. */
  datatype Mode = Program | NoProgram

  /** The window's session flags. `file` is the attribute `stop_data_receiving` assigns
      (`None` until then); `launches` counts `serial_thread.start()` calls. */
  datatype Flags = Flags(receiving: bool, running: bool, pressureExceeded: bool,
                         filepath: string, file: Option<string>, mode: Mode, launches: nat)

  /** What one handler did: the new flags, the commands it wrote on the thermostat link,
      whether it called `serial_thread.stop()` and whether it raised. */
  datatype Outcome = Outcome(flags: Flags, sent: seq<string>, haltsThread: bool, raised: bool)

  /** The flags after `initializePlot` and `setUpMainWindow`; the program button is checked. */
  function InitialFlags(): Flags
  {
    Flags(false, false, false, "", None, Program, 0)
  }

  // ---------------------------------------------------------------- the handlers as transitions

  /** The end of `start_data_receiving`, after the program-mode exchange left `sign`: the reader
      thread is launched unless the window is already receiving. (On the `sign == 'OK'` path
      the pressure link was flushed during the exchange, so flushing it again cannot raise.) */
  function Launch(f: Flags, sign: string, sent: seq<string>): Outcome
  {
    var g := if f.receiving then f else f.(receiving := true, launches := f.launches + 1, running := true);
    Outcome(if sign == "OK" && !g.pressureExceeded then g.(running := true) else g, sent, false, false)
  }

  /** `start_data_receiving`. `connected`/`pConnected`: whether `ser` and `ser_p` are set; the
      thermostat link has answered `pos` commands of `script`. In program mode `START` is
      sent after flushing both links, which raises when `ser_p` is `None`. */
  function StartSpec(f: Flags, connected: bool, pConnected: bool, script: seq<Reply>, pos: nat): Outcome
  {
    if !connected then Outcome(f, [], false, false)
    else if f.mode == Program then
      var f1 := f.(running := false);
      if !pConnected then Outcome(f1, [], false, true)
      else
        var r := ReplyAt(script, pos);
        if r.Fault? then Outcome(f1, [StartCmd], false, true)
        else Launch(f1, r.text, [StartCmd])
    else Launch(f, "", [])
  }

  /** `stop_data_receiving`. Only a receiving window does anything. Saving is announced as
      stopped by assigning `file`, not `filepath`. In program mode the reader thread is
      stopped and `STOP` sent; an `OK` outside a pressure stop flushes both links. */
  function StopSpec(f: Flags, connected: bool, pConnected: bool, script: seq<Reply>, pos: nat): Outcome
  {
    if !f.receiving then Outcome(f, [], false, false)
    else
      var f1 := if f.filepath != "" && !f.pressureExceeded then f.(file := Some("")) else f;
      if connected && f1.mode == Program then
        var f2 := f1.(running := false);
        var r := ReplyAt(script, pos);
        if r.Fault? then Outcome(f2, [StopCmd], true, true)
        else if r.text == "OK" && !f2.pressureExceeded && !pConnected then Outcome(f2, [StopCmd], true, true)
        else Outcome(f2.(receiving := false, running := false), [StopCmd], true, false)
      else Outcome(f1.(receiving := false, running := false), [], true, false)
  }

  /** The part of `checkHighP` after a clean stop: `OUT_30` is sent and, when the thermostat
      answers `OK`, the session restarts in no-program mode. Writing on an absent `ser` raises. */
  function RestoreSpec(f: Flags, connected: bool, pConnected: bool, script: seq<Reply>, pos: nat): Outcome
  {
    if !connected then Outcome(f, [], false, true)
    else
      var r := ReplyAt(script, pos);
      if r.Fault? then Outcome(f, [ResetCmd], false, true)
      else if r.text == "OK" then
        var t := StartSpec(f.(mode := NoProgram), connected, pConnected, script, pos + 1);
        Outcome(t.flags, [ResetCmd] + t.sent, t.haltsThread, t.raised)
      else Outcome(f, [ResetCmd], false, false)
  }

  /** `checkHighP(p)`: the first reading above the limit sets the latch, stops the session,
      then sends `OUT_30` and restarts as `RestoreSpec` says. */
  function CheckSpec(f: Flags, p: real, connected: bool, pConnected: bool, script: seq<Reply>, pos: nat): Outcome
  {
    if !(p > PressureLimit && !f.pressureExceeded) then Outcome(f, [], false, false)
    else
      var s := StopSpec(f.(pressureExceeded := true), connected, pConnected, script, pos);
      if s.raised then s
      else
        var t := RestoreSpec(s.flags, connected, pConnected, script, pos + |s.sent|);
        Outcome(t.flags, s.sent + t.sent, s.haltsThread || t.haltsThread, t.raised)
  }

  /** A tripping `checkHighP` whose stop left the log `w` and the flags `g` and did not raise
      is that stop followed by `RestoreSpec` on the log `w`. */
  lemma CheckSpecThen(f: Flags, p: real, connected: bool, pConnected: bool, script: seq<Reply>,
                      o: seq<string>, w: seq<string>, g: Flags, t: Outcome)
    requires p > PressureLimit && !f.pressureExceeded
    requires var s := StopSpec(f.(pressureExceeded := true), connected, pConnected, script, |o|);
      !s.raised && w == o + s.sent && g == s.flags
    requires t == RestoreSpec(g, connected, pConnected, script, |w|)
    ensures var s := StopSpec(f.(pressureExceeded := true), connected, pConnected, script, |o|);
      CheckSpec(f, p, connected, pConnected, script, |o|) == Outcome(t.flags, s.sent + t.sent, s.haltsThread || t.haltsThread, t.raised)
      && w + t.sent == o + (s.sent + t.sent)
  {
    var s := StopSpec(f.(pressureExceeded := true), connected, pConnected, script, |o|);
    assert |w| == |o| + |s.sent|;
  }

  /** `reset_pressure_exceeded`. */
  function ResetSpec(f: Flags): Flags
  {
    f.(pressureExceeded := false, filepath := "")
  }

  // ---------------------------------------------------------------- properties of the transitions

  /** Starting an already receiving window launches no second reader thread and leaves it
      receiving; starting a stopped one with a link launches exactly one, unless it raised. */
  lemma StartLaunchesOnce(f: Flags, connected: bool, pConnected: bool, script: seq<Reply>, pos: nat)
    ensures var o := StartSpec(f, connected, pConnected, script, pos);
      && (f.receiving ==> o.flags.receiving && o.flags.launches == f.launches)
      && (!f.receiving && connected && !o.raised ==> o.flags.receiving && o.flags.launches == f.launches + 1)
      && (!connected ==> o == Outcome(f, [], false, false))
      && o.flags.(running := f.running, receiving := f.receiving, launches := f.launches) == f
  {
  }

  /** Start sends at most `START`, and only in program mode with both links set. */
  lemma StartSends(f: Flags, connected: bool, pConnected: bool, script: seq<Reply>, pos: nat)
    ensures var o := StartSpec(f, connected, pConnected, script, pos);
      && (o.sent == [StartCmd] <==> connected && pConnected && f.mode == Program)
      && (o.sent != [StartCmd] ==> o.sent == [])
      && !o.haltsThread
      && (o.raised <==> connected && f.mode == Program && (!pConnected || ReplyAt(script, pos).Fault?))
  {
  }

  /** A stop that does not raise leaves the window neither receiving nor running, keeps
      `filepath` and the latch, and stops the reader thread exactly when it was receiving. */
  lemma StopClears(f: Flags, connected: bool, pConnected: bool, script: seq<Reply>, pos: nat)
    ensures var o := StopSpec(f, connected, pConnected, script, pos);
      && (!o.raised ==> !o.flags.receiving)
      && (f.receiving ==> !o.flags.running)
      && o.flags.filepath == f.filepath && o.flags.pressureExceeded == f.pressureExceeded
      && o.flags.mode == f.mode && o.flags.launches == f.launches
      && (o.haltsThread <==> f.receiving)
      && (o.sent == [StopCmd] <==> f.receiving && connected && f.mode == Program)
      && (o.sent != [StopCmd] ==> o.sent == [])
      && (!f.receiving ==> o == Outcome(f, [], false, false))
  {
  }

  /** Stopping while saving outside a pressure stop assigns `file` and leaves `filepath`, so a
      later start saves to the same file again. */
  lemma StopKeepsSaving(f: Flags, connected: bool, pConnected: bool, script: seq<Reply>, pos: nat)
    requires f.receiving && f.filepath != "" && !f.pressureExceeded
    ensures var o := StopSpec(f, connected, pConnected, script, pos);
      o.flags.file == Some("") && o.flags.filepath == f.filepath
  {
  }

  /** The latch acts exactly on a reading above the limit while it is not set; otherwise
      `checkHighP` changes nothing and sends nothing. */
  lemma CheckActsIff(f: Flags, p: real, connected: bool, pConnected: bool, script: seq<Reply>, pos: nat)
    ensures (CheckSpec(f, p, connected, pConnected, script, pos) == Outcome(f, [], false, false))
      <==> !(p > PressureLimit && !f.pressureExceeded)
    ensures p > PressureLimit && !f.pressureExceeded ==> CheckSpec(f, p, connected, pConnected, script, pos).flags.pressureExceeded
  {
  }

  /** None of start, stop and `checkHighP` clears the latch or `filepath`; only the reset
      does, and it clears both. */
  lemma OnlyResetClearsLatch(f: Flags, p: real, connected: bool, pConnected: bool, script: seq<Reply>, pos: nat)
    ensures StartSpec(f, connected, pConnected, script, pos).flags.pressureExceeded == f.pressureExceeded
    ensures StopSpec(f, connected, pConnected, script, pos).flags.pressureExceeded == f.pressureExceeded
    ensures f.pressureExceeded ==> CheckSpec(f, p, connected, pConnected, script, pos).flags.pressureExceeded
    ensures CheckSpec(f, p, connected, pConnected, script, pos).flags.filepath == f.filepath
    ensures !ResetSpec(f).pressureExceeded && ResetSpec(f).filepath == ""
  {
    StopClears(f.(pressureExceeded := true), connected, pConnected, script, pos);
  }

  /** A tripping reading whose stop is clean: the latch is set, `OUT_30` is sent once after
      what the stop sent, and the session is receiving again afterwards exactly when the
      thermostat answered `OK`, then in no-program mode and without raising. */
  lemma {:induction false} TripRestartsIffOk(f: Flags, p: real, connected: bool, pConnected: bool,
                                             script: seq<Reply>, pos: nat)
    requires p > PressureLimit && !f.pressureExceeded && connected
    requires !StopSpec(f.(pressureExceeded := true), connected, pConnected, script, pos).raised
    ensures var s := StopSpec(f.(pressureExceeded := true), connected, pConnected, script, pos);
      var o := CheckSpec(f, p, connected, pConnected, script, pos);
      var r := ReplyAt(script, pos + |s.sent|);
      && o.flags.pressureExceeded
      && o.sent == s.sent + [ResetCmd]
      && (o.flags.receiving <==> r == Line("OK"))
      && (r == Line("OK") ==> o.flags.mode == NoProgram && !o.raised && o.flags.launches == f.launches + 1)
      && (r != Line("OK") ==> o.flags.mode == f.mode && o.raised == r.Fault?)
  {
    var s := StopSpec(f.(pressureExceeded := true), connected, pConnected, script, pos);
    StopClears(f.(pressureExceeded := true), connected, pConnected, script, pos);
    var r := ReplyAt(script, pos + |s.sent|);
    if r == Line("OK") {
      var sent := s.sent + [ResetCmd];
      var g := s.flags.(mode := NoProgram);
      StartLaunchesOnce(g, connected, pConnected, script, pos + |sent|);
      StartSends(g, connected, pConnected, script, pos + |sent|);
      assert sent + [] == sent;
    }
  }

  // ---------------------------------------------------------------- sessions of several events

  /** What happens in the window: a button click, a radio button checked, a path chosen in
      the save dialog, or a sample arriving from the reader thread with its pressure and
      status word. Events are allowed in any order: which widgets are enabled when is not
      modelled, so the sequences cover every one the window lets a user make. */
  datatype Event =
    | StartClicked | StopClicked | ResetClicked
    | ModeChosen(mode: Mode)
    | SaveFileChosen(path: string)
    | Reading(p: real, status: string)

  /** One event. A reading does something only while receiving (`update_data`): the latch
      check, then the status decode, which raises on a malformed word. */
  function Apply(f: Flags, e: Event, connected: bool, pConnected: bool, script: seq<Reply>, pos: nat): Outcome
  {
    match e
    case StartClicked => StartSpec(f, connected, pConnected, script, pos)
    case StopClicked => StopSpec(f, connected, pConnected, script, pos)
    case ResetClicked => Outcome(ResetSpec(f), [], false, false)
    case ModeChosen(m) => Outcome(f.(mode := m), [], false, false)
    case SaveFileChosen(path) => Outcome(f.(filepath := path), [], false, false)
    case Reading(p, status) =>
      if !f.receiving then Outcome(f, [], false, false)
      else
        var o := CheckSpec(f, p, connected, pConnected, script, pos);
        if !o.raised && DecodeStatus(status).None? then o.(raised := true) else o
  }

  /** `running` is set only while `receiving` is, and every event keeps it so. */
  lemma RunningOnlyWhileReceiving(f: Flags, e: Event, connected: bool, pConnected: bool, script: seq<Reply>, pos: nat)
    requires f.running ==> f.receiving
    ensures var a := Apply(f, e, connected, pConnected, script, pos);
      a.flags.running ==> a.flags.receiving
  {
    if e.Reading? && f.receiving && e.p > PressureLimit && !f.pressureExceeded {
      var s := StopSpec(f.(pressureExceeded := true), connected, pConnected, script, pos);
      StopClears(f.(pressureExceeded := true), connected, pConnected, script, pos);
    }
  }

  /** `Apply` on fixed links, as a step from flags, an event and a link position. */
  function Handler(connected: bool, pConnected: bool, script: seq<Reply>): (Flags, Event, nat) -> Outcome
  {
    (g: Flags, e: Event, q: nat) => Apply(g, e, connected, pConnected, script, q)
  }

  /** The events in turn through `step`, each on the link position the ones before left, up
      to and including the first that raises. */
  function RunWith(step: (Flags, Event, nat) -> Outcome, f: Flags, es: seq<Event>, pos: nat): Outcome
    decreases |es|
  {
    if es == [] then Outcome(f, [], false, false)
    else
      var a := step(f, es[0], pos);
      if a.raised then a
      else
        var b := RunWith(step, a.flags, es[1..], pos + |a.sent|);
        Outcome(b.flags, a.sent + b.sent, a.haltsThread || b.haltsThread, b.raised)
  }

  /** The window's handlers on `es`: an exception that escapes a handler ends the application. */
  function Run(f: Flags, es: seq<Event>, connected: bool, pConnected: bool, script: seq<Reply>, pos: nat): Outcome
  {
    RunWith(Handler(connected, pConnected, script), f, es, pos)
  }

  /** How often `cmd` occurs in `cs`. */
  function Count(cmd: string, cs: seq<string>): nat
  {
    if cs == [] then 0 else (if cs[0] == cmd then 1 else 0) + Count(cmd, cs[1..])
  }

  lemma {:induction false} CountAppend(cmd: string, a: seq<string>, b: seq<string>)
    ensures Count(cmd, a + b) == Count(cmd, a) + Count(cmd, b)
    decreases |a|
  {
    if a != [] {
      assert (a + b)[0] == a[0] && (a + b)[1..] == a[1..] + b;
      CountAppend(cmd, a[1..], b);
    } else {
      assert a + b == b;
    }
  }

  /** How many resets `es` holds. */
  function Resets(es: seq<Event>): nat
  {
    if es == [] then 0 else (if es[0] == ResetClicked then 1 else 0) + Resets(es[1..])
  }

  /** 1 while the latch is clear, 0 while it is set. */
  function Unlatched(f: Flags): nat
  {
    if f.pressureExceeded then 0 else 1
  }

  /** One event sends `OUT_30` at most once, never while latched, and always leaves the latch
      set when it does; only a reset clears the latch. Counting a clear latch as one, the
      commands sent plus the latch after never exceed the latch before plus the resets. */
  lemma ApplyResetCommand(f: Flags, e: Event, connected: bool, pConnected: bool, script: seq<Reply>, pos: nat)
    ensures var a := Apply(f, e, connected, pConnected, script, pos);
      Count(ResetCmd, a.sent) + Unlatched(a.flags) <= Unlatched(f) + (if e == ResetClicked then 1 else 0)
  {
    match e
    case StartClicked =>
      StartSends(f, connected, pConnected, script, pos);
      OnlyResetClearsLatch(f, 0.0, connected, pConnected, script, pos);
    case StopClicked =>
      StopClears(f, connected, pConnected, script, pos);
    case ResetClicked =>
    case ModeChosen(_) =>
    case SaveFileChosen(_) =>
    case Reading(p, _) =>
      if f.receiving {
        CheckResetCommand(f, p, connected, pConnected, script, pos);
      }
  }

  /** `checkHighP` sends `OUT_30` only when it sets the latch, and then once. */
  lemma CheckResetCommand(f: Flags, p: real, connected: bool, pConnected: bool, script: seq<Reply>, pos: nat)
    ensures var a := CheckSpec(f, p, connected, pConnected, script, pos);
      Count(ResetCmd, a.sent) + Unlatched(a.flags) <= Unlatched(f)
  {
    if p > PressureLimit && !f.pressureExceeded {
      var g := f.(pressureExceeded := true);
      var s := StopSpec(g, connected, pConnected, script, pos);
      StopClears(g, connected, pConnected, script, pos);
      var sent := s.sent + [ResetCmd];
      var h := s.flags.(mode := NoProgram);
      StartSends(h, connected, pConnected, script, pos + |sent|);
      OnlyResetClearsLatch(h, p, connected, pConnected, script, pos + |sent|);
      CountAppend(ResetCmd, s.sent, [ResetCmd]);
      CountAppend(ResetCmd, sent, StartSpec(h, connected, pConnected, script, pos + |sent|).sent);
    }
  }

  /** A step that never sends `OUT_30` more often than the potential of `ApplyResetCommand`
      allows keeps a whole run within one command per reset, plus one for a clear latch. */
  lemma {:induction false} RunWithResetCommand(step: (Flags, Event, nat) -> Outcome, f: Flags, es: seq<Event>, pos: nat)
    requires forall g: Flags, e: Event, q: nat ::
      Count(ResetCmd, step(g, e, q).sent) + Unlatched(step(g, e, q).flags) <= Unlatched(g) + (if e == ResetClicked then 1 else 0)
    ensures Count(ResetCmd, RunWith(step, f, es, pos).sent) <= Resets(es) + Unlatched(f)
    decreases |es|
  {
    if es != [] {
      var a := step(f, es[0], pos);
      assert Resets(es) == (if es[0] == ResetClicked then 1 else 0) + Resets(es[1..]);
      if !a.raised {
        var b := RunWith(step, a.flags, es[1..], pos + |a.sent|);
        RunWithResetCommand(step, a.flags, es[1..], pos + |a.sent|);
        CountAppend(ResetCmd, a.sent, b.sent);
      }
    }
  }

  /** No event but the reset button clears a set latch. */
  lemma ApplyKeepsLatch(f: Flags, e: Event, connected: bool, pConnected: bool, script: seq<Reply>, pos: nat)
    requires f.pressureExceeded && e != ResetClicked
    ensures Apply(f, e, connected, pConnected, script, pos).flags.pressureExceeded
  {
    OnlyResetClearsLatch(f, if e.Reading? then e.p else 0.0, connected, pConnected, script, pos);
  }

  /** A step that keeps a set latch on every event but the reset keeps it over a whole run
      without resets. */
  lemma {:induction false} RunWithKeepsLatch(step: (Flags, Event, nat) -> Outcome, f: Flags, es: seq<Event>, pos: nat)
    requires forall g: Flags, e: Event, q: nat ::
      g.pressureExceeded && e != ResetClicked ==> step(g, e, q).flags.pressureExceeded
    requires f.pressureExceeded && Resets(es) == 0
    ensures RunWith(step, f, es, pos).flags.pressureExceeded
    decreases |es|
  {
    if es != [] {
      var a := step(f, es[0], pos);
      assert Resets(es) == (if es[0] == ResetClicked then 1 else 0) + Resets(es[1..]);
      if !a.raised {
        RunWithKeepsLatch(step, a.flags, es[1..], pos + |a.sent|);
      }
    }
  }

  /** Once the latch is set it stays set, whatever is clicked, chosen or read, until the
      reset button. */
  lemma LatchedUntilReset(f: Flags, es: seq<Event>, connected: bool, pConnected: bool,
                          script: seq<Reply>, pos: nat)
    requires f.pressureExceeded && Resets(es) == 0
    ensures Run(f, es, connected, pConnected, script, pos).flags.pressureExceeded
  {
    var step := Handler(connected, pConnected, script);
    forall g: Flags, e: Event, q: nat | g.pressureExceeded && e != ResetClicked
      ensures step(g, e, q).flags.pressureExceeded
    {
      ApplyKeepsLatch(g, e, connected, pConnected, script, q);
    }
    RunWithKeepsLatch(step, f, es, pos);
  }

  /** The thermostat is told to go to 30 °C at most once per reset: the latch keeps every
      later reading above the limit from sending `OUT_30` again until the reset button. */
  lemma ResetCommandOncePerReset(f: Flags, es: seq<Event>, connected: bool, pConnected: bool,
                                 script: seq<Reply>, pos: nat)
    ensures Count(ResetCmd, Run(f, es, connected, pConnected, script, pos).sent)
              <= Resets(es) + (if f.pressureExceeded then 0 else 1)
  {
    var step := Handler(connected, pConnected, script);
    forall g: Flags, e: Event, q: nat
      ensures Count(ResetCmd, step(g, e, q).sent) + Unlatched(step(g, e, q).flags)
                <= Unlatched(g) + (if e == ResetClicked then 1 else 0)
    {
      ApplyResetCommand(g, e, connected, pConnected, script, q);
    }
    RunWithResetCommand(step, f, es, pos);
  }

  // ---------------------------------------------------------------- the plot buffers

  /** `deque(maxlen=MaxDataPoints).append(x)`: when full, the oldest element goes. */
  function Pushed(buf: seq<real>, x: real): (r: seq<real>)
    requires |buf| <= MaxDataPoints
    ensures |r| == if |buf| < MaxDataPoints then |buf| + 1 else MaxDataPoints
    ensures r[|r| - 1] == x
  {
    if |buf| < MaxDataPoints then buf + [x] else buf[1..] + [x]
  }

  /** Before the new value come the old ones in their order, less the oldest when the buffer
      was full. */
  lemma PushedKeepsOrder(buf: seq<real>, x: real)
    requires |buf| <= MaxDataPoints
    ensures var r := Pushed(buf, x);
      r[..|r| - 1] == if |buf| < MaxDataPoints then buf else buf[1..]
  {
    var r := Pushed(buf, x);
    assert r[..|r| - 1] == if |buf| < MaxDataPoints then buf else buf[1..];
  }

  /** The last `MaxDataPoints` values of `h`, oldest first. */
  function Latest(h: seq<real>): (r: seq<real>)
    ensures |r| <= MaxDataPoints
  {
    if |h| <= MaxDataPoints then h else h[|h| - MaxDataPoints..]
  }

  /** Appending keeps a buffer equal to the latest values of everything appended. */
  lemma PushedIsLatest(h: seq<real>, x: real)
    ensures Pushed(Latest(h), x) == Latest(h + [x])
  {
    var b := Latest(h);
    var r := Pushed(b, x);
    var l := Latest(h + [x]);
    assert |r| == |l|;
    forall i | 0 <= i < |r|
      ensures r[i] == l[i]
    {
      if i < |r| - 1 {
        PushedKeepsOrder(b, x);
        assert r[i] == r[..|r| - 1][i];
      }
    }
  }

  /** The buffer after appending `xs` in turn. */
  function PushAll(buf: seq<real>, xs: seq<real>): (r: seq<real>)
    requires |buf| <= MaxDataPoints
    ensures |r| <= MaxDataPoints
    decreases |xs|
  {
    if xs == [] then buf else PushAll(Pushed(buf, xs[0]), xs[1..])
  }

  /** A buffer filled from empty holds the newest `MaxDataPoints` values, in arrival order. */
  lemma {:induction false} PushAllIsLatest(h: seq<real>, xs: seq<real>)
    ensures PushAll(Latest(h), xs) == Latest(h + xs)
    decreases |xs|
  {
    if xs != [] {
      var h' := h + [xs[0]];
      calc {
        PushAll(Latest(h), xs);
        PushAll(Pushed(Latest(h), xs[0]), xs[1..]);
        { PushedIsLatest(h, xs[0]); }
        PushAll(Latest(h'), xs[1..]);
        { PushAllIsLatest(h', xs[1..]); }
        Latest(h' + xs[1..]);
        { assert h' + xs[1..] == h + xs; }
        Latest(h + xs);
      }
    }
  }

  /** The lists `update_plot` copies out of the five buffers. */
  datatype Series = Series(time: seq<real>, ti: seq<real>, t1: seq<real>, ts: seq<real>, p: seq<real>)

  /** One CSV row `saveCSV` is asked to append: the file and the four readings (the row's
      timestamp is formatted by the library and is not modelled). */
  datatype Record = Record(path: string, ti: real, t1: real, ts: real, p: real)

  /** What a reading brought to the screen: the series handed to the plot and the status
      texts, each absent when the handler raised first. */
  datatype Shown = Shown(plotted: Option<Series>, status: Option<seq<string>>, raised: bool)

  function ScriptOf(link: Link?): seq<Reply>
  {
    if link == null then [] else link.script
  }

  class MainWindow {
    var receiving: bool
    var running: bool
    var pressureExceeded: bool
    var filepath: string
    var file: Option<string>
    var mode: Mode
    var launches: nat
    /** The plot buffers `time`, `Ti`, `T1`, `Ts`, `p`. */
    var times: seq<real>
    var ti: seq<real>
    var t1: seq<real>
    var ts: seq<real>
    var p: seq<real>
    /** Every row handed to `saveCSV`, in order. */
    var records: seq<Record>
    /** `serial_thread`. */
    const thread: Poller

    function State(): Flags
      reads this
    {
      Flags(receiving, running, pressureExceeded, filepath, file, mode, launches)
    }

    function Buffers(): Series
      reads this
    {
      Series(times, ti, t1, ts, p)
    }

    /** The five buffers always have one length, at most `MaxDataPoints`. */
    ghost predicate Valid()
      reads this
    {
      |ti| == |times| && |t1| == |times| && |ts| == |times| && |p| == |times| && |times| <= MaxDataPoints
    }

    constructor (thread: Poller)
      ensures State() == InitialFlags() && Buffers() == Series([], [], [], [], []) && records == []
      ensures this.thread == thread && Valid()
    {
      receiving, running, pressureExceeded := false, false, false;
      filepath, file, mode, launches := "", None, Program, 0;
      times, ti, t1, ts, p := [], [], [], [], [];
      records := [];
      this.thread := thread;
    }

    /** `start_data_receiving` with the links `ser` and `ser_p`. */
    method Start(ser: Link?, serP: Link?) returns (raised: bool)
      modifies this, ser
      ensures var o := StartSpec(old(State()), ser != null, serP != null, ScriptOf(ser), |old(LogOf(ser))|);
        State() == o.flags && LogOf(ser) == old(LogOf(ser)) + o.sent && raised == o.raised
      ensures Buffers() == old(Buffers()) && records == old(records)
    {
      raised := false;
      var sign := "";
      if ser != null {
        if mode == Program {
          running := false;
          if serP == null {
            return true;
          }
          var r := ser.Query(StartCmd);
          if r.Fault? {
            return true;
          }
          sign := r.text;
        }
        if !receiving {
          receiving := true;
          launches := launches + 1;
          running := true;
        }
        if sign == "OK" && !pressureExceeded {
          running := true;
        }
      }
    }

    /** `stop_data_receiving` with the links `ser` and `ser_p`. */
    method Stop(ser: Link?, serP: Link?) returns (raised: bool)
      modifies this, ser, thread
      ensures var o := StopSpec(old(State()), ser != null, serP != null, ScriptOf(ser), |old(LogOf(ser))|);
        && State() == o.flags && LogOf(ser) == old(LogOf(ser)) + o.sent && raised == o.raised
        && thread.running == (if o.haltsThread then false else old(thread.running))
      ensures Buffers() == old(Buffers()) && records == old(records)
    {
      raised := false;
      if receiving {
        if filepath != "" && !pressureExceeded {
          file := Some("");
        }
        if ser != null && mode == Program {
          running := false;
          thread.Stop();
          var r := ser.Query(StopCmd);
          if r.Fault? {
            return true;
          }
          if r.text == "OK" && !pressureExceeded && serP == null {
            return true;
          }
        }
        receiving := false;
        thread.Stop();
        running := false;
      }
    }

    /** `checkHighP(x)` with the links `ser` and `ser_p`. */
    method CheckHighP(x: real, ser: Link?, serP: Link?) returns (raised: bool)
      modifies this, ser, thread
      ensures var o := CheckSpec(old(State()), x, ser != null, serP != null, ScriptOf(ser), |old(LogOf(ser))|);
        && State() == o.flags && LogOf(ser) == old(LogOf(ser)) + o.sent && raised == o.raised
        && thread.running == (if o.haltsThread then false else old(thread.running))
      ensures Buffers() == old(Buffers()) && records == old(records)
    {
      raised := false;
      if x > PressureLimit && !pressureExceeded {
        pressureExceeded := true;
        raised := Stop(ser, serP);
        if !raised {
          ghost var w := LogOf(ser);
          ghost var f := State();
          raised := Restore(ser, serP);
          CheckSpecThen(old(State()), x, ser != null, serP != null, ScriptOf(ser), old(LogOf(ser)), w, f,
                        RestoreSpec(f, ser != null, serP != null, ScriptOf(ser), |w|));
        }
      }
    }

    /** The write of `OUT_30` in `checkHighP` and what follows it. */
    method Restore(ser: Link?, serP: Link?) returns (raised: bool)
      modifies this, ser
      ensures var o := RestoreSpec(old(State()), ser != null, serP != null, ScriptOf(ser), |old(LogOf(ser))|);
        State() == o.flags && LogOf(ser) == old(LogOf(ser)) + o.sent && raised == o.raised
      ensures Buffers() == old(Buffers()) && records == old(records)
    {
      if ser == null {
        return true;
      }
      var r := ser.Query(ResetCmd);
      if r.Fault? {
        return true;
      }
      raised := false;
      if r.text == "OK" {
        mode := NoProgram;
        raised := Start(ser, serP);
      }
    }

    /** `reset_pressure_exceeded`. */
    method ResetPressureExceeded()
      modifies this
      ensures State() == ResetSpec(old(State()))
      ensures Buffers() == old(Buffers()) && records == old(records)
    {
      pressureExceeded := false;
      filepath := "";
    }

    /** `showSaveFile`: the path chosen in the save dialog (empty when it was cancelled). */
    method ShowSaveFile(path: string)
      modifies this
      ensures State() == old(State()).(filepath := path)
      ensures Buffers() == old(Buffers()) && records == old(records)
    {
      filepath := path;
    }

    /** Checking the Program or the No Program radio button of the exclusive button group. */
    method ChooseMode(m: Mode)
      modifies this
      ensures State() == old(State()).(mode := m)
      ensures Buffers() == old(Buffers()) && records == old(records)
    {
      mode := m;
    }

    /** `update_plot`: the five buffers copied into lists. */
    method UpdatePlot() returns (s: Series)
      requires Valid()
      ensures s == Buffers()
      ensures |s.ti| == |s.time| && |s.t1| == |s.time| && |s.ts| == |s.time| && |s.p| == |s.time|
      ensures |s.time| <= MaxDataPoints
    {
      s := Series(times, ti, t1, ts, p);
    }

    /** The five `append`s of `update_data`. */
    method AppendReadings(now: real, s: Sample)
      requires Valid()
      modifies this
      ensures Valid()
      ensures Buffers() == Series(Pushed(old(times), now), Pushed(old(ti), s.ti), Pushed(old(t1), s.t1),
                                  Pushed(old(ts), s.ts), Pushed(old(p), s.p))
      ensures State() == old(State()) && records == old(records)
    {
      times, ti, t1, ts, p := Pushed(times, now), Pushed(ti, s.ti), Pushed(t1, s.t1), Pushed(ts, s.ts), Pushed(p, s.p);
    }

    /** `update_data` for sample `s` received at clock reading `now`: while receiving, each
        buffer gets its value, the latch is checked, the plot redrawn, the status decoded
        (raising on a malformed word) and, when a file is chosen, the row saved. */
    method UpdateData(s: Sample, now: real, ser: Link?, serP: Link?) returns (out: Shown)
      requires Valid()
      modifies this, ser, thread
      ensures Valid()
      ensures !old(receiving) ==>
        && State() == old(State()) && Buffers() == old(Buffers()) && records == old(records)
        && LogOf(ser) == old(LogOf(ser)) && thread.running == old(thread.running)
        && out == Shown(None, None, false)
      ensures old(receiving) ==>
        var o := CheckSpec(old(State()), s.p, ser != null, serP != null, ScriptOf(ser), |old(LogOf(ser))|);
        var status := DecodeStatus(s.status);
        && Buffers() == Series(Pushed(old(times), now), Pushed(old(ti), s.ti), Pushed(old(t1), s.t1),
                               Pushed(old(ts), s.ts), Pushed(old(p), s.p))
        && State() == o.flags && LogOf(ser) == old(LogOf(ser)) + o.sent
        && thread.running == (if o.haltsThread then false else old(thread.running))
        && out.plotted == (if o.raised then None else Some(Buffers()))
        && out.status == (if o.raised then None else status)
        && out.raised == (o.raised || status.None?)
        && records == (if out.raised || old(filepath) == "" then old(records)
                       else old(records) + [Record(old(filepath), s.ti, s.t1, s.ts, s.p)])
    {
      if !receiving {
        return Shown(None, None, false);
      }
      ghost var f0 := State();
      ghost var log0 := LogOf(ser);
      AppendReadings(now, s);
      var raised := CheckHighP(s.p, ser, serP);
      ghost var o := CheckSpec(f0, s.p, ser != null, serP != null, ScriptOf(ser), |log0|);
      assert State() == o.flags && raised == o.raised;
      if raised {
        return Shown(None, None, true);
      }
      var plotted := UpdatePlot();
      var status := DecodeStatus(s.status);
      if status.None? {
        return Shown(Some(plotted), None, true);
      }
      OnlyResetClearsLatch(f0, s.p, ser != null, serP != null, ScriptOf(ser), |log0|);
      if filepath != "" {
        records := records + [Record(filepath, s.ti, s.t1, s.ts, s.p)];
      }
      out := Shown(Some(plotted), status, false);
    }
  }
}
