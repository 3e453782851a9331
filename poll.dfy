/**
 * One polling round of the background reader (`SerialThread.run`) and the loop around it.
 * A round writes ten queries, nine to the thermostat and `P` to the pressure transducer,
 * inside one `try` whose bare `except` ends the round at the first failure; each variable
 * keeps the value of an earlier round until it is assigned again. A parse step then
 * converts the readings with `float()`, and a sample is emitted when the four primary
 * readings are floats.
 */
module Poll {
  import opened Options
  import opened Serial

  /** A local variable of `run()`: never assigned, a decoded reply line, or a float. */
  datatype Slot = Unbound | Text(s: string) | Num(x: real)

  /** The variables in query order: 0 `Ti`, 1 `T1`, 2 `Ts`, 3 `p`, 4 `status_sign`, 5 `Tu`,
      6 `To`, 7 `Xp`, 8 `Tn`, 9 `Tv`. */
  const Steps: nat := 10
  const PressureStep: nat := 3
  const StatusStep: nat := 4
  /** From this step on the reply is converted with `float()` inside the `try`. */
  const FirstConverted: nat := 5

  /** The query of each step; step 3 goes to the pressure link. */
  function StepCommand(k: nat): string
    requires k < Steps
  {
    if k == PressureStep then "P" else "IN_" + [StepCode(k)] + "\r\n"
  }

  /** The parameter code of each thermostat query `IN_<code>`. */
  function StepCode(k: nat): char
    requires k < Steps && k != PressureStep
  {
    if k == 0 then '1' else if k == 1 then '2' else if k == 2 then '3' else if k == 4 then '4'
    else if k == 5 then '8' else if k == 6 then '9' else if k == 7 then 'A' else if k == 8 then 'B' else 'C'
  }

  /** The state the `try` block leaves: the variables, and `stop`, the step that raised
      (`Steps` when none did). */
  datatype Fetched = Fetched(vars: seq<Slot>, stop: nat)

  /** The `try` block from step `k` on, where `rs[j]` is the reply step `j` gets. */
  function Fetch(v: seq<Slot>, rs: seq<Reply>, k: nat, parse: string -> Option<real>): (f: Fetched)
    requires |v| == Steps && |rs| == Steps && k <= Steps
    ensures |f.vars| == Steps && k <= f.stop <= Steps
    decreases |rs| - k
  {
    if k == Steps then Fetched(v, Steps)
    else match rs[k]
      case Fault => Fetched(v, k)
      case Line(t) =>
        if k >= FirstConverted then
          match parse(t)
          case None => Fetched(v, k)
          case Some(x) => Fetch(v[k := Num(x)], rs, k + 1, parse)
        else Fetch(v[k := Text(t)], rs, k + 1, parse)
  }

  /** What step `j` assigns when its reply does not raise. */
  function Assigned(j: nat, r: Reply, parse: string -> Option<real>): Slot
    requires r.Line? && (j >= FirstConverted ==> parse(r.text).Some?)
  {
    if j >= FirstConverted then Num(parse(r.text).value) else Text(r.text)
  }

  /** Step `j` raises: its reply is a fault, or it is converted and does not parse. */
  predicate Raises(j: nat, r: Reply, parse: string -> Option<real>)
  {
    r.Fault? || (j >= FirstConverted && parse(r.text).None?)
  }

  /** The `try` block assigns every step before the one that raised, that step raises, and
      every variable from it on keeps the value it had. */
  lemma {:induction false} FetchSpec(v: seq<Slot>, rs: seq<Reply>, k: nat, parse: string -> Option<real>)
    requires |v| == Steps && |rs| == Steps && k <= Steps
    ensures var f := Fetch(v, rs, k, parse);
      && (forall j :: 0 <= j < k ==> f.vars[j] == v[j])
      && (forall j :: k <= j < f.stop ==> !Raises(j, rs[j], parse) && f.vars[j] == Assigned(j, rs[j], parse))
      && (f.stop < Steps ==> Raises(f.stop, rs[f.stop], parse))
      && (forall j :: f.stop <= j < Steps ==> f.vars[j] == v[j])
    decreases |rs| - k
  {
    if k < Steps && rs[k].Line? {
      var t := rs[k].text;
      if k >= FirstConverted && parse(t).Some? {
        FetchSpec(v[k := Num(parse(t).value)], rs, k + 1, parse);
      } else if k < FirstConverted {
        FetchSpec(v[k := Text(t)], rs, k + 1, parse);
      }
    }
  }

  /** The first step at or after `k` that raises, `Steps` when none does. */
  function FirstRaise(rs: seq<Reply>, k: nat, parse: string -> Option<real>): (stop: nat)
    requires |rs| == Steps && k <= Steps
    ensures k <= stop <= Steps
    decreases |rs| - k
  {
    if k == Steps then Steps
    else if Raises(k, rs[k], parse) then k
    else FirstRaise(rs, k + 1, parse)
  }

  lemma {:induction false} FirstRaiseSpec(rs: seq<Reply>, k: nat, parse: string -> Option<real>)
    requires |rs| == Steps && k <= Steps
    ensures var stop := FirstRaise(rs, k, parse);
      && (forall j :: k <= j < stop ==> !Raises(j, rs[j], parse))
      && (stop < Steps ==> Raises(stop, rs[stop], parse))
    decreases |rs| - k
  {
    if k < Steps && !Raises(k, rs[k], parse) {
      FirstRaiseSpec(rs, k + 1, parse);
    }
  }

  /** The variables after the steps before `n` were assigned. */
  function Overlay(v: seq<Slot>, rs: seq<Reply>, n: nat, parse: string -> Option<real>): (w: seq<Slot>)
    requires |v| == Steps && |rs| == Steps
    ensures |w| == Steps
  {
    seq(Steps, j requires 0 <= j < Steps =>
      if j < n && !Raises(j, rs[j], parse) then Assigned(j, rs[j], parse) else v[j])
  }

  /** Assigning step `n` extends the overlay by one step. */
  lemma OverlayStep(v: seq<Slot>, rs: seq<Reply>, n: nat, parse: string -> Option<real>)
    requires |v| == Steps && |rs| == Steps && n < Steps && !Raises(n, rs[n], parse)
    ensures Overlay(v, rs, n, parse)[n := Assigned(n, rs[n], parse)] == Overlay(v, rs, n + 1, parse)
  {
  }

  /** The step-by-step try block and the declarative description agree: it stops at the first
      step that raises, and the variables of the steps before it are assigned. */
  lemma FetchIsOverlay(v: seq<Slot>, rs: seq<Reply>, parse: string -> Option<real>)
    requires |v| == Steps && |rs| == Steps
    ensures var stop := FirstRaise(rs, 0, parse);
      Fetch(v, rs, 0, parse) == Fetched(Overlay(v, rs, stop, parse), stop)
  {
    FetchSpec(v, rs, 0, parse);
    FirstRaiseSpec(rs, 0, parse);
    var f := Fetch(v, rs, 0, parse);
    var stop := FirstRaise(rs, 0, parse);
    assert f.stop == stop;
    var w := Overlay(v, rs, stop, parse);
    forall j | 0 <= j < Steps
      ensures f.vars[j] == w[j]
    {
    }
  }

  /** `float(x)` as the parse step applies it: a text that parses becomes a float, one that does
      not stays as it is (`except ValueError: pass`); a float stays the same float. */
  function Reparse(s: Slot, parse: string -> Option<real>): (r: Slot)
    requires !s.Unbound?
    ensures !r.Unbound?
  {
    match s
    case Num(x) => Num(x)
    case Text(t) => (match parse(t) case Some(x) => Num(x) case None => Text(t))
  }

  predicate AllBound(v: seq<Slot>)
  {
    forall j :: 0 <= j < |v| ==> !v[j].Unbound?
  }

  /** The parse step as written: `float(Ti)` ... `float(Tv)` and `str(status_sign)`. Reading a
      variable that was never assigned raises `UnboundLocalError`, which no handler catches, so
      `run()` ends: `None`. */
  function ParseStep(v: seq<Slot>, parse: string -> Option<real>): (r: Option<seq<Slot>>)
    requires |v| == Steps
    ensures r.Some? <==> AllBound(v)
  {
    if AllBound(v) then Some(seq(Steps, j requires 0 <= j < Steps => if j == StatusStep then v[j] else Reparse(v[j], parse)))
    else None
  }

  /** The parse step as evidently intended: a variable no round has assigned yet is left alone
      instead of ending the thread. */
  function ParseStepFixed(v: seq<Slot>, parse: string -> Option<real>): (r: seq<Slot>)
    requires |v| == Steps
    ensures |r| == Steps
    ensures forall j :: 0 <= j < Steps ==> (r[j].Unbound? <==> v[j].Unbound?)
    ensures forall j :: 0 <= j < Steps && j != StatusStep && v[j].Text? && parse(v[j].s).Some? ==> r[j] == Num(parse(v[j].s).value)
    ensures forall j :: 0 <= j < Steps && (j == StatusStep || v[j].Num? || (v[j].Text? && parse(v[j].s).None?)) ==> r[j] == v[j]
  {
    seq(Steps, j requires 0 <= j < Steps =>
      if j == StatusStep || v[j].Unbound? then v[j] else Reparse(v[j], parse))
  }

  /** Once every variable has been assigned the two parse steps agree. */
  lemma ParseStepAgrees(v: seq<Slot>, parse: string -> Option<real>)
    requires |v| == Steps && AllBound(v)
    ensures ParseStep(v, parse) == Some(ParseStepFixed(v, parse))
  {
    var a := ParseStep(v, parse).value;
    var b := ParseStepFixed(v, parse);
    forall j | 0 <= j < Steps
      ensures a[j] == b[j]
    {
      assert !v[j].Unbound?;
    }
    assert a == b;
  }

  /** The values `dataReceived` carries. */
  datatype Sample = Sample(ti: real, t1: real, ts: real, p: real, status: string,
                           tu: real, to: real, xp: real, tn: real, tv: real)

  /** `type(Ti) == float and type(T1) == float and type(Ts) == float and type(p) == float`. */
  predicate PrimariesAreFloats(v: seq<Slot>)
    requires |v| == Steps
  {
    v[0].Num? && v[1].Num? && v[2].Num? && v[3].Num?
  }

  /** The signal's other arguments have the types it declares. */
  predicate RestTyped(v: seq<Slot>)
    requires |v| == Steps
  {
    v[StatusStep].Text? && forall j :: FirstConverted <= j < Steps ==> v[j].Num?
  }

  /** The sample emitted after the parse step, if any. */
  function SampleOf(v: seq<Slot>): (r: Option<Sample>)
    requires |v| == Steps
    ensures r.Some? <==> PrimariesAreFloats(v) && RestTyped(v)
    ensures r.Some? ==> r.value.ti == v[0].x && r.value.t1 == v[1].x && r.value.ts == v[2].x
                        && r.value.p == v[3].x && r.value.status == v[StatusStep].s
  {
    if PrimariesAreFloats(v) && RestTyped(v) then
      Some(Sample(v[0].x, v[1].x, v[2].x, v[3].x, v[4].s, v[5].x, v[6].x, v[7].x, v[8].x, v[9].x))
    else None
  }

  // ---------------------------------------------------------------- one round on the links

  /** The thermostat link has answered `sPos` commands, and the pressure link is absent
      (`pScript` is `None`) or is driven by `pScript` and has answered `pPos`. */
  ghost predicate Linked(ser: Link, serP: Link?, sPos: nat, pScript: Option<seq<Reply>>, pPos: nat)
    reads ser, serP
  {
    && |ser.written| == sPos
    && (serP == null ==> pScript == None && pPos == 0)
    && (serP != null ==> pScript == Some(serP.script) && pPos == |serP.written|)
  }

  /** The reply each step gets when the thermostat link has answered `sPos` commands before
      and the pressure link `pPos`; the pressure step raises when that link is not connected. */
  function RoundReplies(sScript: seq<Reply>, sPos: nat, pScript: Option<seq<Reply>>, pPos: nat): (rs: seq<Reply>)
    ensures |rs| == Steps
    ensures forall k :: 0 <= k < PressureStep ==> rs[k] == ReplyAt(sScript, sPos + k)
    ensures forall k :: PressureStep < k < Steps ==> rs[k] == ReplyAt(sScript, sPos + k - 1)
    ensures rs[PressureStep] == (if pScript.None? then Fault else ReplyAt(pScript.value, pPos))
  {
    seq(Steps, k requires 0 <= k < Steps =>
      if k < PressureStep then ReplyAt(sScript, sPos + k)
      else if k == PressureStep then (if pScript.None? then Fault else ReplyAt(pScript.value, pPos))
      else ReplyAt(sScript, sPos + k - 1))
  }

  /** The thermostat queries of a round in order (every step but the pressure step). */
  function SerialOrder(): (cs: seq<string>)
    ensures |cs| == Steps - 1
  {
    seq(Steps - 1, i requires 0 <= i < Steps - 1 => StepCommand(if i < PressureStep then i else i + 1))
  }

  /** A full round queries `IN_1`, `IN_2`, `IN_3`, then `P` on the pressure link, then `IN_4`,
      `IN_8`, `IN_9`, `IN_A`, `IN_B`, `IN_C`; the thermostat sees the nine `IN_` queries in
      that order. */
  lemma QueryOrder()
    ensures seq(Steps, k requires 0 <= k < Steps => StepCommand(k))
            == ["IN_1\r\n", "IN_2\r\n", "IN_3\r\n", "P", "IN_4\r\n", "IN_8\r\n", "IN_9\r\n", "IN_A\r\n", "IN_B\r\n", "IN_C\r\n"]
    ensures SerialOrder() == ["IN_1\r\n", "IN_2\r\n", "IN_3\r\n", "IN_4\r\n", "IN_8\r\n", "IN_9\r\n", "IN_A\r\n", "IN_B\r\n", "IN_C\r\n"]
  {
    var codes := "123?489ABC";
    forall k | 0 <= k < Steps && k != PressureStep
      ensures StepCommand(k) == ['I', 'N', '_', codes[k], '\r', '\n']
    {
      assert StepCode(k) == codes[k];
    }
  }

  /** How many thermostat queries a round whose try block stopped at `stop` wrote: every step
      up to and including the one that raised, except the pressure step. */
  function SerialCount(stop: nat): (n: nat)
    requires stop <= Steps
    ensures n <= |SerialOrder()|
  {
    if stop < PressureStep then stop + 1 else if stop < Steps then stop else Steps - 1
  }

  /** The queries such a round wrote to the thermostat. */
  function SerialQueries(stop: nat): (cs: seq<string>)
    requires stop <= Steps
  {
    SerialOrder()[..SerialCount(stop)]
  }

  /** The queries it wrote to a connected pressure link. */
  function PressureQueries(stop: nat): seq<string>
  {
    if stop >= PressureStep then ["P"] else []
  }

  datatype RoundResult = RoundResult(vars: seq<Slot>, sample: Option<Sample>, fetched: Fetched)

  /** One round from variables `v`: the try block, then the corrected parse step, then the
      emission test. */
  function RoundSpec(v: seq<Slot>, rs: seq<Reply>, parse: string -> Option<real>): (r: RoundResult)
    requires |v| == Steps && |rs| == Steps
    ensures |r.vars| == Steps && r.fetched.stop <= Steps
  {
    var f := Fetch(v, rs, 0, parse);
    var w := ParseStepFixed(f.vars, parse);
    RoundResult(w, SampleOf(w), f)
  }

  /** A round emits a sample exactly when the four primary readings are floats after the parse
      step (and the other arguments are assigned). In particular a pressure reply that does not
      parse suppresses the sample without raising. */
  lemma UnparseablePressureSuppresses(v: seq<Slot>, rs: seq<Reply>, parse: string -> Option<real>)
    requires |v| == Steps && |rs| == Steps
    requires rs[PressureStep].Line? && parse(rs[PressureStep].text).None?
    requires forall j :: 0 <= j < PressureStep ==> rs[j].Line?
    ensures RoundSpec(v, rs, parse).sample.None?
  {
    FetchSpec(v, rs, 0, parse);
    var f := Fetch(v, rs, 0, parse);
    assert f.stop > PressureStep;
    assert f.vars[PressureStep] == Text(rs[PressureStep].text);
  }

  /** A round whose ten replies all arrive and parse leaves every variable assigned, emits a
      sample and its readings are the parsed replies. */
  lemma CleanRoundEmits(v: seq<Slot>, rs: seq<Reply>, parse: string -> Option<real>)
    requires |v| == Steps && |rs| == Steps
    requires forall j :: 0 <= j < Steps ==> rs[j].Line? && parse(rs[j].text).Some?
    ensures var r := RoundSpec(v, rs, parse);
      && r.fetched.stop == Steps && AllBound(r.vars)
      && r.sample == Some(Sample(parse(rs[0].text).value, parse(rs[1].text).value, parse(rs[2].text).value,
                                 parse(rs[3].text).value, rs[4].text, parse(rs[5].text).value,
                                 parse(rs[6].text).value, parse(rs[7].text).value, parse(rs[8].text).value,
                                 parse(rs[9].text).value))
  {
    FetchSpec(v, rs, 0, parse);
  }

  /** One bare `try` guards all ten queries, so a fault at the first one leaves every variable
      as the round before left it: a round whose `IN_1` query raises re-emits the previous
      round's readings as a new sample. */
  lemma StaleRoundReemits(v: seq<Slot>, rs: seq<Reply>, parse: string -> Option<real>)
    requires |v| == Steps && |rs| == Steps && rs[0].Fault?
    requires PrimariesAreFloats(v) && RestTyped(v)
    ensures var r := RoundSpec(v, rs, parse);
      r.fetched.stop == 0 && r.vars == v && SampleOf(v).Some? && r.sample == SampleOf(v)
  {
    var w := ParseStepFixed(v, parse);
    forall j | 0 <= j < Steps
      ensures w[j] == v[j]
    {
      assert j == StatusStep || v[j].Num?;
    }
    assert w == v;
  }

  /** Assigned variables stay assigned: the try block only assigns, and the parse step only
      converts. */
  lemma RoundKeepsBound(v: seq<Slot>, rs: seq<Reply>, parse: string -> Option<real>)
    requires |v| == Steps && |rs| == Steps && AllBound(v)
    ensures AllBound(RoundSpec(v, rs, parse).vars)
  {
    FetchSpec(v, rs, 0, parse);
    var f := Fetch(v, rs, 0, parse);
    forall j | 0 <= j < Steps
      ensures !f.vars[j].Unbound?
    {
      if j < f.stop {
        assert f.vars[j] == Assigned(j, rs[j], parse);
      }
    }
  }

  /** The variables before the first round. */
  function InitialVars(): (v: seq<Slot>)
    ensures |v| == Steps && forall j :: 0 <= j < Steps ==> v[j].Unbound?
  {
    seq(Steps, j => Unbound)
  }

  /** As written, a first round in which the pressure transducer is not connected ends the
      thread: the write to `None` raises inside the try, `p` and everything after it stay
      unassigned, and `float(p)` raises `UnboundLocalError`, which `except ValueError` does not
      catch. */
  lemma FirstRoundWithoutPressureLinkCrashes(sScript: seq<Reply>, parse: string -> Option<real>)
    ensures var rs := RoundReplies(sScript, 0, None, 0);
      ParseStep(Fetch(InitialVars(), rs, 0, parse).vars, parse).None?
  {
    var rs := RoundReplies(sScript, 0, None, 0);
    FetchSpec(InitialVars(), rs, 0, parse);
    var f := Fetch(InitialVars(), rs, 0, parse);
    assert Raises(PressureStep, rs[PressureStep], parse);
    assert f.stop <= PressureStep;
    assert f.vars[PressureStep].Unbound?;
  }

  /** With the corrected parse step the same round emits nothing and the thread goes on. */
  lemma FirstRoundWithoutPressureLinkFixed(sScript: seq<Reply>, parse: string -> Option<real>)
    ensures var rs := RoundReplies(sScript, 0, None, 0);
      var r := RoundSpec(InitialVars(), rs, parse);
      r.sample.None? && r.vars[PressureStep].Unbound?
  {
    var rs := RoundReplies(sScript, 0, None, 0);
    FetchSpec(InitialVars(), rs, 0, parse);
    var f := Fetch(InitialVars(), rs, 0, parse);
    assert Raises(PressureStep, rs[PressureStep], parse);
    assert f.stop <= PressureStep;
  }

  /** One line of the try block: write the query of step `k` to `link`, read the reply and
      assign it, converted with `float()` from step 5 on; `raised` when that raises. */
  method Step(link: Link, k: nat, cur: seq<Slot>, ghost v: seq<Slot>, ghost rs: seq<Reply>,
              parse: string -> Option<real>)
    returns (next: seq<Slot>, raised: bool)
    requires k < Steps && |v| == Steps && |rs| == Steps
    requires rs[k] == ReplyAt(link.script, |link.written|)
    requires cur == Overlay(v, rs, k, parse) && FirstRaise(rs, 0, parse) == FirstRaise(rs, k, parse)
    modifies link
    ensures link.written == old(link.written) + [StepCommand(k)]
    ensures raised ==> FirstRaise(rs, 0, parse) == k && next == cur
    ensures !raised ==> next == Overlay(v, rs, k + 1, parse) && FirstRaise(rs, 0, parse) == FirstRaise(rs, k + 1, parse)
  {
    var r := link.Query(StepCommand(k));
    if r.Fault? || (k >= FirstConverted && parse(r.text).None?) {
      return cur, true;
    }
    next := if k >= FirstConverted then cur[k := Num(parse(r.text).value)] else cur[k := Text(r.text)];
    raised := false;
    OverlayStep(v, rs, k, parse);
  }

  /** The steps before the first `float()` conversion: the three temperatures, the pressure
      (raising at once when the pressure link is not connected) and the status word. */
  method TextSteps(ser: Link, serP: Link?, v: seq<Slot>, ghost rs: seq<Reply>, parse: string -> Option<real>,
                   ghost sPos: nat, ghost pScript: Option<seq<Reply>>, ghost pPos: nat)
    returns (cur: seq<Slot>, stop: nat)
    requires |v| == Steps && ser != serP && Linked(ser, serP, sPos, pScript, pPos)
    requires rs == RoundReplies(ser.script, sPos, pScript, pPos)
    modifies ser, serP
    ensures stop <= FirstConverted && cur == Overlay(v, rs, stop, parse)
    ensures stop < FirstConverted ==> stop == FirstRaise(rs, 0, parse)
    ensures stop == FirstConverted ==> FirstRaise(rs, 0, parse) == FirstRaise(rs, FirstConverted, parse)
    ensures ser.written == old(ser.written) + (if stop < FirstConverted then SerialQueries(stop) else SerialOrder()[..4])
    ensures serP != null ==> serP.written == old(serP.written) + PressureQueries(stop)
  {
    var raised;
    cur := v;
    assert cur == Overlay(v, rs, 0, parse);
    // Ti
    cur, raised := Step(ser, 0, cur, v, rs, parse);
    assert SerialOrder()[..0] + [StepCommand(0)] == SerialOrder()[..1];
    if raised { return cur, 0; }
    // T1
    cur, raised := Step(ser, 1, cur, v, rs, parse);
    assert SerialOrder()[..1] + [StepCommand(1)] == SerialOrder()[..2];
    if raised { return cur, 1; }
    // Ts
    cur, raised := Step(ser, 2, cur, v, rs, parse);
    assert SerialOrder()[..2] + [StepCommand(2)] == SerialOrder()[..3];
    if raised { return cur, 2; }
    // p
    if serP == null {
      return cur, 3;
    }
    cur, raised := Step(serP, 3, cur, v, rs, parse);
    if raised { return cur, 3; }
    // status_sign
    cur, raised := Step(ser, 4, cur, v, rs, parse);
    assert SerialOrder()[..3] + [StepCommand(4)] == SerialOrder()[..4];
    if raised { return cur, 4; }
    stop := FirstConverted;
  }

  /** The five steps whose replies are converted with `float()` inside the try block. */
  method ConvertedSteps(ser: Link, cur0: seq<Slot>, ghost v: seq<Slot>, ghost rs: seq<Reply>,
                        parse: string -> Option<real>)
    returns (cur: seq<Slot>, stop: nat)
    requires |v| == Steps && |rs| == Steps
    requires forall k :: FirstConverted <= k < Steps ==> rs[k] == ReplyAt(ser.script, |ser.written| + k - FirstConverted)
    requires cur0 == Overlay(v, rs, FirstConverted, parse)
    requires FirstRaise(rs, 0, parse) == FirstRaise(rs, FirstConverted, parse)
    modifies ser
    ensures FirstConverted <= stop == FirstRaise(rs, 0, parse) && cur == Overlay(v, rs, stop, parse)
    ensures ser.written == old(ser.written) + SerialOrder()[4..SerialCount(stop)]
  {
    var raised;
    cur := cur0;
    // Tu
    cur, raised := Step(ser, 5, cur, v, rs, parse);
    assert SerialOrder()[4..5] == [StepCommand(5)];
    assert ser.written == old(ser.written) + SerialOrder()[4..5];
    if raised { return cur, 5; }
    // To
    cur, raised := Step(ser, 6, cur, v, rs, parse);
    assert SerialOrder()[4..5] + [StepCommand(6)] == SerialOrder()[4..6];
    assert ser.written == old(ser.written) + SerialOrder()[4..6];
    if raised { return cur, 6; }
    // Xp
    cur, raised := Step(ser, 7, cur, v, rs, parse);
    assert SerialOrder()[4..6] + [StepCommand(7)] == SerialOrder()[4..7];
    assert ser.written == old(ser.written) + SerialOrder()[4..7];
    if raised { return cur, 7; }
    // Tn
    cur, raised := Step(ser, 8, cur, v, rs, parse);
    assert SerialOrder()[4..7] + [StepCommand(8)] == SerialOrder()[4..8];
    assert ser.written == old(ser.written) + SerialOrder()[4..8];
    if raised { return cur, 8; }
    // Tv
    cur, raised := Step(ser, 9, cur, v, rs, parse);
    assert SerialOrder()[4..8] + [StepCommand(9)] == SerialOrder()[4..9];
    assert ser.written == old(ser.written) + SerialOrder()[4..9];
    if raised { return cur, 9; }
    stop := Steps;
  }

  /** The `try` block of one round of `run()` on the thermostat link `ser` and the pressure
      link `serP` (`None` when not connected), from the variables `v` that earlier rounds left:
      it stops at the first step that raises and assigns the variables of the steps before. */
  method TryBlock(ser: Link, serP: Link?, v: seq<Slot>, parse: string -> Option<real>,
                  ghost sPos: nat, ghost pScript: Option<seq<Reply>>, ghost pPos: nat)
    returns (cur: seq<Slot>, stop: nat)
    requires |v| == Steps && ser != serP && Linked(ser, serP, sPos, pScript, pPos)
    modifies ser, serP
    ensures var rs := RoundReplies(ser.script, sPos, pScript, pPos);
      && stop == FirstRaise(rs, 0, parse)
      && cur == Overlay(v, rs, stop, parse)
      && ser.written == old(ser.written) + SerialQueries(stop)
      && (serP != null ==> serP.written == old(serP.written) + PressureQueries(stop))
  {
    ghost var rs := RoundReplies(ser.script, sPos, pScript, pPos);
    cur, stop := TextSteps(ser, serP, v, rs, parse, sPos, pScript, pPos);
    if stop < FirstConverted {
      return;
    }
    forall k | FirstConverted <= k < Steps
      ensures rs[k] == ReplyAt(ser.script, |ser.written| + k - FirstConverted)
    {
      assert rs[k] == ReplyAt(ser.script, sPos + k - 1);
    }
    cur, stop := ConvertedSteps(ser, cur, v, rs, parse);
    assert SerialOrder()[..4] + SerialOrder()[4..SerialCount(stop)] == SerialOrder()[..SerialCount(stop)];
  }

  /** One round of `run()`: the try block, the parse step (the corrected one), the emission
      test. */
  method PollRound(ser: Link, serP: Link?, v: seq<Slot>, parse: string -> Option<real>,
                   ghost sPos: nat, ghost pScript: Option<seq<Reply>>, ghost pPos: nat)
    returns (next: seq<Slot>, sample: Option<Sample>)
    requires |v| == Steps && ser != serP && Linked(ser, serP, sPos, pScript, pPos)
    modifies ser, serP
    ensures var rs := RoundReplies(ser.script, sPos, pScript, pPos);
      var r := RoundSpec(v, rs, parse);
      && next == r.vars && sample == r.sample
      && ser.written == old(ser.written) + SerialQueries(r.fetched.stop)
      && (serP != null ==> serP.written == old(serP.written) + PressureQueries(r.fetched.stop))
  {
    var cur, stop := TryBlock(ser, serP, v, parse, sPos, pScript, pPos);
    FetchIsOverlay(v, RoundReplies(ser.script, sPos, pScript, pPos), parse);
    next := ParseStepFixed(cur, parse);
    sample := SampleOf(next);
  }

  // ---------------------------------------------------------------- the thread's loop

  /** What the first `n` rounds of one `run()` leave: the variables, the samples emitted in
      order and the queries written to each link. */
  datatype PollRun = PollRun(vars: seq<Slot>, samples: seq<Sample>, serialSent: seq<string>, pressureSent: seq<string>)

  /** Round `k + 1` of one `run()` (counting from one) on a thermostat link driven by
      `sScript` that had written `sLog` before the first round and a pressure link driven by
      `pScript` (`None`: not connected) that had written `pLog`: the round from the variables
      and at the link positions that the first `k` rounds left. */
  function RoundAt(sScript: seq<Reply>, sLog: seq<string>, pScript: Option<seq<Reply>>, pLog: seq<string>,
                   k: nat, parse: string -> Option<real>): (r: RoundResult)
    ensures |r.vars| == Steps && r.fetched.stop <= Steps
    decreases k + 1, 0
  {
    var prev := Polls(sScript, sLog, pScript, pLog, k, parse);
    RoundSpec(prev.vars, RoundReplies(sScript, |sLog + prev.serialSent|, pScript, |pLog + prev.pressureSent|), parse)
  }

  /** The first `n` rounds of `run()`, each from the variables the one before left. Every round
      writes at least `IN_1` and emits at most one sample. */
  function Polls(sScript: seq<Reply>, sLog: seq<string>, pScript: Option<seq<Reply>>, pLog: seq<string>, n: nat,
                 parse: string -> Option<real>): (r: PollRun)
    ensures |r.vars| == Steps && |r.samples| <= n && n <= |r.serialSent|
    ensures pScript.None? ==> r.pressureSent == []
    decreases n, 1
  {
    if n == 0 then PollRun(InitialVars(), [], [], [])
    else
      var prev := Polls(sScript, sLog, pScript, pLog, n - 1, parse);
      var round := RoundAt(sScript, sLog, pScript, pLog, n - 1, parse);
      PollRun(round.vars,
              prev.samples + (if round.sample.Some? then [round.sample.value] else []),
              prev.serialSent + SerialQueries(round.fetched.stop),
              prev.pressureSent + (if pScript.None? then [] else PressureQueries(round.fetched.stop)))
  }

  /** Without a pressure link `p` is never assigned, so no round of the (corrected) loop ever
      emits a sample. */
  lemma {:induction false} NoPressureLinkNeverEmits(sScript: seq<Reply>, sLog: seq<string>, n: nat,
                                                    parse: string -> Option<real>)
    ensures var r := Polls(sScript, sLog, None, [], n, parse);
      r.samples == [] && r.vars[PressureStep].Unbound?
    decreases n
  {
    if n > 0 {
      NoPressureLinkNeverEmits(sScript, sLog, n - 1, parse);
      var prev := Polls(sScript, sLog, None, [], n - 1, parse);
      var rs := RoundReplies(sScript, |sLog + prev.serialSent|, None, |[] + prev.pressureSent|);
      FaultyPressureKeepsUnbound(prev.vars, rs, parse);
    }
  }

  /** One more round only appends to the samples and to both query logs. */
  lemma PollsGrow(sScript: seq<Reply>, sLog: seq<string>, pScript: Option<seq<Reply>>,
                  pLog: seq<string>, n: nat, parse: string -> Option<real>)
    ensures var a := Polls(sScript, sLog, pScript, pLog, n, parse);
      var b := Polls(sScript, sLog, pScript, pLog, n + 1, parse);
      a.samples <= b.samples && a.serialSent <= b.serialSent && a.pressureSent <= b.pressureSent
  {
    var a := Polls(sScript, sLog, pScript, pLog, n, parse);
    var round := RoundAt(sScript, sLog, pScript, pLog, n, parse);
    var b := Polls(sScript, sLog, pScript, pLog, n + 1, parse);
    assert b.samples == a.samples + (if round.sample.Some? then [round.sample.value] else []);
    assert b.serialSent == a.serialSent + SerialQueries(round.fetched.stop);
    assert b.pressureSent == a.pressureSent + (if pScript.None? then [] else PressureQueries(round.fetched.stop));
  }

  /** `b` has everything `a` emitted and wrote, and maybe more after it. */
  ghost predicate Extends(a: PollRun, b: PollRun)
  {
    a.samples <= b.samples && a.serialSent <= b.serialSent && a.pressureSent <= b.pressureSent
  }

  /** A chain of runs each extending the one before extends from any point to any later one. */
  lemma {:induction false} ChainExtends(h: nat -> PollRun, n: nat, m: nat)
    requires n <= m
    requires forall k: nat :: Extends(h(k), h(k + 1))
    ensures Extends(h(n), h(m))
    decreases m
  {
    if n < m {
      ChainExtends(h, n, m - 1);
      assert Extends(h(m - 1), h(m));
    }
  }

  /** Stopping the loop later only adds: the samples emitted and the queries written by the
      first `n` rounds are prefixes of those of the first `m >= n`. */
  lemma PollsPrefix(sScript: seq<Reply>, sLog: seq<string>, pScript: Option<seq<Reply>>,
                    pLog: seq<string>, n: nat, m: nat, parse: string -> Option<real>)
    requires n <= m
    ensures var a := Polls(sScript, sLog, pScript, pLog, n, parse);
      var b := Polls(sScript, sLog, pScript, pLog, m, parse);
      a.samples <= b.samples && a.serialSent <= b.serialSent && a.pressureSent <= b.pressureSent
  {
    var h := (k: nat) => Polls(sScript, sLog, pScript, pLog, k, parse);
    forall k: nat
      ensures Extends(h(k), h(k + 1))
    {
      PollsGrow(sScript, sLog, pScript, pLog, k, parse);
    }
    ChainExtends(h, n, m);
  }

  /** A round whose pressure step raises while `p` is still unassigned leaves it unassigned
      and emits nothing. */
  lemma FaultyPressureKeepsUnbound(v: seq<Slot>, rs: seq<Reply>, parse: string -> Option<real>)
    requires |v| == Steps && |rs| == Steps && rs[PressureStep].Fault? && v[PressureStep].Unbound?
    ensures var r := RoundSpec(v, rs, parse);
      r.sample.None? && r.vars[PressureStep].Unbound?
  {
    FetchSpec(v, rs, 0, parse);
    assert Raises(PressureStep, rs[PressureStep], parse);
    assert Fetch(v, rs, 0, parse).vars[PressureStep].Unbound?;
  }

  /** Round `n + 1` is the round from the variables, and at the link positions, that the
      first `n` rounds left. */
  lemma RoundAtIs(sScript: seq<Reply>, sLog: seq<string>, pScript: Option<seq<Reply>>, pLog: seq<string>, n: nat,
                  parse: string -> Option<real>, prev: PollRun)
    requires prev == Polls(sScript, sLog, pScript, pLog, n, parse)
    ensures RoundAt(sScript, sLog, pScript, pLog, n, parse)
            == RoundSpec(prev.vars, RoundReplies(sScript, |sLog + prev.serialSent|, pScript, |pLog + prev.pressureSent|), parse)
  {
  }

  lemma AppendAssoc(o: seq<string>, a: seq<string>, d: seq<string>)
    ensures (o + a) + d == o + (a + d)
  {
  }

  /** The pressure link's script as `Polls` takes it: `None` when it is not connected. */
  function PressureScript(connected: bool, pScript: seq<Reply>): Option<seq<Reply>>
  {
    if connected then Some(pScript) else None
  }

  /** The logs `sw` and `pw` of the two links, the variables and the samples are those the
      first `n` rounds leave after the logs `o` and `oP` (both empty for a link that is not
      connected). */
  ghost predicate Reached(sScript: seq<Reply>, o: seq<string>, sw: seq<string>, connected: bool,
                          pScript: seq<Reply>, oP: seq<string>, pw: seq<string>, n: nat,
                          vars: seq<Slot>, samples: seq<Sample>, parse: string -> Option<real>)
  {
    var r := Polls(sScript, o, PressureScript(connected, pScript), oP, n, parse);
    && vars == r.vars && samples == r.samples && sw == o + r.serialSent && pw == oP + r.pressureSent
  }

  /** What a link that may be absent has written. */
  function LogOf(link: Link?): seq<string>
    reads link
  {
    if link == null then [] else link.written
  }

  /** Before the first round nothing is written and no variable is assigned. */
  lemma ReachedStart(sScript: seq<Reply>, o: seq<string>, connected: bool, pScript: seq<Reply>, oP: seq<string>,
                     parse: string -> Option<real>)
    ensures Reached(sScript, o, o, connected, pScript, oP, oP, 0, InitialVars(), [], parse)
  {
  }

  /** The samples and the logs of the first `n` rounds, whatever variables they leave. */
  ghost predicate Polled(sScript: seq<Reply>, o: seq<string>, sw: seq<string>, connected: bool,
                         pScript: seq<Reply>, oP: seq<string>, pw: seq<string>, n: nat,
                         samples: seq<Sample>, parse: string -> Option<real>)
  {
    var r := Polls(sScript, o, PressureScript(connected, pScript), oP, n, parse);
    && samples == r.samples && sw == o + r.serialSent && pw == oP + r.pressureSent
  }

  lemma ReachedPolled(sScript: seq<Reply>, o: seq<string>, sw: seq<string>, connected: bool,
                      pScript: seq<Reply>, oP: seq<string>, pw: seq<string>, n: nat,
                      vars: seq<Slot>, samples: seq<Sample>, parse: string -> Option<real>)
    requires Reached(sScript, o, sw, connected, pScript, oP, pw, n, vars, samples, parse)
    ensures Polled(sScript, o, sw, connected, pScript, oP, pw, n, samples, parse)
  {
  }

  /** The round run after `Reached` at `n` rounds is round `n + 1`: the one from the variables
      the first `n` rounds left, at the link positions they left. */
  lemma ReachedRound(sScript: seq<Reply>, o: seq<string>, sw: seq<string>, connected: bool,
                     pScript: seq<Reply>, oP: seq<string>, pw: seq<string>, n: nat,
                     vars: seq<Slot>, samples: seq<Sample>, parse: string -> Option<real>)
    requires Reached(sScript, o, sw, connected, pScript, oP, pw, n, vars, samples, parse)
    ensures RoundSpec(vars, RoundReplies(sScript, |sw|, PressureScript(connected, pScript), |pw|), parse)
            == RoundAt(sScript, o, PressureScript(connected, pScript), oP, n, parse)
  {
    var prev := Polls(sScript, o, PressureScript(connected, pScript), oP, n, parse);
    RoundAtIs(sScript, o, PressureScript(connected, pScript), oP, n, parse, prev);
  }

  /** One more round carries `Reached` from `n` rounds to `n + 1`. */
  lemma ReachedNext(sScript: seq<Reply>, o: seq<string>, sw: seq<string>, connected: bool,
                    pScript: seq<Reply>, oP: seq<string>, pw: seq<string>, n: nat,
                    vars: seq<Slot>, samples: seq<Sample>, parse: string -> Option<real>,
                    sw': seq<string>, pw': seq<string>, round: RoundResult)
    requires Reached(sScript, o, sw, connected, pScript, oP, pw, n, vars, samples, parse)
    requires round == RoundAt(sScript, o, PressureScript(connected, pScript), oP, n, parse)
    requires sw' == sw + SerialQueries(round.fetched.stop)
    requires pw' == (if connected then pw + PressureQueries(round.fetched.stop) else pw)
    ensures Reached(sScript, o, sw', connected, pScript, oP, pw', n + 1, round.vars,
                    if round.sample.Some? then samples + [round.sample.value] else samples, parse)
  {
    var prev := Polls(sScript, o, PressureScript(connected, pScript), oP, n, parse);
    AppendAssoc(o, prev.serialSent, SerialQueries(round.fetched.stop));
    if connected {
      AppendAssoc(oP, prev.pressureSent, PressureQueries(round.fetched.stop));
    } else {
      assert prev.pressureSent + [] == prev.pressureSent;
    }
  }

  /** Round `n + 1` of one `run()` whose rounds so far wrote their queries after the logs
      `o` and `oP`. */
  method NextRound(ser: Link, serP: Link?, vars: seq<Slot>, samples: seq<Sample>, parse: string -> Option<real>,
                   ghost o: seq<string>, ghost oP: seq<string>, ghost pS: seq<Reply>, ghost n: nat)
    returns (vars': seq<Slot>, samples': seq<Sample>)
    requires ser != serP && (serP != null ==> pS == serP.script)
    requires Reached(ser.script, o, ser.written, serP != null, pS, oP, LogOf(serP), n, vars, samples, parse)
    modifies ser, serP
    ensures Reached(ser.script, o, ser.written, serP != null, pS, oP, LogOf(serP), n + 1, vars', samples', parse)
  {
    ghost var mid := ser.written;
    ghost var midP := LogOf(serP);
    var sample;
    vars', sample := PollRound(ser, serP, vars, parse, |mid|, PressureScript(serP != null, pS), |midP|);
    samples' := if sample.Some? then samples + [sample.value] else samples;
    ReachedRound(ser.script, o, mid, serP != null, pS, oP, midP, n, vars, samples, parse);
    ReachedNext(ser.script, o, mid, serP != null, pS, oP, midP, n, vars, samples, parse,
                ser.written, LogOf(serP), RoundAt(ser.script, o, PressureScript(serP != null, pS), oP, n, parse));
  }

  /** The reader thread (`SerialThread`). */
  class Poller {
    /** `self.running`. */
    var running: bool

    constructor ()
      ensures !running
    {
      running := false;
    }

    /** `stop()`: the loop ends after the round in progress. */
    method Stop()
      modifies this
      ensures !running
    {
      running := false;
    }

    /** `run()`, ended by a `stop()` from the main window that takes effect during round
        `rounds`: nothing is polled without a thermostat link; otherwise `rounds` rounds run,
        each from the variables the one before left, and `samples` are the `dataReceived`
        emissions in order. */
    method Run(ser: Link?, serP: Link?, parse: string -> Option<real>, rounds: nat) returns (samples: seq<Sample>)
      requires rounds >= 1 && (ser != null ==> ser != serP)
      modifies this, ser, serP
      ensures !running
      ensures ser == null ==> samples == [] && (serP != null ==> serP.written == old(serP.written))
      ensures ser != null ==>
        Polled(ser.script, old(ser.written), ser.written, serP != null, if serP == null then [] else serP.script,
               old(LogOf(serP)), LogOf(serP), rounds, samples, parse)
    {
      running := true;
      samples := [];
      if ser == null {
        running := false;
        return;
      }
      ghost var o := ser.written;
      ghost var oP := if serP == null then [] else serP.written;
      ghost var pS := if serP == null then [] else serP.script;
      var vars := InitialVars();
      var n := 0;
      ReachedStart(ser.script, o, serP != null, pS, oP, parse);
      while running
        invariant n <= rounds && (running <==> n < rounds)
        invariant Reached(ser.script, o, ser.written, serP != null, pS, oP, LogOf(serP), n, vars, samples, parse)
        decreases rounds - n
      {
        vars, samples := NextRound(ser, serP, vars, samples, parse, o, oP, pS, n);
        n := n + 1;
        if n == rounds {
          Stop();
        }
      }
      ReachedPolled(ser.script, o, ser.written, serP != null, pS, oP, LogOf(serP), n, vars, samples, parse);
    }
  }
}
