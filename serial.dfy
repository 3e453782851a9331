/**
 * The serial links of the thermostat (`ser`) and of the pressure transducer (`ser_p`),
 * reduced to what the protocol logic observes: the commands written, in order, and a
 * scripted sequence of reply lines. The k-th command ever written on a link is answered
 * by the k-th entry of its script; once the script is used up every read times out,
 * which pyserial reports as an empty line.
 */
module Serial {
  import opened Options

  /** One reply as the caller sees it after reading and decoding one line.
      `Fault` stands for an exception raised by the write, the read or the decoding. */
  datatype Reply = Line(text: string) | Fault

  /** The reply to the command with overall position `k` on a link driven by `script`. */
  function ReplyAt(script: seq<Reply>, k: nat): (r: Reply)
    ensures k >= |script| ==> r == Line("")
    ensures k < |script| ==> r == script[k]
  {
    if k < |script| then script[k] else Line("")
  }

  /** The replies that the next `n` commands get when `base` commands were written before. */
  function Window(script: seq<Reply>, base: nat, n: nat): (w: seq<Reply>)
    ensures |w| == n
    ensures forall j :: 0 <= j < n ==> w[j] == ReplyAt(script, base + j)
  {
    seq(n, j requires 0 <= j < n => ReplyAt(script, base + j))
  }

  /** No reply in `w` is a fault. */
  predicate Clean(w: seq<Reply>)
  {
    forall j :: 0 <= j < |w| ==> w[j].Line?
  }

  /** `at` is the position of the first faulting reply in `w`. */
  predicate FirstFault(w: seq<Reply>, at: nat)
  {
    at < |w| && w[at].Fault? && Clean(w[..at])
  }

  lemma {:induction false} CleanOrFirstFault(w: seq<Reply>)
    ensures Clean(w) || exists at :: FirstFault(w, at)
  {
    if !Clean(w) {
      var k :| 0 <= k < |w| && w[k].Fault?;
      var at := Least(w, k);
      assert FirstFault(w, at);
    }
  }

  /** The first faulting position at or below `k`. */
  lemma {:induction false} Least(w: seq<Reply>, k: nat) returns (at: nat)
    requires k < |w| && w[k].Fault?
    ensures FirstFault(w, at) && at <= k
    decreases k
  {
    if Clean(w[..k]) {
      at := k;
    } else {
      var j :| 0 <= j < k && w[..k][j].Fault?;
      at := Least(w, j);
    }
  }

  /** A device that has answered its whole script only times out: every later read is a clean
      empty line, never a fault. */
  lemma SilentWindow(script: seq<Reply>, base: nat, n: nat)
    requires base >= |script|
    ensures Clean(Window(script, base, n))
    ensures forall j :: 0 <= j < n ==> Texts(Window(script, base, n))[j] == ""
  {
  }

  /** The first fault, when there is one, is unique. */
  lemma FirstFaultUnique(w: seq<Reply>, a: nat, b: nat)
    requires FirstFault(w, a) && FirstFault(w, b)
    ensures a == b
  {
  }

  /** The replies' texts, in order. */
  function Texts(w: seq<Reply>): (t: seq<string>)
    requires Clean(w)
    ensures |t| == |w| && forall j :: 0 <= j < |w| ==> t[j] == w[j].text
  {
    seq(|w|, j requires 0 <= j < |w| => w[j].text)
  }

  /** Consecutive windows join into one. */
  lemma WindowSplit(script: seq<Reply>, base: nat, n: nat, m: nat)
    ensures Window(script, base, n + m) == Window(script, base, n) + Window(script, base + n, m)
  {
    var a := Window(script, base, n);
    var b := Window(script, base + n, m);
    forall j | n <= j < n + m
      ensures (a + b)[j] == ReplyAt(script, base + j)
    {
      assert (a + b)[j] == b[j - n];
    }
  }

  lemma CleanAppend(a: seq<Reply>, b: seq<Reply>)
    ensures Clean(a + b) <==> Clean(a) && Clean(b)
  {
    if Clean(a) && Clean(b) {
      forall j | 0 <= j < |a + b|
        ensures (a + b)[j].Line?
      {
        if j >= |a| {
          assert (a + b)[j] == b[j - |a|];
        }
      }
    }
    if Clean(a + b) {
      forall j | 0 <= j < |a|
        ensures a[j].Line?
      {
        assert (a + b)[j] == a[j];
      }
      forall j | 0 <= j < |b|
        ensures b[j].Line?
      {
        assert (a + b)[|a| + j] == b[j];
      }
    }
  }

  /** A first fault stays first when more replies follow. */
  lemma FirstFaultPrefix(a: seq<Reply>, b: seq<Reply>, at: nat)
    requires FirstFault(a, at)
    ensures FirstFault(a + b, at)
  {
    assert (a + b)[..at] == a[..at];
  }

  /** A first fault after a clean prefix is the first fault of the whole. */
  lemma FirstFaultAfter(a: seq<Reply>, b: seq<Reply>, at: nat)
    requires Clean(a) && FirstFault(b, at)
    ensures FirstFault(a + b, |a| + at)
  {
    assert (a + b)[..|a| + at] == a + b[..at];
    CleanAppend(a, b[..at]);
  }

  lemma TextsAppend(a: seq<Reply>, b: seq<Reply>)
    requires Clean(a) && Clean(b)
    ensures Clean(a + b) && Texts(a + b) == Texts(a) + Texts(b)
  {
    CleanAppend(a, b);
    assert forall j :: |a| <= j < |a + b| ==> (a + b)[j] == b[j - |a|];
  }

  /** Writing `cmds` in turn, one reply read after each and the run ended by the first reply
      that raises, takes the wire from `before` to `after`, collects the reply texts `acks`
      and ends with `fault`, the position of the faulting reply, if any. */
  ghost predicate Transcript(script: seq<Reply>, before: seq<string>, after: seq<string>,
                             cmds: seq<string>, acks: seq<string>, fault: Option<nat>)
  {
    var w := Window(script, |before|, |cmds|);
    match fault
    case None => Clean(w) && after == before + cmds && acks == Texts(w)
    case Some(at) => FirstFault(w, at) && after == before + cmds[..at + 1]
  }

  /** One command and its reply. */
  lemma TranscriptOne(script: seq<Reply>, before: seq<string>, cmd: string, r: Reply)
    requires r == ReplyAt(script, |before|)
    ensures Transcript(script, before, before + [cmd], [cmd],
                       if r.Line? then [r.text] else [], if r.Fault? then Some(0) else None)
  {
    var w := Window(script, |before|, 1);
    assert w == [r];
    assert w[..0] == [];
  }

  /** A clean run followed by a second run is one run over both command lists. */
  lemma TranscriptThen(script: seq<Reply>, o: seq<string>, m: seq<string>, n: seq<string>,
                       a: seq<string>, b: seq<string>, acksA: seq<string>, acksB: seq<string>, f: Option<nat>)
    requires Transcript(script, o, m, a, acksA, None) && Transcript(script, m, n, b, acksB, f)
    ensures Transcript(script, o, n, a + b, acksA + acksB, if f.None? then None else Some(|a| + f.value))
  {
    var wa := Window(script, |o|, |a|);
    var wb := Window(script, |m|, |b|);
    WindowSplit(script, |o|, |a|, |b|);
    if f.None? {
      TextsAppend(wa, wb);
    } else {
      FirstFaultAfter(wa, wb, f.value);
      assert (a + b)[..|a| + f.value + 1] == a + b[..f.value + 1];
    }
  }

  /** Commands after the faulting one are never written, so they do not change the run. */
  lemma TranscriptStop(script: seq<Reply>, o: seq<string>, m: seq<string>, a: seq<string>,
                       acks: seq<string>, at: nat, b: seq<string>, acks2: seq<string>)
    requires Transcript(script, o, m, a, acks, Some(at))
    ensures Transcript(script, o, m, a + b, acks2, Some(at))
  {
    WindowSplit(script, |o|, |a|, |b|);
    FirstFaultPrefix(Window(script, |o|, |a|), Window(script, |o| + |a|, |b|), at);
    assert (a + b)[..at + 1] == a[..at + 1];
  }

  /** A clean run extended by one more command and its reply. */
  lemma TranscriptExtend(script: seq<Reply>, o: seq<string>, m: seq<string>, done: seq<string>,
                         acks: seq<string>, cmd: string, r: Reply)
    requires Transcript(script, o, m, done, acks, None) && r == ReplyAt(script, |m|)
    ensures Transcript(script, o, m + [cmd], done + [cmd],
                       if r.Line? then acks + [r.text] else acks, if r.Fault? then Some(|done|) else None)
  {
    TranscriptOne(script, m, cmd, r);
    TranscriptThen(script, o, m, m + [cmd], done, [cmd], acks,
                   if r.Line? then [r.text] else [], if r.Fault? then Some(0) else None);
  }

  /** Nothing written yet. */
  lemma TranscriptEmpty(script: seq<Reply>, o: seq<string>)
    ensures Transcript(script, o, o, [], [], None)
  {
    assert Window(script, |o|, 0) == [];
  }

  /** `ser.write(cmd)` then `ser.readline()` as step `k` of a run over `cmds` that started with
      `o` on the wire: the run so far is extended by the step, or ends here when the reply
      raises. */
  method Exchange(ser: Link, cmd: string, ghost o: seq<string>, ghost cmds: seq<string>, ghost k: nat,
                  ghost acks: seq<string>) returns (r: Reply)
    requires k < |cmds| && cmds[k] == cmd
    requires Transcript(ser.script, o, ser.written, cmds[..k], acks, None)
    modifies ser
    ensures ser.written == old(ser.written) + [cmd]
    ensures r == ReplyAt(ser.script, |old(ser.written)|)
    ensures r.Line? ==> Transcript(ser.script, o, ser.written, cmds[..k + 1], acks + [r.text], None)
    ensures r.Fault? ==> Transcript(ser.script, o, ser.written, cmds, acks, Some(k))
  {
    ghost var m := ser.written;
    r := ser.Query(cmd);
    TranscriptExtend(ser.script, o, m, cmds[..k], acks, cmd, r);
    assert cmds[..k] + [cmd] == cmds[..k + 1];
    if r.Fault? {
      TranscriptStop(ser.script, o, ser.written, cmds[..k + 1], acks, k, cmds[k + 1..], acks);
      assert cmds[..k + 1] + cmds[k + 1..] == cmds;
    }
  }

  class Link {
    /** The replies the device gives, one per command, in order. */
    const script: seq<Reply>
    /** `is_open`: whether the port was opened successfully. */
    const isOpen: bool
    /** Every command written so far, in order. */
    var written: seq<string>

    constructor (script: seq<Reply>, isOpen: bool)
      ensures this.script == script && this.isOpen == isOpen && written == []
    {
      this.script := script;
      this.isOpen := isOpen;
      written := [];
    }

    /** `write(cmd)` followed by one `readline()`. */
    method Query(cmd: string) returns (r: Reply)
      modifies this
      ensures written == old(written) + [cmd]
      ensures r == ReplyAt(script, |old(written)|)
    {
      r := ReplyAt(script, |written|);
      written := written + [cmd];
    }
  }
}
