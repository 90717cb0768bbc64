/** client_loop of the wrtctl command-line client (src/bin/wrtctl.c): each
    command line is turned into a packet, sent, answered and consumed before
    the next line is read. Reading the command file, line_to_packet and
    select(2) are inputs: a line comes with what select reported while its
    answer was awaited, and the parser is a function given with the run. */
module WrtctlClient {
  import opened WrtctlNet
  import opened NetCommon
  import opened NetClient

  /** getline's buffer size limit the client refuses. */
  const MAX_LINE: nat := 1024

  /** What getline returns for a line: at least one character. */
  type LineText = s: string | |s| > 0 witness "\n"

  /** A command line, and what select(2) reports while its answer is
      awaited. */
  datatype Line = Line(text: LineText, ready: Ready)

  /** line_to_packet: a framed packet, or a refusal. */
  type Parsed = o: Option<Packet> | o.Some? ==> Framed(o.value) witness None

  /** The command file: its lines, and whether getline stopped on a read
      error rather than at the end of the file. */
  datatype Input = Input(lines: seq<Line>, readError: bool)

  /** The line without its trailing newline, as the C string line_to_packet
      sees. */
  function LineOf(l: Line): (r: string)
    ensures IsCString(r) && |r| <= |l.text|
  {
    var t := l.text;
    CStr(if t[|t| - 1] == '\n' then t[..|t| - 1] else t)
  }

  /** printf("%-40s", s): s, padded with spaces to 40 characters. */
  function Pad40(s: string): (r: string)
    ensures |r| == if |s| < 40 then 40 else |s|
    ensures r[..|s|] == s && forall i :: |s| <= i < |r| ==> r[i] == ' '
  {
    if |s| >= 40 then s else s + seq(40 - |s|, _ => ' ')
  }

  /** What a successful answer prints: its value, after the line itself in
      verbose mode; an answer without a value prints nothing. */
  function Printed(verbose: bool, line: string, value: Option<string>): string
  {
    if value.None? then []
    else (if verbose then Pad40(line) + " --> " else []) + CStr(value.value) + "\n"
  }

  /** A connection whose send queue holds only whole frames. */
  type FramedState = s: ConnState | AllFramed(s.sendq) witness ConnState(false, NET_OK, [], [], Link([], [], []))

  /** One turn of the loop: stop with a code, or go on with what it printed. */
  datatype Turn = Stop(rc: nat, at: ConnState) | Next(st: FramedState, printed: string)

  /** One command line: refuse a line of exactly MAX_LINE characters or one
      line_to_packet refuses; queue the packet and wait_on_response with
      flushing; take the head of recvq as the answer; an error code in it
      stops the loop. */
  function LineStep(parse: string -> Parsed, verbose: bool, l: Line, s: FramedState): (r: Turn)
    ensures r.Next? ==> r.st.sendq == []
  {
    if |l.text| == MAX_LINE then Stop(EINVAL, s)
    else match parse(LineOf(l))
      case None => Stop(EINVAL, s)
      case Some(p) =>
        var s1 := s.(sendq := s.sendq + [p]);
        assert AllFramed(s1.sendq) by {
          assert forall i :: 0 <= i < |s.sendq| ==> s1.sendq[i] == s.sendq[i];
        }
        var w := WaitSpec(s1, true, l.ready);
        if w.rc != NET_OK then Stop(ETIMEDOUT, w.st)
        else if w.st.recvq == [] then Stop(ETIMEDOUT, w.st)
        else match UnpackNetCmdPacket(w.st.recvq[0])
          case None => Stop(ENOMEM, w.st)
          case Some(cmd) =>
            var s2 := w.st.(recvq := w.st.recvq[1..]);
            if cmd.id != 0 then Stop(cmd.id, s2)
            else
              WaitOutcome(s1, true, l.ready);
              Next(s2, Printed(verbose, LineOf(l), cmd.value))
  }

  /** A whole run: its code, the connection afterwards, what went to stdout,
      and how many lines were answered without error. */
  datatype Run = Run(rc: nat, st: ConnState, out: string, answered: nat)

  /** The loop of client_loop for a given turn: the lines in order until one
      stops it; at the end of the input, a read error is code 1. */
  function Fold(step: (Line, FramedState) -> Turn, lines: seq<Line>, readError: bool, s: FramedState): Run
    decreases |lines|
  {
    if lines == [] then Run(if readError then 1 else 0, s, [], 0)
    else match step(lines[0], s)
      case Stop(rc, st) => Run(rc, st, [], 0)
      case Next(st, printed) =>
        var r := Fold(step, lines[1..], readError, st);
        Run(r.rc, r.st, printed + r.out, r.answered + 1)
  }

  /** client_loop. */
  function ClientSpec(parse: string -> Parsed, verbose: bool, lines: seq<Line>, readError: bool, s: FramedState): Run
  {
    Fold((l: Line, st: FramedState) => LineStep(parse, verbose, l, st), lines, readError, s)
  }

  /** A turn that stops always stops with a code other than 0. */
  lemma StopIsFailure(parse: string -> Parsed, verbose: bool, l: Line, s: FramedState)
    ensures LineStep(parse, verbose, l, s).Stop? ==> LineStep(parse, verbose, l, s).rc != 0
  {
  }

  lemma {:induction false} FoldSucceeds(step: (Line, FramedState) -> Turn, lines: seq<Line>, readError: bool, s: FramedState)
    requires forall l, st :: step(l, st).Stop? ==> step(l, st).rc != 0
    ensures var r := Fold(step, lines, readError, s);
      r.answered <= |lines| && (r.rc == 0 <==> r.answered == |lines| && !readError)
    decreases |lines|
  {
    if lines != [] && step(lines[0], s).Next? {
      FoldSucceeds(step, lines[1..], readError, step(lines[0], s).st);
    }
  }

  /** client_loop returns 0 exactly when every line was answered without
      error and the input ended cleanly; otherwise it stopped at the first
      line that failed. */
  lemma ClientSucceeds(parse: string -> Parsed, verbose: bool, lines: seq<Line>, readError: bool, s: FramedState)
    ensures var r := ClientSpec(parse, verbose, lines, readError, s);
      r.answered <= |lines| && (r.rc == 0 <==> r.answered == |lines| && !readError)
  {
    var step := (l: Line, st: FramedState) => LineStep(parse, verbose, l, st);
    forall l, st ensures step(l, st).Stop? ==> step(l, st).rc != 0 {
      StopIsFailure(parse, verbose, l, st);
    }
    FoldSucceeds(step, lines, readError, s);
  }

  /** The packet line_to_packet makes of a line, if any. */
  function Parsed1(parse: string -> Parsed, l: Line): seq<Packet>
  {
    match parse(LineOf(l)) case None => [] case Some(p) => [p]
  }

  /** The packets line_to_packet made of the lines, in order. */
  function Sent(parse: string -> Parsed, lines: seq<Line>): seq<Packet>
  {
    if lines == [] then [] else Parsed1(parse, lines[0]) + Sent(parse, lines[1..])
  }

  lemma {:induction false} FramesAppend(q: seq<Packet>, p: Packet)
    ensures Frames(q + [p]) == Frames(q) + p.data
    decreases |q|
  {
    if q == [] {
      assert [p][1..] == [];
    } else {
      assert (q + [p])[1..] == q[1..] + [p];
      FramesAppend(q[1..], p);
    }
  }

  /** A line that goes through was parsed, its packet and nothing else went
      onto the wire after what was queued before it, and a line refused
      for its length or by line_to_packet sends nothing and changes
      nothing. */
  lemma LineOutcome(parse: string -> Parsed, verbose: bool, l: Line, s: FramedState)
    ensures var t := LineStep(parse, verbose, l, s);
      (t.Next? ==>
         parse(LineOf(l)).Some? &&
         t.st.link.wire == s.link.wire + Frames(s.sendq) + parse(LineOf(l)).value.data) &&
      (|l.text| == MAX_LINE || parse(LineOf(l)).None? ==> t == Stop(EINVAL, s))
  {
    var t := LineStep(parse, verbose, l, s);
    if t.Next? {
      var p := parse(LineOf(l)).value;
      var s1 := s.(sendq := s.sendq + [p]);
      WaitOutcome(s1, true, l.ready);
      FramesAppend(s.sendq, p);
    }
  }

  lemma {:induction false} FoldSends(step: (Line, FramedState) -> Turn, sent: Line -> seq<Packet>,
                                     lines: seq<Line>, readError: bool, s: FramedState)
    requires s.sendq == []
    requires forall l, st: FramedState :: st.sendq == [] && step(l, st).Next? ==>
      step(l, st).st.sendq == [] && step(l, st).st.link.wire == st.link.wire + Frames(sent(l))
    ensures var r := Fold(step, lines, readError, s);
      r.answered == |lines| ==> r.st.link.wire == s.link.wire + Frames(SentBy(sent, lines))
    decreases |lines|
  {
    if lines != [] && step(lines[0], s).Next? {
      var t := step(lines[0], s);
      FoldSends(step, sent, lines[1..], readError, t.st);
      FramesConcat(sent(lines[0]), SentBy(sent, lines[1..]));
    }
  }

  /** The packets a run made, line by line. */
  function SentBy(sent: Line -> seq<Packet>, lines: seq<Line>): seq<Packet>
  {
    if lines == [] then [] else sent(lines[0]) + SentBy(sent, lines[1..])
  }

  lemma {:induction false} FramesConcat(a: seq<Packet>, b: seq<Packet>)
    ensures Frames(a + b) == Frames(a) + Frames(b)
    decreases |a|
  {
    if a == [] {
      assert a + b == b;
    } else {
      assert (a + b)[1..] == a[1..] + b;
      FramesConcat(a[1..], b);
    }
  }

  lemma {:induction false} SentIsSentBy(parse: string -> Parsed, lines: seq<Line>)
    ensures Sent(parse, lines) == SentBy(l => Parsed1(parse, l), lines)
    decreases |lines|
  {
    if lines != [] {
      SentIsSentBy(parse, lines[1..]);
    }
  }

  /** Commands go out strictly in order: when every line was answered, the
      wire carries exactly the frames of the parsed lines, one after the
      other, starting from the empty send queue of a new connection. */
  lemma ClientSendsInOrder(parse: string -> Parsed, verbose: bool, lines: seq<Line>, readError: bool, s: FramedState)
    requires s.sendq == []
    ensures var r := ClientSpec(parse, verbose, lines, readError, s);
      r.answered == |lines| ==> r.st.link.wire == s.link.wire + Frames(Sent(parse, lines))
  {
    var step := (l: Line, st: FramedState) => LineStep(parse, verbose, l, st);
    var sent := l => Parsed1(parse, l);
    forall l, st: FramedState | st.sendq == [] && step(l, st).Next?
      ensures step(l, st).st.sendq == [] && step(l, st).st.link.wire == st.link.wire + Frames(sent(l))
    {
      LineSends(parse, verbose, l, st);
    }
    FoldSends(step, sent, lines, readError, s);
    SentIsSentBy(parse, lines);
  }

  /** An answered line leaves nothing queued and has put its own packet on
      the wire. */
  lemma LineSends(parse: string -> Parsed, verbose: bool, l: Line, st: FramedState)
    requires st.sendq == [] && LineStep(parse, verbose, l, st).Next?
    ensures LineStep(parse, verbose, l, st).st.sendq == []
    ensures LineStep(parse, verbose, l, st).st.link.wire == st.link.wire + Frames(Parsed1(parse, l))
  {
    LineOutcome(parse, verbose, l, st);
    var p := parse(LineOf(l)).value;
    assert Parsed1(parse, l) == [p];
    assert [p][1..] == [];
    assert Frames([p]) == p.data;
    assert st.link.wire + Frames(st.sendq) == st.link.wire;
  }

  /** One turn of client_loop on the client's connection. */
  method LineTurn(nc: Client, parse: string -> Parsed, verbose: bool, l: Line) returns (stop: bool, rc: nat, printed: string)
    requires nc.dd != null && nc.dd.Valid()
    modifies nc.dd
    ensures nc.dd.Valid()
    ensures (if stop then Stop(rc, nc.dd.State()) else Next(nc.dd.State(), printed)) ==
            LineStep(parse, verbose, l, old(nc.dd.State()))
  {
    var dd := nc.dd;
    printed := [];
    if |l.text| == MAX_LINE {
      return true, EINVAL, printed;
    }
    var line := LineOf(l);
    var sp := parse(line);
    if sp.None? {
      return true, EINVAL, printed;
    }
    ghost var s0 := dd.State();
    dd.AddPacket(sp.value);
    ghost var s1 := dd.State();
    assert s1 == s0.(sendq := s0.sendq + [sp.value]);
    rc := nc.WaitOnResponse(true, l.ready);
    if rc != NET_OK {
      return true, ETIMEDOUT, printed;
    }
    if dd.recvq == [] {
      return true, ETIMEDOUT, printed;
    }
    var ncmd := UnpackNetCmdPacket(dd.recvq[0]);
    if ncmd.None? {
      return true, ENOMEM, printed;
    }
    dd.recvq := dd.recvq[1..];
    if ncmd.value.id != 0 {
      return true, ncmd.value.id, printed;
    }
    WaitOutcome(s1, true, l.ready);
    printed := Printed(verbose, line, ncmd.value.value);
    stop := false;
  }

  /** What is left of a run after some lines were answered and printed. */
  function Resume(out: string, answered: nat, r: Run): Run
  {
    Run(r.rc, r.st, out + r.out, answered + r.answered)
  }

  /** The loop after i lines: the run from the start is what was printed so
      far followed by the run of the remaining lines. */
  ghost predicate Looping(step: (Line, FramedState) -> Turn, lines: seq<Line>, readError: bool,
                          whole: Run, i: nat, st: FramedState, out: string, answered: nat)
  {
    i <= |lines| && whole == Resume(out, answered, Fold(step, lines[i..], readError, st))
  }

  lemma LoopStart(step: (Line, FramedState) -> Turn, lines: seq<Line>, readError: bool, s0: FramedState)
    ensures Looping(step, lines, readError, Fold(step, lines, readError, s0), 0, s0, [], 0)
  {
    assert lines[0..] == lines;
  }

  lemma LoopNext(step: (Line, FramedState) -> Turn, lines: seq<Line>, readError: bool,
                 whole: Run, i: nat, st: FramedState, out: string, answered: nat)
    requires Looping(step, lines, readError, whole, i, st, out, answered)
    requires i < |lines| && step(lines[i], st).Next?
    ensures var t := step(lines[i], st);
      Looping(step, lines, readError, whole, i + 1, t.st, out + t.printed, answered + 1)
  {
    assert lines[i..][0] == lines[i] && lines[i..][1..] == lines[i + 1..];
  }

  lemma LoopStop(step: (Line, FramedState) -> Turn, lines: seq<Line>, readError: bool,
                 whole: Run, i: nat, st: FramedState, out: string, answered: nat)
    requires Looping(step, lines, readError, whole, i, st, out, answered)
    requires i < |lines| && step(lines[i], st).Stop?
    ensures whole.rc == step(lines[i], st).rc && whole.out == out && whole.st == step(lines[i], st).at
  {
    assert lines[i..][0] == lines[i];
  }

  lemma LoopEnd(step: (Line, FramedState) -> Turn, lines: seq<Line>, readError: bool,
                whole: Run, st: FramedState, out: string, answered: nat)
    requires Looping(step, lines, readError, whole, |lines|, st, out, answered)
    ensures whole.rc == (if readError then 1 else 0) && whole.out == out && whole.st == st
  {
    assert lines[|lines|..] == [];
  }

  /** client_loop: read, send and answer each line until one fails, then
      report an unfinished input. */
  method ClientLoop(nc: Client, parse: string -> Parsed, verbose: bool, input: Input) returns (rc: nat, out: string)
    requires nc.dd != null && nc.dd.Valid()
    modifies nc.dd
    ensures nc.dd.Valid()
    ensures var r := ClientSpec(parse, verbose, input.lines, input.readError, old(nc.dd.State()));
      rc == r.rc && out == r.out && nc.dd.State() == r.st
  {
    var lines := input.lines;
    ghost var step := (l: Line, st: FramedState) => LineStep(parse, verbose, l, st);
    ghost var whole := ClientSpec(parse, verbose, lines, input.readError, nc.dd.State());
    ghost var answered: nat := 0;
    out := [];
    var i := 0;
    LoopStart(step, lines, input.readError, nc.dd.State());
    while i < |lines|
      invariant nc.dd.Valid()
      invariant Looping(step, lines, input.readError, whole, i, nc.dd.State(), out, answered)
    {
      ghost var st: FramedState := nc.dd.State();
      assert step(lines[i], st) == LineStep(parse, verbose, lines[i], st);
      var stop, code, printed := LineTurn(nc, parse, verbose, lines[i]);
      if stop {
        LoopStop(step, lines, input.readError, whole, i, st, out, answered);
        return code, out;
      }
      LoopNext(step, lines, input.readError, whole, i, st, out, answered);
      out := out + printed;
      answered := answered + 1;
      i := i + 1;
    }
    LoopEnd(step, lines, input.readError, whole, nc.dd.State(), out, answered);
    rc := if input.readError then 1 else 0;
  }
}
