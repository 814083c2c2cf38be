/**
 * One terminal session (runTerminalSession in cluster-manager/terminal.go),
 * modelled sequentially. The websocket, the pseudo-terminal and the shell
 * process are replaced by scripts: each copy loop is run over a list of read
 * results and write outcomes, and what the session does to the outside world
 * is recorded, in order, as a log of effects. The two goroutines and the
 * waiting main goroutine become methods that the environment calls in any
 * order the Go scheduler could produce at the granularity of whole script
 * segments.
 *
 * `close(done)` is a once-only operation: a second close is Go's run-time
 * panic "close of closed channel", modelled as the effect
 * Panic(CloseOfClosedChannel). When the handler's own close after cmd.Wait
 * panics, the deferred pty close runs and the HTTP server recovers (phase
 * HandlerPanicked); when the websocket-to-pty goroutine's close panics,
 * nothing recovers it and the process ends (phase Crashed).
 */
module TerminalSession {
  import opened Wrappers
  import opened ResizeScanner

  /** One result of ws.Read: a chunk (possibly empty) or an error, EOF included. */
  datatype WsRead = WsData(chunk: seq<byte>) | WsReadError(eof: bool)

  /** One iteration of the websocket-to-pty loop: what ws.Read returned and whether ptmx.Write, if reached, succeeds. */
  datatype InStep = InStep(read: WsRead, ptyWriteOk: bool)

  /** One result of ptmx.Read. */
  datatype PtyRead = PtyData(chunk: seq<byte>) | PtyReadError(eof: bool)

  /** One iteration of the pty-to-websocket loop: what ptmx.Read returned and whether ws.Write, if reached, succeeds. */
  datatype OutStep = OutStep(read: PtyRead, wsWriteOk: bool)

  datatype PanicReason = IndexOutOfRange | CloseOfClosedChannel

  /** What the session does to the outside world, in the order it does it. */
  datatype Effect =
    | WsWrite(data: seq<byte>)
    | PtyWrite(data: seq<byte>)
    | Setsize(size: Winsize)
    | CloseDone
    | Interrupt
    | CloseWs
    | WaitLoops
    | ClosePty
    | Panic(reason: PanicReason)

  /** How a copy loop left off when its script ran out or it returned. */
  datatype LoopEnd = StillRunning | ReadFailed | WriteFailed | DoneObserved | Panicked

  /** The effects of running a copy loop over a script, and how it ended. */
  datatype Run = Run(effects: seq<Effect>, end: LoopEnd)

  // ---------------------------------------------------------------------
  // The two copy loops as functions of their scripts

  /** What one iteration of a copy loop does: its effects, and whether the loop goes on. */
  datatype Step = Continue(effects: seq<Effect>) | Return(effects: seq<Effect>, end: LoopEnd)

  /** close(done): closing the channel a second time is a run-time panic. */
  function Close(done: bool): seq<Effect>
  {
    if done then [Panic(CloseOfClosedChannel)] else [CloseDone]
  }

  /** One iteration of the websocket-to-pty loop (terminal.go:67-86). */
  function InboundStep(st: InStep, done: bool): Step
  {
    match st.read
    case WsReadError(_) =>
      if done then Return(Close(done), Panicked)
      else Return(Close(done) + [Interrupt], ReadFailed)
    case WsData(chunk) =>
      if |chunk| == 0 then Continue([])
      else if chunk[0] == LBRACE then
        match Resize(chunk)
        case Crash => Return([Panic(IndexOutOfRange)], Panicked)
        case Resized(size) => Continue([Setsize(size)])
      else if !st.ptyWriteOk then Return([], WriteFailed)
      else Continue([PtyWrite(chunk)])
  }

  /** What the pty-to-websocket loop does with one completed ptmx.Read (terminal.go:43-56). */
  function OutboundStep(st: OutStep): Step
  {
    match st.read
    case PtyReadError(_) => Return([], ReadFailed)
    case PtyData(chunk) =>
      if |chunk| == 0 then Continue([])
      else if !st.wsWriteOk then Return([], WriteFailed)
      else Continue([WsWrite(chunk)])
  }

  /**
   * The websocket-to-pty loop (terminal.go:63-88) over a script, given whether
   * `done` is already closed when it starts; the loop never looks at `done`
   * except through its own close.
   */
  function Inbound(script: seq<InStep>, done: bool): Run
    decreases |script|
  {
    if script == [] then Run([], StillRunning)
    else
      match InboundStep(script[0], done)
      case Return(es, end) => Run(es, end)
      case Continue(es) => var r := Inbound(script[1..], done); Run(es + r.effects, r.end)
  }

  /**
   * The pty-to-websocket loop (terminal.go:36-59) over a script, given whether
   * `done` is closed and whether the loop is already blocked in ptmx.Read
   * (past its `select`). Each iteration first looks at `done` and returns if
   * it is closed; a read already in progress completes first. Nothing in the
   * loop itself closes `done`.
   */
  function Outbound(script: seq<OutStep>, done: bool, inRead: bool): Run
    decreases |script|
  {
    if done && !inRead then Run([], DoneObserved)
    else if script == [] then Run([], StillRunning)
    else
      match OutboundStep(script[0])
      case Return(es, end) => Run(es, end)
      case Continue(es) => var r := Outbound(script[1..], done, false); Run(es + r.effects, r.end)
  }

  // ---------------------------------------------------------------------
  // Reference views of a script and of an effect log

  predicate IsControl(chunk: seq<byte>)
  {
    |chunk| > 0 && chunk[0] == LBRACE
  }

  predicate IsKeystrokes(chunk: seq<byte>)
  {
    |chunk| > 0 && chunk[0] != LBRACE
  }

  /** Does the inbound loop return at this step? */
  predicate InboundStopsAt(st: InStep)
  {
    match st.read
    case WsReadError(_) => true
    case WsData(chunk) =>
      (IsControl(chunk) && Resize(chunk) == Crash) || (IsKeystrokes(chunk) && !st.ptyWriteOk)
  }

  /** The index of the first step the inbound loop returns at, or |script|. */
  function InboundStop(script: seq<InStep>): (k: nat)
    ensures k <= |script|
    ensures forall m :: 0 <= m < k ==> !InboundStopsAt(script[m])
    ensures k < |script| ==> InboundStopsAt(script[k])
  {
    if script == [] then 0
    else if InboundStopsAt(script[0]) then 0
    else 1 + InboundStop(script[1..])
  }

  /** The keystroke chunks read in a script, in order. */
  function Keystrokes(script: seq<InStep>): seq<seq<byte>>
  {
    if script == [] then []
    else
      (if script[0].read.WsData? && IsKeystrokes(script[0].read.chunk) then [script[0].read.chunk] else [])
      + Keystrokes(script[1..])
  }

  /** The sizes that the control chunks read in a script resize to, in order. */
  function ControlSizes(script: seq<InStep>): seq<Winsize>
  {
    if script == [] then []
    else
      (if script[0].read.WsData? && IsControl(script[0].read.chunk) && Resize(script[0].read.chunk).Resized?
       then [Resize(script[0].read.chunk).size] else [])
      + ControlSizes(script[1..])
  }

  /** The data of the PtyWrite effects of a log, in order. */
  function PtyWrites(log: seq<Effect>): seq<seq<byte>>
  {
    if log == [] then []
    else (if log[0].PtyWrite? then [log[0].data] else []) + PtyWrites(log[1..])
  }

  /** The data of the WsWrite effects of a log, in order. */
  function WsWrites(log: seq<Effect>): seq<seq<byte>>
  {
    if log == [] then []
    else (if log[0].WsWrite? then [log[0].data] else []) + WsWrites(log[1..])
  }

  /** The sizes of the Setsize effects of a log, in order. */
  function Setsizes(log: seq<Effect>): seq<Winsize>
  {
    if log == [] then []
    else (if log[0].Setsize? then [log[0].size] else []) + Setsizes(log[1..])
  }

  /** Where the outbound loop returns: at a read error or a failing write of a non-empty chunk. */
  predicate OutboundStopsAt(st: OutStep)
  {
    match st.read
    case PtyReadError(_) => true
    case PtyData(chunk) => |chunk| > 0 && !st.wsWriteOk
  }

  function OutboundStop(script: seq<OutStep>): (k: nat)
    ensures k <= |script|
    ensures forall m :: 0 <= m < k ==> !OutboundStopsAt(script[m])
    ensures k < |script| ==> OutboundStopsAt(script[k])
  {
    if script == [] then 0
    else if OutboundStopsAt(script[0]) then 0
    else 1 + OutboundStop(script[1..])
  }

  /** The non-empty chunks read from the pty in a script, in order. */
  function PtyChunks(script: seq<OutStep>): seq<seq<byte>>
  {
    if script == [] then []
    else
      (if script[0].read.PtyData? && |script[0].read.chunk| > 0 then [script[0].read.chunk] else [])
      + PtyChunks(script[1..])
  }

  lemma {:induction false} PtyWritesAppend(a: seq<Effect>, b: seq<Effect>)
    ensures PtyWrites(a + b) == PtyWrites(a) + PtyWrites(b)
    ensures WsWrites(a + b) == WsWrites(a) + WsWrites(b)
    ensures Setsizes(a + b) == Setsizes(a) + Setsizes(b)
  {
    if a != [] {
      assert (a + b)[1..] == a[1..] + b;
      PtyWritesAppend(a[1..], b);
    } else {
      assert a + b == b;
    }
  }

  lemma {:induction false} NoWrites(es: seq<Effect>)
    requires forall m :: 0 <= m < |es| ==> !es[m].PtyWrite? && !es[m].Setsize? && !es[m].WsWrite?
    ensures PtyWrites(es) == [] && Setsizes(es) == [] && WsWrites(es) == []
  {
    if es != [] {
      NoWrites(es[1..]);
    }
  }

  /** The effects of a stopping inbound step write nothing to the pty and resize nothing. */
  lemma StopWritesNothing(st: InStep, done: bool)
    requires InboundStopsAt(st)
    ensures InboundStep(st, done).Return?
    ensures PtyWrites(InboundStep(st, done).effects) == [] && Setsizes(InboundStep(st, done).effects) == []
  {
    NoWrites(InboundStep(st, done).effects);
  }

  /** The prefix of a script up to a stop index, one step at a time. */
  lemma PrefixStep<T>(script: seq<T>, k: nat)
    requires 0 < k <= |script|
    ensures script[..k] == [script[0]] + script[1..][..k - 1]
    ensures script[..k][1..] == script[1..][..k - 1]
  {
  }

  // ---------------------------------------------------------------------
  // What the copy loops do

  /**
   * The websocket-to-pty loop writes to the pty exactly the keystroke chunks
   * (non-empty, not starting with `{`) it reads before the step it returns
   * at, verbatim and in read order. Empty reads write nothing, and no chunk
   * starting with `{` ever reaches the pty.
   */
  lemma {:induction false} InboundForwardsKeystrokes(script: seq<InStep>, done: bool)
    ensures PtyWrites(Inbound(script, done).effects) == Keystrokes(script[..InboundStop(script)])
  {
    if script == [] {
    } else if InboundStopsAt(script[0]) {
      assert script[..InboundStop(script)] == [];
      StopWritesNothing(script[0], done);
    } else {
      var rest := script[1..];
      var es := InboundStep(script[0], done).effects;
      assert InboundStep(script[0], done).Continue?;
      InboundForwardsKeystrokes(rest, done);
      PtyWritesAppend(es, Inbound(rest, done).effects);
      PrefixStep(script, InboundStop(script));
      assert PtyWrites(es) == (if script[0].read.WsData? && IsKeystrokes(script[0].read.chunk) then [script[0].read.chunk] else []);
    }
  }

  /**
   * Every control chunk read before the loop returns goes to handleResize,
   * and its Setsize calls are made in read order.
   */
  lemma {:induction false} InboundResizes(script: seq<InStep>, done: bool)
    ensures Setsizes(Inbound(script, done).effects) == ControlSizes(script[..InboundStop(script)])
  {
    if script == [] {
    } else if InboundStopsAt(script[0]) {
      assert script[..InboundStop(script)] == [];
      StopWritesNothing(script[0], done);
    } else {
      var rest := script[1..];
      var es := InboundStep(script[0], done).effects;
      assert InboundStep(script[0], done).Continue?;
      InboundResizes(rest, done);
      PtyWritesAppend(es, Inbound(rest, done).effects);
      PrefixStep(script, InboundStop(script));
      assert Setsizes(es) == (if script[0].read.WsData? && IsControl(script[0].read.chunk) && Resize(script[0].read.chunk).Resized?
                              then [Resize(script[0].read.chunk).size] else []);
    }
  }

  /**
   * The websocket-to-pty loop returns at the first step that is a websocket
   * read error, a keystroke chunk whose pty write fails, or a control chunk
   * that makes handleResize panic; it is still running when the script runs
   * out first.
   */
  lemma {:induction false} InboundEnds(script: seq<InStep>, done: bool)
    ensures var r := Inbound(script, done); var k := InboundStop(script);
      && (r.end == StillRunning <==> k == |script|)
      && (r.end == ReadFailed <==> k < |script| && script[k].read.WsReadError? && !done)
      && (r.end == WriteFailed <==> k < |script| && script[k].read.WsData? && IsKeystrokes(script[k].read.chunk))
      && (r.end == Panicked <==> k < |script| && (if script[k].read.WsReadError? then done else IsControl(script[k].read.chunk)))
      && r.end != DoneObserved
  {
    if script != [] {
      if InboundStopsAt(script[0]) {
        assert InboundStep(script[0], done).Return?;
      } else {
        assert InboundStep(script[0], done).Continue?;
        InboundEnds(script[1..], done);
      }
    }
  }

  /**
   * No ending but a websocket read error with `done` still open closes
   * `done` or interrupts the shell, and that ending does each exactly once.
   */
  lemma {:induction false} InboundSignalsOnce(script: seq<InStep>, done: bool)
    ensures Count(Inbound(script, done).effects, CloseDone) == (if Inbound(script, done).end == ReadFailed then 1 else 0)
    ensures Count(Inbound(script, done).effects, Interrupt) == (if Inbound(script, done).end == ReadFailed then 1 else 0)
  {
    if script != [] {
      var st := InboundStep(script[0], done);
      StepSignals(script[0], done);
      if st.Continue? {
        var r := Inbound(script[1..], done);
        InboundSignalsOnce(script[1..], done);
        assert Inbound(script, done) == Run(st.effects + r.effects, r.end);
        CountAppend(st.effects, r.effects, CloseDone);
        CountAppend(st.effects, r.effects, Interrupt);
      } else {
        assert Inbound(script, done) == Run(st.effects, st.end);
      }
    }
  }

  /** One inbound step closes `done` and interrupts only when it returns on a read error, and then once each. */
  lemma StepSignals(st: InStep, done: bool)
    ensures var t := InboundStep(st, done);
      var n := if t.Return? && t.end == ReadFailed then 1 else 0;
      Count(t.effects, CloseDone) == n && Count(t.effects, Interrupt) == n
  {
    var t := InboundStep(st, done);
    match st.read
    case WsReadError(_) =>
      if !done {
        assert t.effects == [CloseDone] + [Interrupt];
        CountAppend([CloseDone], [Interrupt], CloseDone);
        CountAppend([CloseDone], [Interrupt], Interrupt);
      }
    case WsData(chunk) =>
      if |chunk| == 0 {
        assert t.effects == [];
      } else if chunk[0] == LBRACE {
        match Resize(chunk)
        case Crash => assert t.effects == [Panic(IndexOutOfRange)];
        case Resized(size) => assert t.effects == [Setsize(size)];
      } else if st.ptyWriteOk {
        assert t.effects == [PtyWrite(chunk)];
      } else {
        assert t.effects == [];
      }
  }

  /**
   * When the loop leaves on a websocket read error, closing `done` and then
   * interrupting the shell are its last two effects.
   */
  lemma {:induction false} InboundReadErrorEffects(script: seq<InStep>, done: bool)
    ensures var r := Inbound(script, done);
      r.end == ReadFailed ==> |r.effects| >= 2 && r.effects[|r.effects| - 2..] == [CloseDone, Interrupt]
  {
    if script != [] {
      var st := InboundStep(script[0], done);
      StepLastEffects(script[0], done);
      if st.Return? {
        assert Inbound(script, done) == Run(st.effects, st.end);
      } else {
        InboundReadErrorEffects(script[1..], done);
        var r' := Inbound(script[1..], done);
        assert Inbound(script, done) == Run(st.effects + r'.effects, r'.end);
        if r'.end == ReadFailed {
          SuffixOfAppend(st.effects, r'.effects, 2);
        }
      }
    }
  }

  /**
   * When the loop panics the panic is its last effect; after a websocket
   * read error with `done` already closed it is the close of a closed
   * channel.
   */
  lemma {:induction false} InboundPanicEffects(script: seq<InStep>, done: bool)
    ensures var r := Inbound(script, done);
      && (r.end == Panicked ==> r.effects != [] && r.effects[|r.effects| - 1].Panic?)
      && (r.end == Panicked && done && InboundStop(script) < |script| && script[InboundStop(script)].read.WsReadError? ==>
            r.effects[|r.effects| - 1] == Panic(CloseOfClosedChannel))
  {
    if script != [] {
      var st := InboundStep(script[0], done);
      StepLastEffects(script[0], done);
      if InboundStopsAt(script[0]) {
        assert st.Return?;
        assert Inbound(script, done) == Run(st.effects, st.end);
      } else {
        assert st.Continue?;
        InboundPanicEffects(script[1..], done);
        var r' := Inbound(script[1..], done);
        assert Inbound(script, done) == Run(st.effects + r'.effects, r'.end);
        assert InboundStop(script) == 1 + InboundStop(script[1..]);
        if r'.end == Panicked {
          SuffixOfAppend(st.effects, r'.effects, 1);
        }
      }
    }
  }

  /** The effects of one inbound step that returns, by how it returns. */
  lemma StepLastEffects(st: InStep, done: bool)
    ensures var t := InboundStep(st, done);
      t.Return? ==>
        && (t.end == ReadFailed ==> t.effects == [CloseDone, Interrupt])
        && (t.end == Panicked ==> |t.effects| == 1 && t.effects[0].Panic?)
        && (t.end == Panicked && done && st.read.WsReadError? ==> t.effects == [Panic(CloseOfClosedChannel)])
  {
    match st.read
    case WsReadError(_) =>
    case WsData(chunk) =>
      if |chunk| > 0 && chunk[0] == LBRACE {
        match Resize(chunk)
        case Crash =>
        case Resized(_) =>
      }
  }


  /**
   * With `done` open, the pty-to-websocket loop forwards every non-empty chunk
   * it reads before the step it returns at (a pty read error or a failing
   * websocket write), verbatim and in order. Once `done` is closed it returns
   * at its next `select` without reading, but a read already in progress
   * completes and its chunk is still forwarded.
   */
  lemma {:induction false} OutboundForwardsVerbatim(script: seq<OutStep>, done: bool, inRead: bool)
    ensures done && !inRead ==> Outbound(script, done, inRead) == Run([], DoneObserved)
    ensures !done ==> WsWrites(Outbound(script, done, inRead).effects) == PtyChunks(script[..OutboundStop(script)])
    ensures done && inRead ==>
      WsWrites(Outbound(script, done, inRead).effects) == PtyChunks(script[..if OutboundStop(script) == 0 then 0 else 1])
  {
    if !(done && !inRead) && script != [] {
      if OutboundStopsAt(script[0]) {
        assert script[..OutboundStop(script)] == [];
      } else {
        var rest := script[1..];
        var es := OutboundStep(script[0]).effects;
        OutboundForwardsVerbatim(rest, done, false);
        PtyWritesAppend(es, Outbound(rest, done, false).effects);
        PrefixStep(script, OutboundStop(script));
        if done {
          assert WsWrites(Outbound(rest, done, false).effects) == [];
          assert script[..1] == [script[0]];
          assert es + [] == es;
        }
      }
    }
  }

  /**
   * The pty-to-websocket loop writes only to the websocket, never an empty
   * chunk, and ends on a read error, a write error, `done`, or not at all.
   * With `done` closed it returns at its `select`, unless a read in progress
   * ends it first or the script ends while that read is still pending.
   */
  lemma {:induction false} OutboundEnds(script: seq<OutStep>, done: bool, inRead: bool)
    ensures var r := Outbound(script, done, inRead); var k := OutboundStop(script);
      && (!done ==> (r.end == StillRunning <==> k == |script|))
      && (!done ==> (r.end == ReadFailed <==> k < |script| && script[k].read.PtyReadError?))
      && (!done ==> (r.end == WriteFailed <==> k < |script| && script[k].read.PtyData?))
      && (r.end == DoneObserved ==> done)
      && (done ==> (r.end == DoneObserved <==> !inRead || (script != [] && !OutboundStopsAt(script[0]))))
      && (done && inRead ==> (r.end == StillRunning <==> script == []))
      && (forall m :: 0 <= m < |r.effects| ==> r.effects[m].WsWrite? && |r.effects[m].data| > 0)
  {
    if !(done && !inRead) && script != [] && !OutboundStopsAt(script[0]) {
      OutboundEnds(script[1..], done, false);
    }
  }

  lemma InboundUnroll(script: seq<InStep>, k: nat, done: bool)
    requires k < |script|
    ensures Inbound(script[k..], done) ==
      match InboundStep(script[k], done)
      case Return(es, end) => Run(es, end)
      case Continue(es) => Run(es + Inbound(script[k + 1..], done).effects, Inbound(script[k + 1..], done).end)
  {
    assert script[k..][0] == script[k];
    assert script[k..][1..] == script[k + 1..];
  }

  lemma OutboundUnroll(script: seq<OutStep>, k: nat, done: bool, pending: bool)
    requires k < |script| && !(done && !pending)
    ensures Outbound(script[k..], done, pending) ==
      match OutboundStep(script[k])
      case Return(es, end) => Run(es, end)
      case Continue(es) =>
        Run(es + Outbound(script[k + 1..], done, false).effects, Outbound(script[k + 1..], done, false).end)
  {
    assert script[k..][0] == script[k];
    assert script[k..][1..] == script[k + 1..];
  }

  lemma SuffixOfAppend(a: seq<Effect>, b: seq<Effect>, n: nat)
    requires n <= |b|
    ensures (a + b)[|a + b| - n..] == b[|b| - n..]
  {
    assert (a + b)[|a + b| - n..] == (a + b)[|a|..][|b| - n..];
    assert (a + b)[|a|..] == b;
  }

  lemma AppendStep(effects: seq<Effect>, es: seq<Effect>, rest: seq<Effect>)
    ensures effects + (es + rest) == (effects + es) + rest
  {
  }

  /** How many times an effect occurs in a log. */
  function Count(log: seq<Effect>, e: Effect): nat
  {
    if log == [] then 0 else (if log[0] == e then 1 else 0) + Count(log[1..], e)
  }

  lemma {:induction false} CountAppend(a: seq<Effect>, b: seq<Effect>, e: Effect)
    ensures Count(a + b, e) == Count(a, e) + Count(b, e)
  {
    if a == [] {
      assert a + b == b;
    } else {
      assert (a + b)[1..] == a[1..] + b;
      CountAppend(a[1..], b, e);
    }
  }

  /** An effect occurs in a log exactly when it is counted there. */
  lemma {:induction false} CountIn(log: seq<Effect>, e: Effect)
    ensures e in log <==> Count(log, e) > 0
  {
    if log != [] {
      CountIn(log[1..], e);
      assert e in log <==> log[0] == e || e in log[1..];
    }
  }

  /** Appending websocket writes leaves the CloseDone and Interrupt counts as they were. */
  lemma {:induction false} QuietAppend(log: seq<Effect>, es: seq<Effect>)
    requires forall m :: 0 <= m < |es| ==> es[m].WsWrite?
    ensures Count(log + es, CloseDone) == Count(log, CloseDone)
    ensures Count(log + es, Interrupt) == Count(log, Interrupt)
  {
    CountAppend(log, es, CloseDone);
    CountAppend(log, es, Interrupt);
    CountIn(es, CloseDone);
    CountIn(es, Interrupt);
  }

  /**
   * Appending what one inbound segment does to a log: each of CloseDone and
   * Interrupt gains one occurrence exactly when the segment ends on a read
   * error.
   */
  lemma InboundAppend(log: seq<Effect>, script: seq<InStep>, done: bool)
    ensures var r := Inbound(script, done);
      var n := if r.end == ReadFailed then 1 else 0;
      Count(log + r.effects, CloseDone) == Count(log, CloseDone) + n &&
      Count(log + r.effects, Interrupt) == Count(log, Interrupt) + n
    ensures Inbound(script, done).end == ReadFailed ==> !done
  {
    var r := Inbound(script, done);
    InboundSignalsOnce(script, done);
    InboundEnds(script, done);
    CountAppend(log, r.effects, CloseDone);
    CountAppend(log, r.effects, Interrupt);
  }

  // ---------------------------------------------------------------------
  // The two goroutines' loops as the source writes them

  /**
   * The websocket-to-pty loop (terminal.go:63-88): reads chunks, hands
   * control chunks to handleResize, writes the rest to the pty, and on a
   * websocket read error closes `done` and interrupts the shell.
   */
  method CopyWsToPty(script: seq<InStep>, done: bool) returns (effects: seq<Effect>, end: LoopEnd)
    ensures effects == Inbound(script, done).effects
    ensures end == Inbound(script, done).end
  {
    effects := [];
    var k := 0;
    while k < |script|
      invariant 0 <= k <= |script|
      invariant Inbound(script, done).effects == effects + Inbound(script[k..], done).effects
      invariant Inbound(script, done).end == Inbound(script[k..], done).end
    {
      var st := script[k];
      InboundUnroll(script, k, done);
      match st.read {
        case WsReadError(_) =>
          effects := effects + Close(done);
          if done {
            return effects, Panicked;
          }
          effects := effects + [Interrupt];
          return effects, ReadFailed;
        case WsData(chunk) =>
          if |chunk| > 0 {
            if chunk[0] == LBRACE {
              var outcome := HandleResize(chunk);
              if outcome.Crash? {
                return effects + [Panic(IndexOutOfRange)], Panicked;
              }
              AppendStep(effects, [Setsize(outcome.size)], Inbound(script[k + 1..], done).effects);
              effects := effects + [Setsize(outcome.size)];
            } else if !st.ptyWriteOk {
              return effects, WriteFailed;
            } else {
              AppendStep(effects, [PtyWrite(chunk)], Inbound(script[k + 1..], done).effects);
              effects := effects + [PtyWrite(chunk)];
            }
          } else {
            assert InboundStep(st, done) == Continue([]);
            assert [] + Inbound(script[k + 1..], done).effects == Inbound(script[k + 1..], done).effects;
          }
      }
      k := k + 1;
    }
    // the script is exhausted: the goroutine is blocked in ws.Read
    end := StillRunning;
  }

  /**
   * The pty-to-websocket loop (terminal.go:36-59): at each `select` it returns
   * if `done` is closed and otherwise reads, then forwards every non-empty
   * chunk to the websocket. `inRead` says the loop starts inside a read it
   * issued earlier.
   */
  method CopyPtyToWs(script: seq<OutStep>, done: bool, inRead: bool) returns (effects: seq<Effect>, end: LoopEnd)
    ensures effects == Outbound(script, done, inRead).effects
    ensures end == Outbound(script, done, inRead).end
  {
    effects := [];
    var k := 0;
    var pending := inRead;
    while true
      invariant 0 <= k <= |script|
      invariant k > 0 ==> !pending
      invariant Outbound(script, done, inRead).effects == effects + Outbound(script[k..], done, pending).effects
      invariant Outbound(script, done, inRead).end == Outbound(script[k..], done, pending).end
      decreases |script| - k
    {
      if !pending && done {
        // the select takes the closed `done`
        return effects, DoneObserved;
      }
      if k == |script| {
        // the script is exhausted: the goroutine is at its select or blocked in ptmx.Read
        return effects, StillRunning;
      }
      var st := script[k];
      OutboundUnroll(script, k, done, pending);
      match st.read {
        case PtyReadError(_) =>
          return effects, ReadFailed;
        case PtyData(chunk) =>
          if |chunk| > 0 {
            if !st.wsWriteOk {
              return effects, WriteFailed;
            }
            AppendStep(effects, [WsWrite(chunk)], Outbound(script[k + 1..], done, false).effects);
            effects := effects + [WsWrite(chunk)];
          } else {
            assert [] + Outbound(script[k + 1..], done, false).effects == Outbound(script[k + 1..], done, false).effects;
          }
      }
      pending := false;
      k := k + 1;
    }
  }

  // ---------------------------------------------------------------------
  // The session

  /**
   * The session's phases.
   * - Starting: before pty.Start.
   * - Streaming: both loops launched, waiting for the shell.
   * - Exiting: cmd.Wait returned and `done` is closed; the websocket is
   *   still open.
   * - Draining: `done` and the websocket closed, waiting for the loops.
   * - Closed: loops joined and the pty closed.
   * - StartFailed: pty.Start failed.
   * - HandlerPanicked: the handler's own close(done) after cmd.Wait
   *   panicked. The deferred ptmx.Close ran while the panic unwound, and the
   *   HTTP server recovers the handler's panic, so the process goes on and a
   *   loop still running may go on too.
   * - Crashed: a panic in one of the session's goroutines (the
   *   websocket-to-pty loop's close(done), or the resize scanner) ended the
   *   whole process.
   */
  datatype Phase = Starting | Streaming | Exiting | Draining | Closed | StartFailed | HandlerPanicked | Crashed

  const StartFailurePrefix: seq<byte> :=
    [70, 97, 105, 108, 101, 100, 32, 116, 111, 32, 115, 116, 97, 114, 116, 32,
     116, 101, 114, 109, 105, 110, 97, 108, 58, 32]  // "Failed to start terminal: "
  const CRLF: seq<byte> := [13, 10]

  /** What is written to the websocket when pty.Start fails with the given error text. */
  function StartFailureMessage(err: seq<byte>): seq<byte>
  {
    StartFailurePrefix + err + CRLF
  }

  class Session {
    var phase: Phase
    var log: seq<Effect>
    var doneClosed: bool
    var interruptSent: bool
    var inboundRunning: bool
    var outboundRunning: bool
    /** The pty-to-websocket loop is blocked in ptmx.Read, past its `select`. */
    var outboundInRead: bool

    ghost predicate Valid()
      reads this
    {
      && (phase == Starting ==> log == [] && !doneClosed && !inboundRunning && !outboundRunning)
      && (phase == StartFailed ==> !inboundRunning && !outboundRunning)
      && (phase == Closed ==> !inboundRunning && !outboundRunning && doneClosed)
      && (phase == Exiting ==> doneClosed)
      && (phase == Draining ==> doneClosed)
      && (phase == HandlerPanicked ==> doneClosed && !inboundRunning)
      && (phase == Streaming && doneClosed ==> !inboundRunning)
      && (outboundInRead ==> outboundRunning)
      && Count(log, CloseDone) == (if doneClosed then 1 else 0)
      && Count(log, Interrupt) == (if interruptSent then 1 else 0)
      && (interruptSent ==> doneClosed)
    }

    constructor ()
      ensures Valid() && phase == Starting && log == []
    {
      phase := Starting;
      log := [];
      doneClosed := false;
      interruptSent := false;
      inboundRunning := false;
      outboundRunning := false;
      outboundInRead := false;
    }

    /**
     * pty.Start: on failure write the diagnostic line to the websocket, close
     * it and start no loop (terminal.go:16-22); on success set the initial
     * size to 24 rows by 80 columns and launch both loops (terminal.go:26-88).
     */
    method Start(startError: Option<seq<byte>>)
      requires Valid() && phase == Starting
      modifies this
      ensures Valid()
      ensures startError.Some? ==>
        && phase == StartFailed
        && log == [WsWrite(StartFailureMessage(startError.value)), CloseWs]
        && !inboundRunning && !outboundRunning
      ensures startError.None? ==>
        && phase == Streaming
        && log == [Setsize(Winsize(24, 80))]
        && inboundRunning && outboundRunning
      ensures !doneClosed && !interruptSent && !outboundInRead
    {
      if startError.Some? {
        var sent := [WsWrite(StartFailureMessage(startError.value)), CloseWs];
        CountIn(sent, CloseDone);
        CountIn(sent, Interrupt);
        CountAppend(log, sent, CloseDone);
        CountAppend(log, sent, Interrupt);
        log := log + [WsWrite(StartFailureMessage(startError.value)), CloseWs];
        phase := StartFailed;
        return;
      }
      log := log + [Setsize(Winsize(DefaultRows, DefaultCols))];
      inboundRunning, outboundRunning := true, true;
      phase := Streaming;
    }

    /**
     * Runs the websocket-to-pty goroutine over a script segment. When the
     * segment runs out the loop is still blocked in ws.Read and may be
     * resumed with a further segment.
     */
    method RunInbound(script: seq<InStep>)
      requires Valid() && inboundRunning && (phase == Streaming || phase == Exiting || phase == Draining)
      modifies this
      ensures Valid() || phase == Crashed
      ensures log == old(log) + Inbound(script, old(doneClosed)).effects
      ensures inboundRunning == (Inbound(script, old(doneClosed)).end == StillRunning)
      ensures phase == if Inbound(script, old(doneClosed)).end == Panicked then Crashed else old(phase)
      ensures doneClosed == (old(doneClosed) || Inbound(script, old(doneClosed)).end == ReadFailed)
      ensures interruptSent == (old(interruptSent) || Inbound(script, old(doneClosed)).end == ReadFailed)
      ensures outboundRunning == old(outboundRunning) && outboundInRead == old(outboundInRead)
    {
      var effects, end := CopyWsToPty(script, doneClosed);
      InboundAppend(log, script, doneClosed);
      log := log + effects;
      if end == ReadFailed {
        doneClosed, interruptSent := true, true;
      } else if end == Panicked {
        phase := Crashed;
      }
      inboundRunning := end == StillRunning;
    }

    /**
     * The pty-to-websocket goroutine passes its `select` while `done` is
     * open and blocks in ptmx.Read.
     */
    method OutboundBlocksInRead()
      requires Valid() && phase == Streaming && outboundRunning && !outboundInRead && !doneClosed
      modifies this
      ensures Valid() && outboundInRead
      ensures log == old(log) && phase == old(phase) && doneClosed == old(doneClosed)
      ensures interruptSent == old(interruptSent)
      ensures inboundRunning == old(inboundRunning) && outboundRunning == old(outboundRunning)
    {
      outboundInRead := true;
    }

    /**
     * Runs the pty-to-websocket goroutine over a script segment, with the
     * current state of `done`. A segment that reads anything leaves the loop
     * at its next `select`.
     */
    method RunOutbound(script: seq<OutStep>)
      requires Valid() && outboundRunning
      requires phase == Streaming || phase == Exiting || phase == Draining || phase == HandlerPanicked
      modifies this
      ensures Valid()
      ensures log == old(log) + Outbound(script, doneClosed, old(outboundInRead)).effects
      ensures outboundRunning == (Outbound(script, doneClosed, old(outboundInRead)).end == StillRunning)
      ensures outboundInRead == (old(outboundInRead) && script == [])
      ensures phase == old(phase) && doneClosed == old(doneClosed) && interruptSent == old(interruptSent)
      ensures inboundRunning == old(inboundRunning)
    {
      var written, end := CopyPtyToWs(script, doneClosed, outboundInRead);
      OutboundEnds(script, doneClosed, outboundInRead);
      QuietAppend(log, written);
      log := log + written;
      outboundRunning := end == StillRunning;
      outboundInRead := outboundInRead && script == [];
    }

    /**
     * cmd.Wait returned and the handler closes `done` (terminal.go:91-96).
     * If the websocket-to-pty loop already closed it, this second close
     * panics in the handler: ws.Close and wg.Wait are skipped, and the
     * deferred ptmx.Close (terminal.go:23) runs while the panic unwinds.
     */
    method CommandExited()
      requires Valid() && phase == Streaming
      modifies this
      ensures Valid()
      ensures old(doneClosed) ==> phase == HandlerPanicked && log == old(log) + [Panic(CloseOfClosedChannel), ClosePty]
      ensures !old(doneClosed) ==> phase == Exiting && log == old(log) + [CloseDone]
      ensures doneClosed && interruptSent == old(interruptSent)
      ensures inboundRunning == old(inboundRunning) && outboundRunning == old(outboundRunning)
      ensures outboundInRead == old(outboundInRead)
    {
      var es := if doneClosed then [Panic(CloseOfClosedChannel), ClosePty] else [CloseDone];
      CountIn(es, Interrupt);
      if doneClosed {
        CountIn(es, CloseDone);
      }
      CountAppend(log, es, CloseDone);
      CountAppend(log, es, Interrupt);
      log := log + es;
      phase := if doneClosed then HandlerPanicked else Exiting;
      doneClosed := true;
    }

    /** The handler closes the websocket (terminal.go:97). */
    method CloseWebsocket()
      requires Valid() && phase == Exiting
      modifies this
      ensures Valid()
      ensures phase == Draining && log == old(log) + [CloseWs]
      ensures doneClosed == old(doneClosed) && interruptSent == old(interruptSent)
      ensures inboundRunning == old(inboundRunning) && outboundRunning == old(outboundRunning)
      ensures outboundInRead == old(outboundInRead)
    {
      CountAppend(log, [CloseWs], CloseDone);
      CountAppend(log, [CloseWs], Interrupt);
      log := log + [CloseWs];
      phase := Draining;
    }

    /**
     * wg.Wait returns once both loops have returned; then the deferred
     * ptmx.Close runs (terminal.go:98, 23).
     */
    method LoopsJoined()
      requires Valid() && phase == Draining && !inboundRunning && !outboundRunning
      modifies this
      ensures Valid()
      ensures phase == Closed && log == old(log) + [WaitLoops, ClosePty]
      ensures doneClosed == old(doneClosed) && interruptSent == old(interruptSent)
    {
      CountAppend(log, [WaitLoops, ClosePty], CloseDone);
      CountAppend(log, [WaitLoops, ClosePty], Interrupt);
      log := log + [WaitLoops, ClosePty];
      phase := Closed;
    }
  }

  // ---------------------------------------------------------------------
  // Whole sessions

  const Hello: seq<byte> := [104, 101, 108, 108, 111, 10]  // "hello\n"

  /** pty.Start fails: the client gets the diagnostic line and the websocket is closed; no loop runs. */
  method StartFails(err: seq<byte>) returns (log: seq<Effect>, phase: Phase)
    ensures phase == StartFailed
    ensures log == [WsWrite(StartFailurePrefix + err + CRLF), CloseWs]
  {
    var s := new Session();
    s.Start(Some(err));
    log, phase := s.log, s.phase;
  }

  /**
   * The client disconnects while the shell runs: the websocket-to-pty loop
   * closes `done` and interrupts the shell; when the shell then exits, the
   * handler's close(done) panics and the deferred ptmx.Close still runs.
   */
  method ClientDisconnectsFirst() returns (log: seq<Effect>, phase: Phase)
    ensures phase == HandlerPanicked
    ensures log == [Setsize(Winsize(24, 80)), CloseDone, Interrupt, Panic(CloseOfClosedChannel), ClosePty]
  {
    var s := new Session();
    s.Start(None);
    s.RunInbound([InStep(WsReadError(true), true)]);
    s.CommandExited();
    log, phase := s.log, s.phase;
  }

  /**
   * The shell exits first: the handler closes `done` and the websocket,
   * which makes the blocked ws.Read fail, and the websocket-to-pty loop's
   * own close(done) panics.
   */
  method ShellExitsFirst() returns (log: seq<Effect>, phase: Phase)
    ensures phase == Crashed
    ensures log == [Setsize(Winsize(24, 80)), PtyWrite(Hello), WsWrite(Hello),
                    CloseDone, CloseWs, Panic(CloseOfClosedChannel)]
  {
    var s := new Session();
    s.Start(None);
    assert Inbound([InStep(WsData(Hello), true)], false) == Run([PtyWrite(Hello)], StillRunning) by {
      assert [InStep(WsData(Hello), true)][1..] == [];
    }
    s.RunInbound([InStep(WsData(Hello), true)]);
    assert Outbound([OutStep(PtyData(Hello), true)], false, false) == Run([WsWrite(Hello)], StillRunning) by {
      assert [OutStep(PtyData(Hello), true)][1..] == [];
    }
    s.RunOutbound([OutStep(PtyData(Hello), true)]);
    s.CommandExited();
    s.CloseWebsocket();
    assert Inbound([InStep(WsReadError(false), true)], true) == Run([Panic(CloseOfClosedChannel)], Panicked);
    s.RunInbound([InStep(WsReadError(false), true)]);
    log, phase := s.log, s.phase;
  }

  /**
   * An orderly shutdown. It needs the websocket-to-pty loop to leave through
   * a failed pty write before the websocket closes, so that it never closes
   * `done`. Here the pty-to-websocket loop is blocked in ptmx.Read when the
   * shell exits. The shell's last
   * output completes that read after `done` is closed and is still
   * forwarded before the websocket closes; the loop then returns at its
   * `select`, and both loops are joined.
   */
  method CleanShutdown() returns (log: seq<Effect>, phase: Phase)
    ensures phase == Closed
    ensures log == [Setsize(Winsize(24, 80)), CloseDone, WsWrite(Hello), CloseWs, WaitLoops, ClosePty]
  {
    var s := new Session();
    s.Start(None);
    assert Inbound([InStep(WsData(Hello), false)], false) == Run([], WriteFailed) by {
      assert Hello[0] != LBRACE;
    }
    s.RunInbound([InStep(WsData(Hello), false)]);
    s.OutboundBlocksInRead();
    s.CommandExited();
    assert Outbound([OutStep(PtyData(Hello), true)], true, true) == Run([WsWrite(Hello)], DoneObserved);
    s.RunOutbound([OutStep(PtyData(Hello), true)]);
    s.CloseWebsocket();
    s.LoopsJoined();
    log, phase := s.log, s.phase;
  }

  /** A resize message is applied, not written to the shell; `{"cols":100,"rows":40}` gives 100 by 40. */
  method ResizeDuringSession() returns (log: seq<Effect>, phase: Phase)
    ensures phase == Streaming
    ensures log == [Setsize(Winsize(24, 80)), Setsize(Winsize(40, 100)), PtyWrite(Hello)]
  {
    var resize: seq<byte> := [123, 34, 99, 111, 108, 115, 34, 58, 49, 48, 48, 44, 34, 114, 111, 119, 115, 34, 58, 52, 48, 125];
    ExampleBothFields();
    var script := [InStep(WsData(resize), true), InStep(WsData(Hello), true)];
    assert Inbound(script, false) == Run([Setsize(Winsize(40, 100)), PtyWrite(Hello)], StillRunning) by {
      assert script[1..][1..] == [];
      assert Inbound(script[1..], false) == Run([PtyWrite(Hello)], StillRunning);
    }
    var s := new Session();
    s.Start(None);
    s.RunInbound(script);
    log, phase := s.log, s.phase;
  }
}
