/**
 Shutting down while goroutines are still running: the consumers keep reading, and logging what fails,
 after their readers were closed, and a record sent on the closed log channel is a panic.
 */
module ShutdownRace {
  import opened Logs
  import opened LogPipeline
  import opened LogProgress

  datatype Race = Race(pipe: Pipe, readersClosed: bool, panicked: bool)

  const CALM := Race(FRESH, false, false)

  datatype Move =
    | Log(r: Record)        // some goroutine logs
    | Attempt(r: Record)    // a consumer loop reads again; r is the error it would log
    | CloseReaders          // what closing the dependencies does first
    | CloseLog              // then it closes the log channel
    | Flow(step: Step)      // the drain, the producer, the broker and the table

  function Send(level: int, s: Race, r: Record): Race
  {
    if r.level < level then s
    else if s.pipe.closed then s.(panicked := true)
    else s.(pipe := Next([], s.pipe, Handle(r)))
  }

  /** A closed reader fails every attempt, and the context of the loop is never cancelled. */
  function Do(level: int, s: Race, m: Move): Race
  {
    if s.panicked then s else
      match m
      case Log(r) => Send(level, s, r)
      case Attempt(r) => if s.readersClosed then Send(level, s, r.(level := LEVEL_ERROR)) else s
      case CloseReaders => s.(readersClosed := true)
      case CloseLog => if s.readersClosed then s.(pipe := Next([], s.pipe, CloseChannel)) else s
      case Flow(step) => if step.Handle? || step.CloseChannel? then s else s.(pipe := Next([], s.pipe, step))
  }

  function Play(level: int, moves: seq<Move>): Race
  {
    if moves == [] then CALM else Do(level, Play(level, moves[..|moves| - 1]), moves[|moves| - 1])
  }

  /** Up to a panic, whoever logs and whenever, the pipeline is sound. */
  lemma {:induction false} RaceIsSound(level: int, moves: seq<Move>)
    ensures Sound([], Play(level, moves).pipe)
    ensures Play(level, moves).pipe.closed ==> Play(level, moves).readersClosed
  {
    if moves != [] {
      RaceIsSound(level, moves[..|moves| - 1]);
      MoveKeeps(level, Play(level, moves[..|moves| - 1]), moves[|moves| - 1]);
    }
  }

  lemma {:induction false} SendKeeps(level: int, s: Race, r: Record)
    requires Sound([], s.pipe)
    ensures Sound([], Send(level, s, r).pipe) && Send(level, s, r).pipe.closed == s.pipe.closed
    ensures Send(level, s, r).readersClosed == s.readersClosed
  {
    if !s.pipe.closed { StepKeeps([], s.pipe, Handle(r)); }
  }

  lemma {:induction false} CloseKeeps(s: Pipe)
    requires Sound([], s)
    ensures Sound([], Next([], s, CloseChannel))
  {
    StepKeeps([], s, CloseChannel);
  }

  lemma {:induction false} FlowKeeps(s: Pipe, step: Step)
    requires Sound([], s) && !step.Handle? && !step.CloseChannel?
    ensures Sound([], Next([], s, step)) && Next([], s, step).closed == s.closed
  {
    StepKeeps([], s, step);
  }

  lemma {:induction false} MoveKeeps(level: int, s: Race, m: Move)
    requires Sound([], s.pipe) && (s.pipe.closed ==> s.readersClosed)
    ensures Sound([], Do(level, s, m).pipe)
    ensures Do(level, s, m).pipe.closed ==> Do(level, s, m).readersClosed
  {
    match m
    case Log(r) => SendKeeps(level, s, r);
    case Attempt(r) => SendKeeps(level, s, r.(level := LEVEL_ERROR));
    case CloseLog => CloseKeeps(s.pipe);
    case Flow(step) => if !step.Handle? && !step.CloseChannel? { FlowKeeps(s.pipe, step); }
    case CloseReaders =>
  }

  /** Even with goroutines logging to the end: once the log producer is closed, everything accepted has been
      handed to it, once and in order. */
  lemma FlushedDespiteTheRace(level: int, moves: seq<Move>)
    requires Play(level, moves).pipe.producerClosed
    ensures var p := Play(level, moves).pipe;
            |p.handled| == |p.kept| && p.taken == Select(p.handled, p.kept, true)
  {
    RaceIsSound(level, moves);
    var p := Play(level, moves).pipe;
    assert p.taken + [] + [] == p.taken;
  }

  /** Once the log channel is closed, the next attempt of a consumer panics, if errors are logged. */
  lemma NextAttemptPanics(level: int, moves: seq<Move>, r: Record)
    requires level <= LEVEL_ERROR && Play(level, moves).pipe.closed
    ensures Play(level, moves + [Attempt(r)]).panicked
  {
    RaceIsSound(level, moves);
    assert (moves + [Attempt(r)])[..|moves|] == moves;
  }

  /** What is logged at an enabled level is handled while the channel is open, and a panic once it is closed; a
      consumer's attempt logs an error if its reader is closed, and nothing otherwise. */
  lemma LogOutcomes(level: int, moves: seq<Move>, r: Record)
    requires !Play(level, moves).panicked
    ensures var s, s' := Play(level, moves), Play(level, moves + [Log(r)]);
            if r.level < level then s' == s
            else if s.pipe.closed then s' == s.(panicked := true)
            else s'.pipe.handled == s.pipe.handled + [r] && !s'.panicked
    ensures var s, s' := Play(level, moves), Play(level, moves + [Attempt(r)]);
            if !s.readersClosed || 8 < level then s' == s
            else if s.pipe.closed then s' == s.(panicked := true)
            else s'.pipe.handled == s.pipe.handled + [Record(r.time, 8, r.message, r.attrs)] && !s'.panicked
  {
    assert (moves + [Log(r)])[..|moves|] == moves;
    assert (moves + [Attempt(r)])[..|moves|] == moves;
  }

  /** Whatever has happened, closing the readers and then the log channel closes both, and nothing else. */
  lemma ShutdownCloses(level: int, moves: seq<Move>)
    requires !Play(level, moves).panicked
    ensures Play(level, moves + [CloseReaders] + [CloseLog]) ==
            Race(Play(level, moves).pipe.(closed := true), true, false)
  {
    assert (moves + [CloseReaders])[..|moves|] == moves;
    assert (moves + [CloseReaders] + [CloseLog])[..|moves| + 1] == moves + [CloseReaders];
  }

  function Flows(steps: seq<Step>): seq<Move>
  {
    if steps == [] then [] else Flows(steps[..|steps| - 1]) + [Flow(steps[|steps| - 1])]
  }

  predicate OnlyFlow(steps: seq<Step>)
  {
    forall i | 0 <= i < |steps| :: !steps[i].Handle? && !steps[i].CloseChannel?
  }

  lemma {:induction false} FlowsRun(level: int, moves: seq<Move>, steps: seq<Step>)
    requires !Play(level, moves).panicked && OnlyFlow(steps)
    ensures Play(level, moves + Flows(steps)) ==
            Play(level, moves).(pipe := From([], Play(level, moves).pipe, steps))
  {
    if steps == [] {
      assert moves + Flows(steps) == moves;
    } else {
      var init, last := steps[..|steps| - 1], steps[|steps| - 1];
      FlowsRun(level, moves, init);
      assert moves + Flows(steps) == (moves + Flows(init)) + [Flow(last)];
      assert (moves + Flows(init) + [Flow(last)])[..|moves + Flows(init)|] == moves + Flows(init);
    }
  }

  lemma {:induction false} DrainingOnlyFlows(oks: seq<bool>)
    ensures OnlyFlow(Draining(oks))
  {
    if oks != [] { DrainingOnlyFlows(oks[..|oks| - 1]); }
  }

  /** If the goroutines then keep quiet, the drain hands over all that was accepted, whoever logged before. */
  lemma RaceCatchesUp(level: int, moves: seq<Move>, oks: seq<bool>)
    requires !Play(level, moves).panicked && |Play(level, moves).pipe.queue| < |oks|
    ensures var p, s' := Play(level, moves).pipe, Play(level, moves + Flows(Draining(oks)));
            && !s'.panicked && s'.pipe.queue == [] && s'.pipe.handled == p.handled
            && |p.handled| == |p.kept| && s'.pipe.taken == Select(p.handled, p.kept, true)
  {
    RaceIsSound(level, moves);
    DrainingOnlyFlows(oks);
    FlowsRun(level, moves, Draining(oks));
    DrainingDrains([], Play(level, moves).pipe, oks);
    var p' := Play(level, moves + Flows(Draining(oks))).pipe;
    assert p'.taken + [] + [] == p'.taken;
  }

  /** Nobody logs above the error level, as no code of the program does. */
  predicate Ordinary(moves: seq<Move>)
  {
    forall i | 0 <= i < |moves| && moves[i].Log? :: moves[i].r.level <= LEVEL_ERROR
  }

  /** With errors switched off no shutdown panics here, whoever logs and whenever. */
  lemma {:induction false} SilenceIsSafe(level: int, moves: seq<Move>)
    requires LEVEL_ERROR < level && Ordinary(moves)
    ensures !Play(level, moves).panicked
  {
    if moves != [] {
      SilenceIsSafe(level, moves[..|moves| - 1]);
    }
  }

  /** Nobody but the consumers runs beside the one who closes. */
  predicate OnlyConsumers(moves: seq<Move>) { forall i | 0 <= i < |moves| :: !moves[i].Log? }

  ghost predicate CanStillPanic(level: int, moves: seq<Move>)
  {
    exists more: seq<Move> :: OnlyConsumers(more) && Play(level, moves + more).panicked
  }

  lemma {:induction false} SilenceStaysSafe(level: int, moves: seq<Move>, more: seq<Move>)
    requires LEVEL_ERROR < level && OnlyConsumers(more)
    ensures Play(level, moves + more).panicked == Play(level, moves).panicked
  {
    if more == [] {
      assert moves + more == moves;
    } else {
      SilenceStaysSafe(level, moves, more[..|more| - 1]);
      assert (moves + more)[..|moves + more| - 1] == moves + more[..|more| - 1];
    }
  }

  /** However the log channel came to be closed and whoever logged before: with no request left and no
      resource failing to close, a panic can still follow exactly when errors are logged, or has happened. */
  lemma {:induction false} ClosingCanPanicIff(level: int, moves: seq<Move>)
    requires Play(level, moves).pipe.closed
    ensures CanStillPanic(level, moves) <==> level <= 8 || Play(level, moves).panicked
  {
    if level <= LEVEL_ERROR {
      var r := Record(0, LEVEL_ERROR, "read message error", []);
      NextAttemptPanics(level, moves, r);
      assert OnlyConsumers([Attempt(r)]);
    } else if CanStillPanic(level, moves) {
      var more: seq<Move> :| OnlyConsumers(more) && Play(level, moves + more).panicked;
      SilenceStaysSafe(level, moves, more);
    } else {
      assert moves + [] == moves;
      assert OnlyConsumers([]);
    }
  }
}
