/**
 The whole way of a log record: any number of goroutines log, one drains the queue, the broker keeps
 one partition in order, a consumer inserts rows. One atomic step at a time, in any interleaving.
 */
module LogPipeline {
  import opened Logs

  datatype Pipe = Pipe(
    handled: seq<Record>,     // every record passed to Handle, in order
    kept: seq<bool>,          // which of them were queued rather than dropped
    queue: seq<Record>,
    hand: Hand,               // the record the drain goroutine has received
    taken: seq<Record>,       // the records passed to Publish, in order
    broker: seq<LogRecord>,   // the partition
    offset: nat,              // how much of it has been consumed
    rows: seq<LogRecord>,
    closed: bool, drained: bool, closeReturned: bool, producerClosed: bool)

  const FRESH := Pipe([], [], [], Empty, [], [], 0, [], false, false, false, false)

  datatype Step =
    | Handle(r: Record)
    | Receive
    | Publish(ok: bool)
    | CloseChannel
    | DrainEnds
    | CloseReturns
    | CloseProducer
    | Consume(insertOk: bool)
    | ReadFails

  /** A step that is not possible yet leaves the state alone. Logging or closing again once the
      channel is closed would panic, and is excluded by Legal. */
  function Next(own: seq<Attr>, p: Pipe, step: Step): Pipe
  {
    match step
    case Handle(r) =>
      if |p.queue| < BUFFER_SIZE then p.(handled := p.handled + [r], kept := p.kept + [true], queue := p.queue + [r])
      else p.(handled := p.handled + [r], kept := p.kept + [false])
    case Receive =>
      if p.hand.Empty? && p.queue != [] then p.(hand := Holding(p.queue[0]), queue := p.queue[1..]) else p
    case Publish(ok) =>
      if p.hand.Holding? then
        var r := p.hand.record;
        p.(hand := Empty, taken := p.taken + [r], broker := if ok then p.broker + [Render(own, r)] else p.broker)
      else p
    case CloseChannel => p.(closed := true)
    case DrainEnds => if p.closed && p.queue == [] && p.hand.Empty? then p.(drained := true) else p
    case CloseReturns => if p.drained then p.(closeReturned := true) else p
    case CloseProducer => if p.closeReturned then p.(producerClosed := true) else p
    case Consume(insertOk) =>
      if p.offset < |p.broker| then
        p.(offset := p.offset + 1, rows := p.rows + RowOf(Decodes(p.broker[p.offset]), insertOk))
      else p
    case ReadFails => p
  }

  function Run(own: seq<Attr>, steps: seq<Step>): Pipe
  {
    if steps == [] then FRESH else Next(own, Run(own, steps[..|steps| - 1]), steps[|steps| - 1])
  }

  /** Nobody logs or closes once the channel is closed. */
  predicate Legal(steps: seq<Step>)
  {
    steps == [] || (
      && Legal(steps[..|steps| - 1])
      && (steps[|steps| - 1].Handle? || steps[|steps| - 1].CloseChannel? ==> CloseChannel !in steps[..|steps| - 1]))
  }

  // ---- Subsequences -----------------------------------------------------------------------------

  /** a can be obtained from b by leaving elements out. */
  ghost predicate Subsequence<T>(a: seq<T>, b: seq<T>)
  {
    if a == [] then true
    else if b == [] then false
    else (a[|a| - 1] == b[|b| - 1] && Subsequence(a[..|a| - 1], b[..|b| - 1])) || Subsequence(a, b[..|b| - 1])
  }

  lemma SubAppend<T>(a: seq<T>, b: seq<T>, x: T)
    ensures Subsequence(a, b) ==> Subsequence(a, b + [x])
    ensures Subsequence(a, b) ==> Subsequence(a + [x], b + [x])
  {
    assert (b + [x])[..|b + [x]| - 1] == b;
    assert (a + [x])[..|a + [x]| - 1] == a;
  }

  lemma {:induction false} SubItself<T>(a: seq<T>)
    ensures Subsequence(a, a)
  {
    if a != [] { SubItself(a[..|a| - 1]); }
  }

  lemma {:induction false} SubTransitive<T>(a: seq<T>, b: seq<T>, c: seq<T>)
    requires Subsequence(a, b) && Subsequence(b, c)
    ensures Subsequence(a, c)
    decreases |c|
  {
    if a != [] {
      if b[|b| - 1] == c[|c| - 1] && Subsequence(b[..|b| - 1], c[..|c| - 1]) {
        if a[|a| - 1] == b[|b| - 1] && Subsequence(a[..|a| - 1], b[..|b| - 1]) {
          SubTransitive(a[..|a| - 1], b[..|b| - 1], c[..|c| - 1]);
        } else {
          SubTransitive(a, b[..|b| - 1], c[..|c| - 1]);
        }
      } else {
        SubTransitive(a, b, c[..|c| - 1]);
      }
    }
  }

  lemma {:induction false} SubPrefix<T>(a: seq<T>, n: nat)
    requires n <= |a|
    ensures Subsequence(a[..n], a)
    decreases |a|
  {
    if n == |a| {
      assert a[..n] == a;
      SubItself(a);
    } else {
      SubPrefix(a[..|a| - 1], n);
      assert a[..|a| - 1][..n] == a[..n];
    }
  }

  lemma {:induction false} SubRender(own: seq<Attr>, a: seq<Record>, b: seq<Record>)
    requires Subsequence(a, b)
    ensures Subsequence(RenderAll(own, a), RenderAll(own, b))
    decreases |b|
  {
    if a != [] {
      if a[|a| - 1] == b[|b| - 1] && Subsequence(a[..|a| - 1], b[..|b| - 1]) {
        SubRender(own, a[..|a| - 1], b[..|b| - 1]);
        SubAppend(RenderAll(own, a[..|a| - 1]), RenderAll(own, b[..|b| - 1]), Render(own, b[|b| - 1]));
      } else {
        SubRender(own, a, b[..|b| - 1]);
        SubAppend(RenderAll(own, a), RenderAll(own, b[..|b| - 1]), Render(own, b[|b| - 1]));
      }
    }
  }

  /** The elements whose flag is `want`, in order. */
  function Select<T>(xs: seq<T>, flags: seq<bool>, want: bool): seq<T>
    requires |xs| == |flags|
  {
    if xs == [] then [] else
      var sofar := Select(xs[..|xs| - 1], flags[..|flags| - 1], want);
      if flags[|flags| - 1] == want then sofar + [xs[|xs| - 1]] else sofar
  }

  lemma {:induction false} SelectSplits<T>(xs: seq<T>, flags: seq<bool>)
    requires |xs| == |flags|
    ensures multiset(xs) == multiset(Select(xs, flags, true)) + multiset(Select(xs, flags, false))
  {
    if xs != [] {
      SelectSplits(xs[..|xs| - 1], flags[..|flags| - 1]);
      assert xs == xs[..|xs| - 1] + [xs[|xs| - 1]];
    }
  }

  lemma {:induction false} SelectSelects<T>(xs: seq<T>, flags: seq<bool>, want: bool)
    requires |xs| == |flags|
    ensures Subsequence(Select(xs, flags, want), xs)
  {
    if xs != [] {
      var ys := xs[..|xs| - 1];
      SelectSelects(ys, flags[..|flags| - 1], want);
      assert xs == ys + [xs[|xs| - 1]];
      SubAppend(Select(ys, flags[..|flags| - 1], want), ys, xs[|xs| - 1]);
    }
  }

  lemma SelectAppend<T>(xs: seq<T>, flags: seq<bool>, x: T, flag: bool, want: bool)
    requires |xs| == |flags|
    ensures Select(xs + [x], flags + [flag], want) ==
            if flag == want then Select(xs, flags, want) + [x] else Select(xs, flags, want)
  {
    assert (xs + [x])[..|xs|] == xs && (flags + [flag])[..|flags|] == flags;
  }

  // ---- What every step keeps ------------------------------------------------------------------------

  function InHand(p: Pipe): seq<Record> { p.hand.Content() }

  /** Everything handled is accounted for, in order. */
  ghost predicate Accounted(p: Pipe)
  {
    && |p.handled| == |p.kept|
    && Select(p.handled, p.kept, true) == p.taken + InHand(p) + p.queue
    && |p.queue| <= BUFFER_SIZE
  }

  /** The partition is a selection of what was published, the table one of what was consumed. */
  ghost predicate Chain(own: seq<Attr>, taken: seq<Record>, broker: seq<LogRecord>, offset: nat, rows: seq<LogRecord>)
  {
    && offset <= |broker|
    && Subsequence(broker, RenderAll(own, taken))
    && Subsequence(rows, broker[..offset])
  }

  ghost predicate Ordered(own: seq<Attr>, p: Pipe)
  {
    Chain(own, p.taken, p.broker, p.offset, p.rows)
  }

  /** The shutdown flags mean what they say. */
  ghost predicate ClosedInOrder(p: Pipe)
  {
    && (p.drained ==> p.closed && p.queue == [] && p.hand.Empty?)
    && (p.closeReturned ==> p.drained)
    && (p.producerClosed ==> p.closeReturned)
  }

  ghost predicate Sound(own: seq<Attr>, p: Pipe)
  {
    Accounted(p) && Ordered(own, p) && ClosedInOrder(p)
  }

  lemma PrefixOfLonger<T>(a: seq<T>, x: T, n: nat)
    requires n <= |a|
    ensures (a + [x])[..n] == a[..n]
  {}

  lemma {:induction false} ConsumeKeepsChain(own: seq<Attr>, taken: seq<Record>, broker: seq<LogRecord>,
      n: nat, rows: seq<LogRecord>, insertOk: bool)
    requires Chain(own, taken, broker, n, rows) && n < |broker|
    ensures Chain(own, taken, broker, n + 1, rows + RowOf(Decodes(broker[n]), insertOk))
  {
    assert broker[..n + 1] == broker[..n] + [broker[n]];
    assert rows + [] == rows;
    SubAppend(rows, broker[..n], broker[n]);
  }

  lemma {:induction false} PublishKeepsChain(own: seq<Attr>, taken: seq<Record>, broker: seq<LogRecord>,
      n: nat, rows: seq<LogRecord>, r: Record)
    requires Chain(own, taken, broker, n, rows)
    ensures Chain(own, taken + [r], broker, n, rows)
    ensures Chain(own, taken + [r], broker + [Render(own, r)], n, rows)
  {
    RenderAppend(own, taken, r);
    SubAppend(broker, RenderAll(own, taken), Render(own, r));
    PrefixOfLonger(broker, Render(own, r), n);
  }

  lemma {:induction false} StepKeepsAccounts(own: seq<Attr>, p: Pipe, step: Step)
    requires Accounted(p)
    ensures Accounted(Next(own, p, step))
  {
    match step
    case Handle(r) =>
      SelectAppend(p.handled, p.kept, r, |p.queue| < BUFFER_SIZE, true);
      assert p.taken + InHand(p) + (p.queue + [r]) == (p.taken + InHand(p) + p.queue) + [r];
    case Receive =>
      if p.hand.Empty? && p.queue != [] { assert p.taken + [] + p.queue == p.taken + [p.queue[0]] + p.queue[1..]; }
    case Publish(_) =>
      if p.hand.Holding? { assert (p.taken + InHand(p)) + [] + p.queue == p.taken + InHand(p) + p.queue; }
    case _ =>
  }

  lemma {:induction false} PublishKeepsOrder(own: seq<Attr>, p: Pipe, ok: bool)
    requires Ordered(own, p) && p.hand.Holding?
    ensures Ordered(own, Next(own, p, Publish(ok)))
  {
    var p' := Next(own, p, Publish(ok));
    assert p'.taken == p.taken + [p.hand.record] && p'.offset == p.offset && p'.rows == p.rows;
    PublishKeepsChain(own, p.taken, p.broker, p.offset, p.rows, p.hand.record);
  }

  lemma {:induction false} ConsumeKeepsOrder(own: seq<Attr>, p: Pipe, insertOk: bool)
    requires Ordered(own, p) && p.offset < |p.broker|
    ensures Ordered(own, Next(own, p, Consume(insertOk)))
  {
    var p' := Next(own, p, Consume(insertOk));
    assert p'.taken == p.taken && p'.offset == p.offset + 1 && p'.broker == p.broker;
    ConsumeKeepsChain(own, p.taken, p.broker, p.offset, p.rows, insertOk);
  }

  /** The step hands a record over or consumes one. */
  predicate Moves(p: Pipe, step: Step)
  {
    (step.Publish? && p.hand.Holding?) || (step.Consume? && p.offset < |p.broker|)
  }

  lemma OthersLeaveTheBroker(own: seq<Attr>, p: Pipe, step: Step)
    requires !Moves(p, step)
    ensures var p' := Next(own, p, step);
            p'.taken == p.taken && p'.broker == p.broker && p'.offset == p.offset && p'.rows == p.rows
  {}

  lemma {:induction false} OthersKeepOrder(own: seq<Attr>, p: Pipe, step: Step)
    requires Ordered(own, p) && !Moves(p, step)
    ensures Ordered(own, Next(own, p, step))
  {
    OthersLeaveTheBroker(own, p, step);
  }

  lemma {:induction false} StepKeeps(own: seq<Attr>, p: Pipe, step: Step)
    requires Sound(own, p) && (step.Handle? ==> !p.closed)
    ensures Sound(own, Next(own, p, step))
  {
    StepKeepsAccounts(own, p, step);
    if step.Publish? && p.hand.Holding? {
      PublishKeepsOrder(own, p, step.ok);
    } else if step.Consume? && p.offset < |p.broker| {
      ConsumeKeepsOrder(own, p, step.insertOk);
    } else {
      OthersKeepOrder(own, p, step);
    }
  }

  lemma {:induction false} ClosedIff(own: seq<Attr>, steps: seq<Step>)
    ensures Run(own, steps).closed <==> CloseChannel in steps
  {
    if steps != [] { ClosedIff(own, steps[..|steps| - 1]); }
  }

  lemma {:induction false} RunIsSound(own: seq<Attr>, steps: seq<Step>)
    requires Legal(steps)
    ensures Sound(own, Run(own, steps))
  {
    if steps != [] {
      RunIsSound(own, steps[..|steps| - 1]);
      ClosedIff(own, steps[..|steps| - 1]);
      StepKeeps(own, Run(own, steps[..|steps| - 1]), steps[|steps| - 1]);
    }
  }

  // ---- What follows ---------------------------------------------------------------------------------

  /** Handled records split exactly into published, in hand, queued and dropped; those not dropped keep
      their order; the queue stays within its bound. */
  lemma {:induction false} Conservation(own: seq<Attr>, steps: seq<Step>)
    requires Legal(steps)
    ensures var p := Run(own, steps);
            && |p.handled| == |p.kept|
            && multiset(p.handled) == multiset(p.taken) + multiset(InHand(p)) + multiset(p.queue)
                                      + multiset(Select(p.handled, p.kept, false))
            && Subsequence(p.taken + InHand(p) + p.queue, p.handled)
            && |p.queue| <= 1000
  {
    RunIsSound(own, steps);
    var p := Run(own, steps);
    SelectSplits(p.handled, p.kept);
    SelectSelects(p.handled, p.kept, true);
  }

  /** A record is dropped exactly when the queue is full at that moment. */
  lemma {:induction false} DroppedIffFull(own: seq<Attr>, steps: seq<Step>, r: Record)
    requires Legal(steps + [Handle(r)])
    ensures var p, p' := Run(own, steps), Run(own, steps + [Handle(r)]);
            && p'.handled == p.handled + [r] && |p'.kept| == |p.kept| + 1
            && (!p'.kept[|p.kept|] <==> |p.queue| == 1000)
  {
    assert (steps + [Handle(r)])[..|steps|] == steps;
    RunIsSound(own, steps);
  }

  /** Once the log producer is closed, every accepted record has been handed to it, once and in order,
      and nothing is ever handed over afterwards. */
  lemma FlushedBeforeClose(own: seq<Attr>, steps: seq<Step>, step: Step)
    requires Legal(steps + [step]) && Run(own, steps).producerClosed
    ensures var p := Run(own, steps);
            && |p.handled| == |p.kept| && p.taken == Select(p.handled, p.kept, true)
            && Run(own, steps + [step]).taken == p.taken
            && Run(own, steps + [step]).handled == p.handled
  {
    assert (steps + [step])[..|steps|] == steps;
    RunIsSound(own, steps);
    ClosedIff(own, steps);
    var p := Run(own, steps);
    assert p.taken + [] + [] == p.taken;
  }

  /** The rows of the log table are an in-order selection of what was logged. */
  lemma EndToEndOrder(own: seq<Attr>, steps: seq<Step>)
    requires Legal(steps)
    ensures Subsequence(Run(own, steps).rows, RenderAll(own, Run(own, steps).handled))
  {
    var p := Run(own, steps);
    RunIsSound(own, steps);
    SelectSelects(p.handled, p.kept, true);
    var kept := Select(p.handled, p.kept, true);
    assert kept[..|p.taken|] == p.taken;
    SubPrefix(kept, |p.taken|);
    SubTransitive(p.taken, kept, p.handled);
    SubRender(own, p.taken, p.handled);
    SubPrefix(p.broker, p.offset);
    SubTransitive(p.rows, p.broker[..p.offset], p.broker);
    SubTransitive(p.rows, p.broker, RenderAll(own, p.taken));
    SubTransitive(p.rows, RenderAll(own, p.taken), RenderAll(own, p.handled));
  }

  /** The objects of the running program. */
  class Rig {
    const producer: Producer
    const root: KafkaHandler
    const table: LogTable
    var broker: seq<LogRecord>
    var offset: nat
    var drained: bool
    var returned: bool

    ghost predicate Matches(p: Pipe)
      reads this, producer, root.ch, table
    {
      && root.producer == producer && root.attrs == []
      && root.ch.buf == p.queue && root.ch.closed == p.closed && root.ch.hand == p.hand
      && producer.handed == RenderAll([], p.taken) && producer.late == [] && producer.open == !p.producerClosed
      && broker == p.broker && offset == p.offset && table.rows == p.rows
      && drained == p.drained && returned == p.closeReturned
    }

    constructor ()
      ensures Matches(FRESH) && fresh(producer) && fresh(root.ch) && fresh(table)
    {
      var made := new Producer();
      producer := made;
      root := new KafkaHandler.New(made, LEVEL_INFO);
      table := new LogTable();
      broker, offset, drained, returned := [], 0, false, false;
    }

    method Receive(ghost p: Pipe)
      requires Matches(p)
      modifies root.ch
      ensures Matches(Next([], p, Step.Receive))
    {
      if root.ch.hand.Empty? && root.ch.buf != [] {
        root.ch.hand := Holding(root.ch.buf[0]);
        root.ch.buf := root.ch.buf[1..];
      }
    }

    method PublishInHand(ok: bool, ghost p: Pipe)
      requires Matches(p) && (p.hand.Holding? ==> producer.open)
      modifies this, producer, root.ch
      ensures Matches(Next([], p, Publish(ok)))
    {
      if root.ch.hand.Holding? {
        var r := root.ch.hand.record;
        root.Publish(r);
        RenderAppend([], p.taken, r);
        if ok { broker := broker + [Render([], r)]; }
        root.ch.hand := Empty;
      }
    }

    method ConsumeNext(insertOk: bool, ghost p: Pipe)
      requires Matches(p)
      modifies this, table
      ensures Matches(Next([], p, Consume(insertOk)))
    {
      if offset < |broker| {
        var failed := table.Insert(Decodes(broker[offset]), insertOk);
        offset := offset + 1;
      }
    }

    method ShutDown(step: Step, ghost p: Pipe)
      requires Matches(p) && (step.CloseChannel? || step.DrainEnds? || step.CloseReturns? || step.CloseProducer?)
      modifies this, producer, root.ch
      ensures Matches(Next([], p, step))
    {
      match step
      case CloseChannel => root.ch.closed := true;
      case DrainEnds => drained := drained || (root.ch.closed && root.ch.buf == [] && root.ch.hand.Empty?);
      case CloseReturns => returned := returned || drained;
      case CloseProducer => if returned { producer.Close(); }
    }

    /** Performs one step on the objects. */
    method Do(step: Step, ghost p: Pipe)
      requires Matches(p) && (step.Handle? ==> !p.closed) && (p.hand.Holding? ==> !p.producerClosed)
      modifies this, producer, root.ch, table
      ensures Matches(Next([], p, step))
    {
      match step
      case Handle(r) => root.Handle(r);
      case Receive => Receive(p);
      case Publish(ok) => PublishInHand(ok, p);
      case Consume(insertOk) => ConsumeNext(insertOk, p);
      case ReadFails =>
      case _ => ShutDown(step, p);
    }
  }

  /** Drives the objects through a whole run: objects and machine agree, and nothing is published late. */
  method Replay(steps: seq<Step>) returns (queue: seq<Record>, handed: seq<LogRecord>, late: seq<LogRecord>,
      rows: seq<LogRecord>)
    requires Legal(steps)
    ensures var p := Run([], steps);
            queue == p.queue && handed == RenderAll([], p.taken) && late == [] && rows == p.rows
  {
    var rig := new Rig();
    for n := 0 to |steps|
      invariant fresh(rig) && fresh(rig.producer) && fresh(rig.root.ch) && fresh(rig.table)
      invariant rig.Matches(Run([], steps[..n]))
    {
      LegalPrefix(steps, n);
      LegalPrefix(steps, n + 1);
      RunIsSound([], steps[..n]);
      ClosedIff([], steps[..n]);
      assert steps[..n + 1][..n] == steps[..n];
      rig.Do(steps[n], Run([], steps[..n]));
    }
    assert steps[..|steps|] == steps;
    queue, handed, late, rows := rig.root.ch.buf, rig.producer.handed, rig.producer.late, rig.table.rows;
  }

  lemma {:induction false} LegalPrefix(steps: seq<Step>, n: nat)
    requires Legal(steps) && n <= |steps|
    ensures Legal(steps[..n])
  {
    if n < |steps| {
      LegalPrefix(steps[..|steps| - 1], n);
      assert steps[..|steps| - 1][..n] == steps[..n];
    } else {
      assert steps[..n] == steps;
    }
  }

  ghost predicate Whole(own: seq<Attr>, taken: seq<Record>, broker: seq<LogRecord>, offset: nat, rows: seq<LogRecord>)
  {
    broker == RenderAll(own, taken) && offset <= |broker| && rows == broker[..offset]
  }

  ghost predicate Lossless(own: seq<Attr>, p: Pipe) { Whole(own, p.taken, p.broker, p.offset, p.rows) }

  lemma {:induction false} PublishIsLossless(own: seq<Attr>, p: Pipe)
    requires Lossless(own, p) && p.hand.Holding?
    ensures Lossless(own, Next(own, p, Publish(true)))
  {
    var p' := Next(own, p, Publish(true));
    assert p'.taken == p.taken + [p.hand.record] && p'.offset == p.offset && p'.rows == p.rows;
    RenderAppend(own, p.taken, p.hand.record);
    PrefixOfLonger(p.broker, Render(own, p.hand.record), p.offset);
  }

  lemma PrefixGrows<T>(a: seq<T>, n: nat)
    requires n < |a|
    ensures a[..n + 1] == a[..n] + [a[n]]
  {}

  lemma {:induction false} ConsumeIsLossless(own: seq<Attr>, p: Pipe)
    requires Lossless(own, p) && p.offset < |p.broker|
    ensures Lossless(own, Next(own, p, Consume(true)))
  {
    var p' := Next(own, p, Consume(true));
    assert p'.taken == p.taken && p'.offset == p.offset + 1 && p'.broker == p.broker;
    assert p'.rows == p.rows + [p.broker[p.offset]];
    PrefixGrows(p.broker, p.offset);
  }

  lemma {:induction false} LosslessStep(own: seq<Attr>, p: Pipe, step: Step)
    requires Lossless(own, p) && step != Publish(false) && step != Consume(false)
    ensures Lossless(own, Next(own, p, step))
  {
    if step.Publish? && p.hand.Holding? {
      PublishIsLossless(own, p);
    } else if step.Consume? && p.offset < |p.broker| {
      ConsumeIsLossless(own, p);
    } else {
      OthersLeaveTheBroker(own, p, step);
    }
  }

  /** If no publish and no insert fails, the partition is all that was taken from the queue and the
      table is exactly the consumed part of it. */
  lemma {:induction false} NothingLostWhenAllGoesWell(own: seq<Attr>, steps: seq<Step>)
    requires forall i | 0 <= i < |steps| :: steps[i] != Publish(false) && steps[i] != Consume(false)
    ensures Lossless(own, Run(own, steps))
  {
    if steps != [] {
      NothingLostWhenAllGoesWell(own, steps[..|steps| - 1]);
      LosslessStep(own, Run(own, steps[..|steps| - 1]), steps[|steps| - 1]);
    }
  }
}
