/** That the log pipeline gets somewhere: what the drain, the consumer and the shutdown achieve when they run. */
module LogProgress {
  import opened Logs
  import opened LogPipeline

  /** A run that goes on from a given state. */
  function From(own: seq<Attr>, p: Pipe, steps: seq<Step>): Pipe
  {
    if steps == [] then p else Next(own, From(own, p, steps[..|steps| - 1]), steps[|steps| - 1])
  }

  lemma {:induction false} RunGoesOn(own: seq<Attr>, steps: seq<Step>, more: seq<Step>)
    ensures Run(own, steps + more) == From(own, Run(own, steps), more)
  {
    if more == [] {
      assert steps + more == steps;
    } else {
      var init, last := more[..|more| - 1], more[|more| - 1];
      RunGoesOn(own, steps, init);
      assert (steps + more)[..|steps + more| - 1] == steps + init && (steps + more)[|steps + more| - 1] == last;
      assert Run(own, steps + more) == Next(own, Run(own, steps + init), last);
    }
  }

  lemma FromTwo(own: seq<Attr>, p: Pipe, steps: seq<Step>, a: Step, b: Step)
    ensures From(own, p, steps + [a, b]) == Next(own, Next(own, From(own, p, steps), a), b)
  {
    assert (steps + [a, b])[..|steps| + 1] == steps + [a] && (steps + [a])[..|steps|] == steps;
    assert From(own, p, steps + [a]) == Next(own, From(own, p, steps), a);
  }

  // ---- The drain ------------------------------------------------------------------------------------

  /** The drain goroutine going round: it hands over what it holds, which may fail, and takes the next record. */
  function Draining(oks: seq<bool>): seq<Step>
  {
    if oks == [] then [] else Draining(oks[..|oks| - 1]) + [Publish(oks[|oks| - 1]), Receive]
  }

  /** The same log, with this much of the queue left. */
  ghost predicate DrainedTo(p: Pipe, p': Pipe, rounds: nat)
  {
    && p'.handled == p.handled && p'.kept == p.kept && p'.closed == p.closed
    && p'.offset == p.offset && p'.rows == p.rows && |p.broker| <= |p'.broker|
    && |p'.queue| == (if |p.queue| < rounds then 0 else |p.queue| - rounds)
    && (|p.queue| < rounds ==> p'.hand.Empty?)
  }

  lemma OneRound(own: seq<Attr>, p: Pipe, mid: Pipe, rounds: nat, ok: bool)
    requires DrainedTo(p, mid, rounds)
    ensures DrainedTo(p, Next(own, Next(own, mid, Publish(ok)), Receive), rounds + 1)
  {}

  lemma RoundKeepsAccounts(own: seq<Attr>, p: Pipe, ok: bool)
    requires Accounted(p)
    ensures Accounted(Next(own, Next(own, p, Publish(ok)), Receive))
  {
    StepKeepsAccounts(own, p, Publish(ok));
    StepKeepsAccounts(own, Next(own, p, Publish(ok)), Receive);
  }

  lemma {:induction false} DrainingDrains(own: seq<Attr>, p: Pipe, oks: seq<bool>)
    requires Accounted(p)
    ensures DrainedTo(p, From(own, p, Draining(oks)), |oks|) && Accounted(From(own, p, Draining(oks)))
  {
    if oks != [] {
      var init, ok := oks[..|oks| - 1], oks[|oks| - 1];
      DrainingDrains(own, p, init);
      FromTwo(own, p, Draining(init), Publish(ok), Receive);
      OneRound(own, p, From(own, p, Draining(init)), |init|, ok);
      RoundKeepsAccounts(own, From(own, p, Draining(init)), ok);
    }
  }

  /** After any run, as many rounds of the drain as there are records waiting, and one more, hand over everything
      that was accepted, once and in order, whichever publishes fail. */
  lemma DrainCatchesUp(own: seq<Attr>, steps: seq<Step>, oks: seq<bool>)
    requires Legal(steps) && |Run(own, steps).queue| < |oks|
    ensures var p, p' := Run(own, steps), Run(own, steps + Draining(oks));
            && p'.queue == [] && p'.hand.Empty? && p'.handled == p.handled && p'.kept == p.kept
            && |p.handled| == |p.kept| && p'.taken == Select(p.handled, p.kept, true)
  {
    RunIsSound(own, steps);
    RunGoesOn(own, steps, Draining(oks));
    DrainingDrains(own, Run(own, steps), oks);
    var p' := From(own, Run(own, steps), Draining(oks));
    assert p'.taken + [] + [] == p'.taken;
  }

  // ---- What gets lost ---------------------------------------------------------------------------------

  /** For each record handed over in the run, whether its publish succeeded. */
  function Published(own: seq<Attr>, steps: seq<Step>): seq<bool>
  {
    if steps == [] then [] else
      var p, step := Run(own, steps[..|steps| - 1]), steps[|steps| - 1];
      Published(own, steps[..|steps| - 1]) + if step.Publish? && p.hand.Holding? then [step.ok] else []
  }

  /** For each message consumed in the run, whether its insert succeeded. */
  function Inserted(own: seq<Attr>, steps: seq<Step>): seq<bool>
  {
    if steps == [] then [] else
      var p, step := Run(own, steps[..|steps| - 1]), steps[|steps| - 1];
      Inserted(own, steps[..|steps| - 1]) + if step.Consume? && p.offset < |p.broker| then [step.insertOk] else []
  }

  /** The partition, given which publishes succeeded, and the table, given which inserts did. */
  ghost predicate Explained(own: seq<Attr>, p: Pipe, published: seq<bool>, inserted: seq<bool>)
  {
    && |published| == |p.taken| && |RenderAll(own, p.taken)| == |p.taken|
    && p.broker == Select(RenderAll(own, p.taken), published, true)
    && p.offset <= |p.broker| && |inserted| == p.offset
    && p.rows == Select(p.broker[..p.offset], inserted, true)
  }

  lemma PublishIsExplained(own: seq<Attr>, p: Pipe, published: seq<bool>, inserted: seq<bool>, ok: bool)
    requires Explained(own, p, published, inserted) && p.hand.Holding?
    ensures Explained(own, Next(own, p, Publish(ok)), published + [ok], inserted)
  {
    var r := p.hand.record;
    RenderAppend(own, p.taken, r);
    SelectAppend(RenderAll(own, p.taken), published, Render(own, r), ok, true);
    PrefixOfLonger(p.broker, Render(own, r), p.offset);
  }

  lemma ConsumeIsExplained(own: seq<Attr>, p: Pipe, published: seq<bool>, inserted: seq<bool>, ok: bool)
    requires Explained(own, p, published, inserted) && p.offset < |p.broker|
    ensures Explained(own, Next(own, p, Consume(ok)), published, inserted + [ok])
  {
    PrefixGrows(p.broker, p.offset);
    SelectAppend(p.broker[..p.offset], inserted, p.broker[p.offset], ok, true);
  }

  lemma OthersAreExplained(own: seq<Attr>, p: Pipe, published: seq<bool>, inserted: seq<bool>, step: Step)
    requires Explained(own, p, published, inserted) && !Moves(p, step)
    ensures Explained(own, Next(own, p, step), published, inserted)
  {
    OthersLeaveTheBroker(own, p, step);
  }

  /** In every run, the partition is exactly the records whose publish succeeded, and the table exactly the
      consumed messages whose insert did, each in order: nothing else is lost or added. */
  lemma {:induction false} LossesExactly(own: seq<Attr>, steps: seq<Step>)
    ensures Explained(own, Run(own, steps), Published(own, steps), Inserted(own, steps))
  {
    if steps != [] {
      var us, step := steps[..|steps| - 1], steps[|steps| - 1];
      var p, published, inserted := Run(own, us), Published(own, us), Inserted(own, us);
      LossesExactly(own, us);
      if step.Publish? && p.hand.Holding? {
        PublishIsExplained(own, p, published, inserted, step.ok);
      } else if step.Consume? && p.offset < |p.broker| {
        ConsumeIsExplained(own, p, published, inserted, step.insertOk);
      } else {
        OthersAreExplained(own, p, published, inserted, step);
      }
      assert published + [] == published && inserted + [] == inserted;
    }
  }

  // ---- The consumer and the table ---------------------------------------------------------------------

  function Consuming(oks: seq<bool>): seq<Step>
  {
    if oks == [] then [] else Consuming(oks[..|oks| - 1]) + [Consume(oks[|oks| - 1])]
  }

  lemma {:induction false} ConsumingConsumes(own: seq<Attr>, p: Pipe, oks: seq<bool>)
    requires p.offset <= |p.broker|
    ensures var p' := From(own, p, Consuming(oks));
            && p'.broker == p.broker && p'.taken == p.taken && p'.handled == p.handled && p'.kept == p.kept
            && p'.offset == if p.offset + |oks| < |p.broker| then p.offset + |oks| else |p.broker|
  {
    if oks != [] {
      ConsumingConsumes(own, p, oks[..|oks| - 1]);
      assert Consuming(oks)[..|Consuming(oks)| - 1] == Consuming(oks[..|oks| - 1]);
    }
  }

  /** After any run, as many attempts as there are messages waiting consume them all, whichever inserts fail. */
  lemma ConsumerCatchesUp(own: seq<Attr>, steps: seq<Step>, oks: seq<bool>)
    requires Run(own, steps).offset + |oks| >= |Run(own, steps).broker|
    ensures var p, p' := Run(own, steps), Run(own, steps + Consuming(oks));
            p'.offset == |p.broker| && p'.broker == p.broker && p'.handled == p.handled && p'.kept == p.kept
  {
    LossesExactly(own, steps);
    RunGoesOn(own, steps, Consuming(oks));
    ConsumingConsumes(own, Run(own, steps), oks);
  }

  predicate NoFailure(steps: seq<Step>)
  {
    forall i | 0 <= i < |steps| :: steps[i] != Publish(false) && steps[i] != Consume(false)
  }

  function AllTrue(n: nat): seq<bool> { seq(n, _ => true) }

  lemma {:induction false} DrainingIsFaultless(n: nat)
    ensures NoFailure(Draining(AllTrue(n)))
  {
    if n > 0 {
      assert AllTrue(n)[..n - 1] == AllTrue(n - 1);
      DrainingIsFaultless(n - 1);
    }
  }

  lemma {:induction false} ConsumingIsFaultless(n: nat)
    ensures NoFailure(Consuming(AllTrue(n)))
  {
    if n > 0 {
      assert AllTrue(n)[..n - 1] == AllTrue(n - 1);
      ConsumingIsFaultless(n - 1);
    }
  }

  /** From any run without failures, drain and consumer bring every record that was not dropped into the table,
      in the order it was logged. */
  lemma EverythingArrives(own: seq<Attr>, steps: seq<Step>, n: nat, m: nat)
    requires Legal(steps) && NoFailure(steps) && |Run(own, steps).queue| < n
    requires |Run(own, steps + Draining(AllTrue(n))).broker| <= m
    ensures var p, p' := Run(own, steps), Run(own, steps + Draining(AllTrue(n)) + Consuming(AllTrue(m)));
            && |p.handled| == |p.kept|
            && p'.rows == RenderAll(own, Select(p.handled, p.kept, true))
  {
    var drained := steps + Draining(AllTrue(n));
    DrainCatchesUp(own, steps, AllTrue(n));
    DrainingIsFaultless(n);
    ConsumingIsFaultless(m);
    ConsumerCatchesUp(own, drained, AllTrue(m));
    NothingLostWhenAllGoesWell(own, drained);
    NothingLostWhenAllGoesWell(own, drained + Consuming(AllTrue(m)));
    var p' := Run(own, drained + Consuming(AllTrue(m)));
    assert p'.broker[..p'.offset] == p'.broker;
  }

  // ---- The way out ------------------------------------------------------------------------------------

  lemma ClosingSteps(own: seq<Attr>, p: Pipe)
    requires p.closed && p.queue == [] && p.hand.Empty?
    ensures var p' := Next(own, Next(own, Next(own, p, DrainEnds), CloseReturns), CloseProducer);
            p' == p.(drained := true, closeReturned := true, producerClosed := true)
  {}

  /** Closing the channel after any run never hangs: the drain empties the queue and ends, the close returns, and
      the producer is closed with everything accepted handed over. */
  lemma ShutdownCompletes(own: seq<Attr>, steps: seq<Step>, oks: seq<bool>)
    requires Legal(steps + [CloseChannel]) && |Run(own, steps).queue| < |oks|
    ensures var p, drained := Run(own, steps), Run(own, steps + [CloseChannel] + Draining(oks));
            var p' := Next(own, Next(own, Next(own, drained, DrainEnds), CloseReturns), CloseProducer);
            && p'.producerClosed && |p.handled| == |p.kept| && p'.handled == p.handled
            && p'.taken == Select(p.handled, p.kept, true)
  {
    var closing := steps + [CloseChannel];
    assert closing[..|steps|] == steps;
    DrainCatchesUp(own, closing, oks);
    RunGoesOn(own, closing, Draining(oks));
    RunIsSound(own, closing);
    DrainingDrains(own, Run(own, closing), oks);
    ClosingSteps(own, Run(own, closing + Draining(oks)));
  }
}
