/**
 Stopping the program: what closing the dependencies flushes, and when the way out panics.

 Sending on a closed channel and closing one twice are panics in the source language; here a method
 reports them in its result and stops where the panic would.
 */
module Shutdown {
  import opened Logs

  /** Which of the resources refuse to close. */
  datatype Faults = Faults(
    consumer: bool, logConsumer: bool, producer: bool, logProducer: bool, cache: bool, database: bool)

  predicate LaterFault(f: Faults) { f.producer || f.logProducer || f.cache || f.database }

  function Line(level: int, message: string): Record { Record(0, level, message, []) }

  datatype Exit = Panicked | Status(code: int)

  lemma AcceptKeepsAccounts(handed: seq<LogRecord>, pending: seq<Record>, accepted: seq<Record>, r: Record)
    requires handed + RenderAll([], pending) == RenderAll([], accepted)
    ensures handed + RenderAll([], pending + [r]) == RenderAll([], accepted + [r])
  {
    RenderAppend([], pending, r);
    RenderAppend([], accepted, r);
    assert handed + RenderAll([], pending + [r]) == handed + RenderAll([], pending) + [Render([], r)];
  }

  class Dependencies {
    const logHandler: KafkaHandler?
    const logProducer: Producer
    var open: set<string>  // the other resources that have not been closed

    constructor (logHandler: KafkaHandler?, logProducer: Producer)
      ensures this.logHandler == logHandler && this.logProducer == logProducer
    {
      this.logHandler, this.logProducer := logHandler, logProducer;
      open := {"consumer", "log consumer", "producer", "cache", "database"};
    }

    ghost predicate Wired()
    {
      logHandler != null ==> logHandler.producer == logProducer && logHandler.attrs == []
    }

    ghost function Footprint(): set<object>
    {
      {this, logProducer} + if logHandler != null then {logHandler.ch} else {}
    }

    /** Everything accepted so far has been handed over or is still queued. */
    ghost predicate Accounted()
      reads Footprint()
    {
      logHandler != null ==>
        logProducer.handed + RenderAll([], logHandler.ch.Pending()) == RenderAll([], logHandler.ch.accepted)
    }

    predicate ChannelClosed()
      reads if logHandler != null then {logHandler.ch} else {}
    {
      logHandler != null && logHandler.ch.closed
    }

    /** Records of this level go to the log topic. */
    predicate Takes(level: int) { logHandler != null && logHandler.level <= level }

    predicate Enabled(level: int) { logHandler != null && logHandler.Enabled(level) }

    /** Everything the log channel ever took in. */
    ghost function Accepted(): seq<Record>
      reads if logHandler != null then {logHandler.ch} else {}
    {
      if logHandler != null then logHandler.ch.accepted else []
    }

    method Send(r: Record)
      requires Wired() && Accounted() && logHandler != null && !logHandler.ch.closed
      modifies logHandler.ch
      ensures !logHandler.ch.closed && Accounted()
      ensures Accepted() == old(Accepted()) + if |old(logHandler.ch.buf)| < 1000 then [r] else []
    {
      ghost var pending, room := logHandler.ch.Pending(), |logHandler.ch.buf| < 1000;
      AcceptKeepsAccounts(logProducer.handed, pending, logHandler.ch.accepted, r);
      logHandler.Handle(r);
      assert logHandler.ch.Pending() == if room then pending + [r] else pending;
    }

    /** The default logger passes every enabled record to the handler. */
    method Log(level: int, message: string) returns (panicked: bool)
      requires Wired() && Accounted()
      modifies if logHandler != null then {logHandler.ch} else {}
      ensures panicked <==> Enabled(level) && old(ChannelClosed())
      ensures ChannelClosed() == old(ChannelClosed()) && Accounted()
      ensures Takes(level) && !old(ChannelClosed()) && |old(logHandler.ch.buf)| < 1000 ==>
                Accepted() == old(Accepted()) + [Line(level, message)]
      ensures old(Accepted()) <= Accepted()
      ensures ChannelClosed() ==> unchanged(logHandler.ch)
    {
      panicked := false;
      if logHandler != null && logHandler.Enabled(level) {
        if logHandler.ch.closed { return true; }
        Send(Line(level, message));
      }
    }

    method CloseOne(name: string, fault: bool) returns (panicked: bool)
      requires Wired() && Accounted()
      modifies this, if logHandler != null then {logHandler.ch} else {}
      ensures panicked <==> fault && Enabled(LEVEL_ERROR) && old(ChannelClosed())
      ensures ChannelClosed() == old(ChannelClosed()) && Accounted() && old(Accepted()) <= Accepted()
      ensures ChannelClosed() ==> unchanged(logHandler.ch)
      ensures open == old(open) - {name}
    {
      open := open - {name};
      panicked := false;
      if fault { panicked := Log(LEVEL_ERROR, "close " + name); }
    }

    method CloseReaders(f: Faults) returns (panicked: bool)
      requires Wired() && Accounted()
      modifies this, if logHandler != null then {logHandler.ch} else {}
      ensures panicked <==> (f.consumer || f.logConsumer) && Enabled(LEVEL_ERROR) && old(ChannelClosed())
      ensures ChannelClosed() == old(ChannelClosed()) && Accounted() && old(Accepted()) <= Accepted()
      ensures ChannelClosed() ==> unchanged(logHandler.ch)
      ensures !panicked ==> open == old(open) - {"consumer", "log consumer"}
    {
      panicked := CloseOne("consumer", f.consumer);
      if panicked { return; }
      panicked := CloseOne("log consumer", f.logConsumer);
    }

    /** What is closed after the log handler, when any error that is logged panics. */
    method CloseTheRest(f: Faults) returns (panicked: bool)
      requires Wired() && Accounted() && (logHandler != null ==> ChannelClosed())
      modifies this, logProducer`open, if logHandler != null then {logHandler.ch} else {}
      ensures panicked <==> LaterFault(f) && Enabled(LEVEL_ERROR)
      ensures logHandler != null ==> unchanged(logHandler.ch)
      ensures !panicked ==> !logProducer.open && open == old(open) - {"producer", "log producer", "cache", "database"}
      ensures Accounted()
    {
      panicked := CloseProducers(f);
      if panicked { return; }
      panicked := CloseStores(f);
    }

    method CloseProducers(f: Faults) returns (panicked: bool)
      requires Wired() && Accounted() && (logHandler != null ==> ChannelClosed())
      modifies this, logProducer`open, if logHandler != null then {logHandler.ch} else {}
      ensures panicked <==> (f.producer || f.logProducer) && Enabled(LEVEL_ERROR)
      ensures logHandler != null ==> unchanged(logHandler.ch)
      ensures !panicked ==> !logProducer.open && open == old(open) - {"producer", "log producer"}
      ensures Accounted()
    {
      panicked := CloseOne("producer", f.producer);
      if panicked { return; }
      logProducer.Close();
      panicked := CloseOne("log producer", f.logProducer);
    }

    method CloseStores(f: Faults) returns (panicked: bool)
      requires Wired() && Accounted() && (logHandler != null ==> ChannelClosed())
      modifies this, if logHandler != null then {logHandler.ch} else {}
      ensures panicked <==> (f.cache || f.database) && Enabled(LEVEL_ERROR)
      ensures logHandler != null ==> unchanged(logHandler.ch)
      ensures !panicked ==> open == old(open) - {"cache", "database"}
      ensures Accounted()
    {
      panicked := CloseOne("cache", f.cache);
      if panicked { return; }
      panicked := CloseOne("database", f.database);
    }

    /** Consumers, the log handler, the producers, the cache, the database, in this order. */
    method Close(f: Faults) returns (panicked: bool)
      requires Wired() && Accounted() && (logHandler != null ==> logProducer.open || ChannelClosed())
      modifies Footprint()
      ensures panicked <==>
                && logHandler != null
                && (old(ChannelClosed()) ||
                    (logHandler.level <= 8 && (f.producer || f.logProducer || f.cache || f.database)))
      ensures logHandler != null && !old(ChannelClosed()) ==>
                && logHandler.ch.Pending() == []
                && logProducer.handed == RenderAll([], logHandler.ch.accepted)
                && logProducer.late == old(logProducer.late)
      ensures !panicked ==> !logProducer.open &&
                            open == old(open) - {"consumer", "log consumer", "producer", "log producer",
                                                 "cache", "database"}
      ensures logHandler != null ==> logHandler.ch.closed
      ensures Accounted() && old(Accepted()) <= Accepted()
    {
      panicked := CloseReaders(f);
      if panicked { return; }
      if logHandler != null {
        if logHandler.ch.closed { return true; }
        logHandler.Close();
      }
      panicked := CloseTheRest(f);
    }
  }

  /** The graceful path: announce, stop the servers, close everything, announce again; what is returned
      is whether stopping the HTTP server failed. */
  method StopServing(d: Dependencies, httpFails: bool, f: Faults) returns (panicked: bool, failed: bool)
    requires d.Wired() && d.Accounted() && d.logProducer.open && !d.ChannelClosed()
    modifies d.Footprint()
    ensures panicked <==>
              d.logHandler != null && (d.logHandler.level <= 0 || (d.logHandler.level <= 8 && LaterFault(f)))
    ensures !panicked ==> failed == httpFails
    ensures d.logHandler != null ==> d.logHandler.ch.closed
    ensures d.logHandler != null ==> d.logProducer.handed == RenderAll([], d.Accepted())
    ensures d.Takes(0) && |old(d.logHandler.ch.buf)| < 1000 ==>
              old(d.Accepted()) + [Line(0, "shutting down")] <= d.Accepted()
    ensures d.Accounted()
  {
    failed := false;
    panicked := d.Log(LEVEL_INFO, "shutting down");
    if httpFails { failed := true; }
    panicked := d.Close(f);
    if panicked { return; }
    panicked := d.Log(LEVEL_INFO, "server exited");
  }

  /** The program after start-up: it serves until told to stop or until a server fails to start. An error
      is logged and exits at once; otherwise the dependencies are closed a second time on the way out.
      It panics exactly when the log handler is installed and either errors are logged or there is no
      error to exit with. */
  method RunProgram(d: Dependencies, startupFails: bool, httpFails: bool, f: Faults, again: Faults) returns (exit: Exit)
    requires d.Wired() && d.Accounted() && d.logProducer.open && !d.ChannelClosed()
    modifies d.Footprint()
    ensures exit == Panicked <==> d.logHandler != null && (d.logHandler.level <= 8 || !(startupFails || httpFails))
    ensures exit != Panicked ==> exit == Status(if startupFails || httpFails then 1 else 0)
    ensures startupFails && d.Takes(8) && |old(d.logHandler.ch.buf)| < 1000 ==>
              old(d.Accepted()) + [Line(8, "server startup failed")] <= d.Accepted()
    ensures !startupFails && d.Takes(0) && |old(d.logHandler.ch.buf)| < 1000 ==>
              old(d.Accepted()) + [Line(0, "shutting down")] <= d.Accepted()
  {
    var panicked, failed := false, false;
    if startupFails {
      panicked := d.Log(LEVEL_ERROR, "server startup failed");
      panicked := d.Close(f);
      failed := true;
    } else {
      panicked, failed := StopServing(d, httpFails, f);
    }
    if panicked { return Panicked; }
    if failed {
      panicked := d.Log(LEVEL_ERROR, "server error");
      if panicked { return Panicked; }
      return Status(1);
    }
    // the deferred close
    panicked := d.Close(again);
    if panicked { return Panicked; }
    exit := Status(0);
  }
}
