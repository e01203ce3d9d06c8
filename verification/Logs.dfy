/** Log records, the handler that queues them, the producer they are handed to, and the log table. */
module Logs {

  const BUFFER_SIZE: nat := 1000
  const LEVEL_INFO := 0
  const LEVEL_ERROR := 8

  datatype Attr = Attr(key: string, value: string)
  datatype Record = Record(time: int, level: int, message: string, attrs: seq<Attr>)
  /** A record as published: attributes merged into one map. */
  datatype LogRecord = LogRecord(time: int, level: int, message: string, attrs: map<string, string>)

  /** Attributes in order, a later one replacing an earlier one of the same key. */
  function AttrMap(attrs: seq<Attr>): map<string, string>
  {
    if attrs == [] then map[] else
      var a := attrs[|attrs| - 1];
      AttrMap(attrs[..|attrs| - 1])[a.key := a.value]
  }

  lemma AttrMapAppend(attrs: seq<Attr>, a: Attr)
    ensures AttrMap(attrs + [a]) == AttrMap(attrs)[a.key := a.value]
  {
    assert (attrs + [a])[..|attrs|] == attrs;
  }

  function Render(own: seq<Attr>, r: Record): LogRecord
  {
    LogRecord(r.time, r.level, r.message, AttrMap(own + r.attrs))
  }

  function RenderAll(own: seq<Attr>, rs: seq<Record>): seq<LogRecord>
  {
    if rs == [] then [] else RenderAll(own, rs[..|rs| - 1]) + [Render(own, rs[|rs| - 1])]
  }

  lemma RenderAppend(own: seq<Attr>, rs: seq<Record>, r: Record)
    ensures RenderAll(own, rs + [r]) == RenderAll(own, rs) + [Render(own, r)]
  {
    assert (rs + [r])[..|rs|] == rs;
  }

  /** A key maps to the value it was given last, and only keys that were given appear. */
  lemma {:induction false} LastValueWins(attrs: seq<Attr>, key: string)
    ensures key in AttrMap(attrs) <==> exists i :: 0 <= i < |attrs| && attrs[i].key == key
    ensures forall i | 0 <= i < |attrs| && attrs[i].key == key && (forall j | i < j < |attrs| :: attrs[j].key != key) ::
              AttrMap(attrs)[key] == attrs[i].value
  {
    if attrs != [] {
      var init := attrs[..|attrs| - 1];
      LastValueWins(init, key);
      if attrs[|attrs| - 1].key == key {
        assert attrs[|attrs| - 1].key == key;
      } else {
        assert forall i | 0 <= i < |init| :: init[i] == attrs[i];
      }
    }
  }

  predicate Gives(attrs: seq<Attr>, key: string) { exists i :: 0 <= i < |attrs| && attrs[i].key == key }

  /** The key's last value is the one at i. */
  predicate LastAt(attrs: seq<Attr>, key: string, i: int)
  {
    0 <= i < |attrs| && attrs[i].key == key && forall j | i < j < |attrs| :: attrs[j].key != key
  }

  /** A published record keeps its time, level and message; each key has the last value that the record gives it,
      the last the handler gives it if the record gives none, and no other key appears. */
  lemma RecordsOwnValueWins(own: seq<Attr>, r: Record, key: string)
    ensures var rec := Render(own, r);
            && rec.time == r.time && rec.level == r.level && rec.message == r.message
            && (key in rec.attrs <==> Gives(own, key) || Gives(r.attrs, key))
            && (forall i | LastAt(r.attrs, key, i) :: key in rec.attrs && rec.attrs[key] == r.attrs[i].value)
            && (forall i | LastAt(own, key, i) && !Gives(r.attrs, key) ::
                  key in rec.attrs && rec.attrs[key] == own[i].value)
  {
    var all := own + r.attrs;
    LastValueWins(all, key);
    if Gives(own, key) {
      var i :| 0 <= i < |own| && own[i].key == key;
      assert all[i].key == key;
    }
    forall i | 0 <= i < |r.attrs| ensures all[|own| + i] == r.attrs[i] {}
    forall i | LastAt(r.attrs, key, i) ensures LastAt(all, key, |own| + i) {}
    forall i | LastAt(own, key, i) && !Gives(r.attrs, key) ensures LastAt(all, key, i) {}
    assert forall i | LastAt(all, key, i) :: key in AttrMap(all) && AttrMap(all)[key] == all[i].value;
  }

  /** The record the drain goroutine has received and not yet handed over, if any. */
  datatype Hand = Empty | Holding(record: Record) {
    function Content(): seq<Record> { if Holding? then [record] else [] }
  }

  /** The channel shared by a handler and everything derived from it, with its one receiver. */
  class Channel {
    var buf: seq<Record>
    var hand: Hand
    var closed: bool
    ghost var accepted: seq<Record>  // everything ever taken in, in order

    constructor ()
      ensures buf == [] && hand == Empty && !closed && accepted == []
    {
      buf, hand, closed, accepted := [], Empty, false, [];
    }

    /** Everything taken in and not yet handed over, oldest first. */
    function Pending(): seq<Record>
      reads this
    {
      hand.Content() + buf
    }
  }

  /** The producer's side of the broker; what comes after closing is lost. */
  class Producer {
    var handed: seq<LogRecord>
    var late: seq<LogRecord>
    var open: bool

    constructor ()
      ensures handed == [] && late == [] && open
    {
      handed, late, open := [], [], true;
    }

    method Publish(rec: LogRecord)
      modifies this
      ensures open == old(open)
      ensures handed == old(handed) + if open then [rec] else []
      ensures late == old(late) + if open then [] else [rec]
    {
      if open { handed := handed + [rec]; } else { late := late + [rec]; }
    }

    method Close()
      modifies this`open
      ensures !open
    {
      open := false;
    }
  }

  /** A handler; sending on its channel after it was closed would panic. */
  class KafkaHandler {
    const producer: Producer
    const level: int
    const attrs: seq<Attr>
    const groups: seq<string>
    const ch: Channel

    constructor New(producer: Producer, level: int)
      ensures this.producer == producer && this.level == level && attrs == [] && groups == []
      ensures fresh(ch) && ch.buf == [] && ch.hand == Empty && !ch.closed && ch.accepted == []
    {
      this.producer, this.level, this.attrs, this.groups := producer, level, [], [];
      ch := new Channel();
    }

    constructor Derived(from: KafkaHandler, attrs: seq<Attr>, groups: seq<string>)
      ensures this.producer == from.producer && this.level == from.level && this.ch == from.ch
      ensures this.attrs == attrs && this.groups == groups
    {
      this.producer, this.level, this.attrs, this.groups, this.ch := from.producer, from.level, attrs, groups, from.ch;
    }

    predicate Enabled(l: int) { l >= level }

    /** Queues the record, or drops it when the queue is full; never blocks. */
    method Handle(r: Record)
      requires !ch.closed
      modifies ch
      ensures !ch.closed && ch.hand == old(ch.hand)
      ensures if |old(ch.buf)| < 1000
              then ch.buf == old(ch.buf) + [r] && ch.accepted == old(ch.accepted) + [r]
              else ch.buf == old(ch.buf) && ch.accepted == old(ch.accepted)
    {
      if |ch.buf| < BUFFER_SIZE {
        ch.buf, ch.accepted := ch.buf + [r], ch.accepted + [r];
      }
    }

    method WithAttrs(more: seq<Attr>) returns (h: KafkaHandler)
      ensures fresh(h) && h.ch == ch && h.producer == producer && h.level == level
      ensures h.attrs == attrs + more && h.groups == groups
    {
      h := new KafkaHandler.Derived(this, attrs + more, groups);
    }

    method WithGroup(name: string) returns (h: KafkaHandler)
      ensures fresh(h) && h.ch == ch && h.producer == producer && h.level == level
      ensures h.attrs == attrs && h.groups == groups + [name]
    {
      h := new KafkaHandler.Derived(this, attrs, groups + [name]);
    }

    /** Merges this handler's own attributes with the record's, and hands the result over. */
    method Publish(r: Record)
      modifies producer
      ensures producer.open == old(producer.open)
      ensures producer.handed == old(producer.handed) + if producer.open then [Render(attrs, r)] else []
      ensures producer.late == old(producer.late) + if producer.open then [] else [Render(attrs, r)]
      ensures Render(attrs, r) == LogRecord(r.time, r.level, r.message, AttrMap(attrs + r.attrs))
    {
      var m := SetAll(map[], [], attrs);
      assert [] + attrs == attrs;
      m := SetAll(m, attrs, r.attrs);
      producer.Publish(LogRecord(r.time, r.level, r.message, m));
    }

    static method SetAll(m: map<string, string>, ghost done: seq<Attr>, more: seq<Attr>)
      returns (all: map<string, string>)
      requires m == AttrMap(done)
      ensures all == AttrMap(done + more)
    {
      all := m;
      assert done + more[..0] == done;
      for i := 0 to |more|
        invariant all == AttrMap(done + more[..i])
      {
        all := all[more[i].key := more[i].value];
        AttrMapAppend(done + more[..i], more[i]);
        assert done + more[..i + 1] == done + more[..i] + [more[i]];
      }
      assert more[..|more|] == more;
    }

    method FinishHand()
      requires producer.open
      modifies ch`hand, producer
      ensures ch.hand == Empty && producer.open && producer.late == old(producer.late)
      ensures producer.handed == old(producer.handed) + RenderAll(attrs, old(ch.hand).Content())
    {
      if ch.hand.Holding? {
        var r := ch.hand.record;
        RenderAppend(attrs, [], r);
        assert [] + [r] == [r];
        Publish(r);
        ch.hand := Empty;
      }
    }

    /** Hands over the record at hand and then empties the channel, oldest first. */
    method Drain()
      requires producer.open
      modifies ch`buf, ch`hand, producer
      ensures ch.Pending() == [] && producer.open && producer.late == old(producer.late)
      ensures producer.handed == old(producer.handed) + RenderAll(attrs, old(ch.Pending()))
    {
      ghost var done := ch.hand.Content();
      FinishHand();
      while ch.buf != []
        invariant done + ch.buf == old(ch.Pending()) && ch.hand == Empty
        invariant producer.open && producer.late == old(producer.late)
        invariant producer.handed == old(producer.handed) + RenderAll(attrs, done)
        decreases |ch.buf|
      {
        var r := ch.buf[0];
        RenderAppend(attrs, done, r);
        ch.buf := ch.buf[1..];
        Publish(r);
        done := done + [r];
      }
      assert done + ch.buf == done;
    }

    /** Closes the channel and waits until what is pending has been handed over. */
    method Close()
      requires !ch.closed && producer.open
      modifies ch, producer
      ensures ch.closed && ch.Pending() == [] && ch.accepted == old(ch.accepted)
      ensures producer.open && producer.late == old(producer.late)
      ensures producer.handed == old(producer.handed) + RenderAll(attrs, old(ch.Pending()))
    {
      ch.closed := true;
      Drain();
    }
  }

  /** Whatever attributes and groups a derived handler was given, and whatever is waiting, a record logged
      through it is dropped or published in its turn as if logged through the root. */
  method LogThroughDerived(root: KafkaHandler, extra: seq<Attr>, group: string, r: Record) returns (rec: LogRecord)
    requires root.attrs == [] && !root.ch.closed && root.producer.open
    modifies root.ch, root.producer
    ensures root.producer.handed == old(root.producer.handed) + RenderAll([], old(root.ch.Pending())) +
                                    if |old(root.ch.buf)| < BUFFER_SIZE then [rec] else []
    ensures rec == LogRecord(r.time, r.level, r.message, AttrMap(r.attrs))
    ensures forall a | a in extra && (forall i | 0 <= i < |r.attrs| :: r.attrs[i].key != a.key) :: a.key !in rec.attrs
  {
    var outer := root.WithAttrs(extra);
    var h := outer.WithGroup(group);
    ghost var waiting := root.ch.Pending();
    h.Handle(r);
    assert |old(root.ch.buf)| < BUFFER_SIZE ==> root.ch.Pending() == waiting + [r];
    RenderAppend([], waiting, r);
    root.Drain();
    rec := Render(root.attrs, r);
    assert root.attrs + r.attrs == r.attrs;
    forall a | a in extra && (forall i | 0 <= i < |r.attrs| :: r.attrs[i].key != a.key) ensures a.key !in rec.attrs {
      LastValueWins(r.attrs, a.key);
    }
  }

  // ---- The consuming side ---------------------------------------------------------------------------

  /** What a message turns out to be: a record, or bytes that do not decode. */
  datatype Payload = Decodes(rec: LogRecord) | Garbage

  /** One attempt to read from the broker, with what the table will say to the insert. */
  datatype Read = Message(value: Payload, insertOk: bool) | Failure(cancelled: bool)

  function RowOf(p: Payload, insertOk: bool): seq<LogRecord>
  {
    if p.Decodes? && insertOk then [p.rec] else []
  }

  class LogTable {
    var rows: seq<LogRecord>

    constructor ()
      ensures rows == []
    {
      rows := [];
    }

    method Insert(p: Payload, insertOk: bool) returns (failed: bool)
      modifies this
      ensures rows == old(rows) + RowOf(p, insertOk)
      ensures failed <==> RowOf(p, insertOk) == []
      ensures RowOf(p, insertOk) == match p case Decodes(rec) => (if insertOk then [rec] else []) case Garbage => []
    {
      if p.Garbage? { return true; }
      if !insertOk { return true; }
      rows := rows + [p.rec];
      failed := false;
    }
  }

  function Payloads(script: seq<Read>): seq<Payload>
  {
    if script == [] then [] else
      var sofar, r := Payloads(script[..|script| - 1]), script[|script| - 1];
      if r.Message? then sofar + [r.value] else sofar
  }

  function Rows(script: seq<Read>): seq<LogRecord>
  {
    if script == [] then [] else
      var r := script[|script| - 1];
      Rows(script[..|script| - 1]) + if r.Message? then RowOf(r.value, r.insertOk) else []
  }

  /** Error messages logged: one per failed read and one per failed insert. */
  function Errors(script: seq<Read>): nat
  {
    if script == [] then 0 else
      var r := script[|script| - 1];
      Errors(script[..|script| - 1]) + if r.Message? && RowOf(r.value, r.insertOk) != [] then 0 else 1
  }

  /** How many reads happen before the one that ends the loop. */
  function ReadsBeforeStop(script: seq<Read>): (n: nat)
    ensures n <= |script|
    ensures forall i | 0 <= i < n :: !(script[i].Failure? && script[i].cancelled)
    ensures n < |script| ==> script[n].Failure? && script[n].cancelled
  {
    if script == [] then 0
    else if script[0].Failure? && script[0].cancelled then 0
    else 1 + ReadsBeforeStop(script[1..])
  }

  lemma StopIsUnique(script: seq<Read>, n: nat)
    requires n <= |script| && forall i | 0 <= i < n :: !(script[i].Failure? && script[i].cancelled)
    requires n < |script| ==> script[n].Failure? && script[n].cancelled
    ensures n == ReadsBeforeStop(script)
  {}

  /** The consuming loop on what the broker delivers so far: every message is handled once, in order,
      whatever became of the ones before; only a failed read under a cancelled context ends it. */
  method Consume(script: seq<Read>, table: LogTable) returns (handled: seq<Payload>, errors: nat, returned: bool)
    modifies table
    ensures var n := ReadsBeforeStop(script);
            && handled == Payloads(script[..n])
            && table.rows == old(table.rows) + Rows(script[..n])
            && errors == Errors(script[..n])
            && (returned <==> n < |script|)
  {
    handled, errors, returned := [], 0, false;
    for i := 0 to |script|
      invariant handled == Payloads(script[..i]) && errors == Errors(script[..i]) && !returned
      invariant table.rows == old(table.rows) + Rows(script[..i])
      invariant forall j | 0 <= j < i :: !(script[j].Failure? && script[j].cancelled)
    {
      assert script[..i + 1][..i] == script[..i];
      match script[i]
      case Failure(cancelled) =>
        if cancelled {
          StopIsUnique(script, i);
          returned := true;
          return;
        }
        errors := errors + 1;
      case Message(value, insertOk) =>
        var failed := table.Insert(value, insertOk);
        handled := handled + [value];
        if failed { errors := errors + 1; }
    }
    StopIsUnique(script, |script|);
    assert script[..|script|] == script;
  }

  /** Attempts that deliver nothing. */
  function FailedReads(script: seq<Read>): nat
  {
    if script == [] then 0 else
      FailedReads(script[..|script| - 1]) + if script[|script| - 1].Failure? then 1 else 0
  }

  /** Messages delivered that give no row. */
  function FailedInserts(script: seq<Read>): nat
  {
    if script == [] then 0 else
      var r := script[|script| - 1];
      FailedInserts(script[..|script| - 1]) + if r.Message? && RowOf(r.value, r.insertOk) == [] then 1 else 0
  }

  /** Every attempt ends in one row or one logged error: a failed read, or a message without a row. */
  lemma {:induction false} RowOrError(script: seq<Read>)
    ensures Errors(script) == FailedReads(script) + FailedInserts(script)
    ensures |Rows(script)| + Errors(script) == |script|
    ensures |Payloads(script)| + FailedReads(script) == |script|
  {
    if script != [] { RowOrError(script[..|script| - 1]); }
  }

  /** Each delivered message is handled at its own place: after those delivered before it and before all others. */
  lemma {:induction false} HandledInOrder(script: seq<Read>, i: nat)
    requires i < |script| && script[i].Message?
    ensures var before := |script[..i]| - FailedReads(script[..i]);
            0 <= before < |Payloads(script)| && Payloads(script)[before] == script[i].value
  {
    var init := script[..|script| - 1];
    RowOrError(init);
    if i == |init| {
      assert script[..i] == init;
    } else {
      HandledInOrder(init, i);
      assert init[..i] == script[..i];
    }
  }

  /** Under a context that is never cancelled the loop goes on for ever, whatever is delivered, logging one
      error per failed read and one per message without a row. */
  lemma NeverCancelledNeverReturns(script: seq<Read>)
    requires forall i | 0 <= i < |script| :: !(script[i].Failure? && script[i].cancelled)
    ensures ReadsBeforeStop(script) == |script|
    ensures Errors(script) == FailedReads(script) + FailedInserts(script)
    ensures |Rows(script)| + Errors(script) == |script|
  {
    StopIsUnique(script, |script|);
    RowOrError(script);
  }
}
