/**
 The analytics pipeline as a step system: a broker with a queue, a dead-letter queue and channels, any
 number of workers, and the analytics table. A worker's acks and nacks travel on its channel's wire in
 order; a lost connection takes the rest of the wire with it and requeues what was outstanding.
 */
module AnalyticsQueue {
  import opened BulkInsert

  /** A queued message: a click that decodes, or bytes that do not. */
  datatype Body = Click(event: ClickEvent) | Malformed
  datatype Msg = Msg(id: nat, body: Body)

  datatype Delivery = Delivery(tag: nat, msg: Msg)

  /** What a worker sends back: Nack(multiple=false, requeue=false) or Ack(multiple=true). */
  datatype Frame = Nack(tag: nat) | AckUpTo(tag: nat)

  /** The broker's side of a channel: the next delivery tag, what is outstanding, and what is on the way. */
  datatype Channel = Channel(next: nat, unacked: map<nat, Msg>, wire: seq<Frame>)

  /** Collecting a batch; or flushing it: decoding delivery `next`, or past the bulk insert.
      `closing` marks the flush of a shutdown, after which Run returns. */
  datatype Phase = Collecting | Decoding(next: nat, closing: bool) | Inserted(closing: bool)

  /** One call of Run: its batch and the prefetched deliveries the client library still buffers. */
  datatype Worker = Worker(batch: seq<Delivery>, buffer: seq<Delivery>, phase: Phase)

  datatype State = State(
    accepted: set<Msg>,
    ready: set<Msg>,
    acked: set<Msg>,
    dlq: set<Msg>,
    table: multiset<Msg>,
    channels: map<nat, Channel>,
    workers: map<nat, Worker>)

  datatype InsertResult = InsertOk | InsertFailed(applied: bool)

  datatype Step =
    | Publish(msg: Msg)
    | Open(ch: nat)
    | Deliver(ch: nat, msg: Msg)
    | Receive(ch: nat)
    | TickFlush(ch: nat)
    | Shutdown(ch: nat)
    | Decode(ch: nat)
    | Insert(ch: nat, result: InsertResult)
    | SendAck(ch: nat)
    | Leave(ch: nat)
    | Broker(ch: nat, tolerant: bool)
    | Drop(ch: nat)

  function Clicks(batch: seq<Delivery>): seq<Msg> {
    if batch == [] then [] else
      var events := Clicks(batch[..|batch| - 1]);
      var last := batch[|batch| - 1].msg;
      if last.body.Click? then events + [last] else events
  }

  /** Indices into a sequence of length `n`, each once and in order. */
  predicate Increasing(at: seq<nat>, n: nat) {
    && (forall i :: 0 <= i < |at| ==> at[i] < n)
    && (forall i, j :: 0 <= i < j < |at| ==> at[i] < at[j])
  }

  /** Every delivery listed decodes, or every one does not. */
  predicate Only(at: seq<nat>, batch: seq<Delivery>, decodes: bool) {
    forall i :: 0 <= i < |at| ==> at[i] < |batch| && batch[at[i]].msg.body.Click? == decodes
  }

  /** And each such delivery is listed. */
  predicate Every(at: seq<nat>, batch: seq<Delivery>, decodes: bool) {
    forall k :: 0 <= k < |batch| && batch[k].msg.body.Click? == decodes ==>
      exists i :: 0 <= i < |at| && at[i] == k
  }

  /** `at` lists, once each and in order, the deliveries that decode, or those that do not. */
  predicate Selects(at: seq<nat>, batch: seq<Delivery>, decodes: bool) {
    Increasing(at, |batch|) && Only(at, batch, decodes) && Every(at, batch, decodes)
  }

  lemma EveryNext(at: seq<nat>, batch: seq<Delivery>, decodes: bool)
    requires batch != [] && Every(at, batch[..|batch| - 1], decodes)
    ensures var n := |batch| - 1;
            Every(if batch[n].msg.body.Click? == decodes then at + [n] else at, batch, decodes)
  {
    var n := |batch| - 1;
    var at' := if batch[n].msg.body.Click? == decodes then at + [n] else at;
    forall k | 0 <= k < |batch| && batch[k].msg.body.Click? == decodes
      ensures exists i :: 0 <= i < |at'| && at'[i] == k
    {
      if k < n {
        assert batch[..n][k] == batch[k];
        var i :| 0 <= i < |at| && at[i] == k;
        assert at'[i] == k;
      } else {
        assert at'[|at|] == k;
      }
    }
  }

  lemma OnlyNext(at: seq<nat>, batch: seq<Delivery>, decodes: bool)
    requires batch != [] && Only(at, batch[..|batch| - 1], decodes) && Increasing(at, |batch| - 1)
    ensures var n := |batch| - 1;
            var at' := if batch[n].msg.body.Click? == decodes then at + [n] else at;
            Only(at', batch, decodes) && Increasing(at', |batch|)
  {
  }

  /** `events` are the messages at the indices `at`. */
  predicate Messages(events: seq<Msg>, at: seq<nat>, batch: seq<Delivery>) {
    |events| == |at| && forall i :: 0 <= i < |at| ==> at[i] < |batch| && events[i] == batch[at[i]].msg
  }

  lemma MessagesNext(events: seq<Msg>, at: seq<nat>, batch: seq<Delivery>)
    requires batch != [] && Messages(events, at, batch[..|batch| - 1])
    ensures Messages(events, at, batch)
    ensures Messages(events + [batch[|batch| - 1].msg], at + [|batch| - 1], batch)
  {
  }

  /** The clicks of a batch are its well-formed messages, each delivery once and in order. */
  lemma {:induction false} ClicksAt(batch: seq<Delivery>) returns (at: seq<nat>)
    ensures Selects(at, batch, true) && Messages(Clicks(batch), at, batch)
    decreases |batch|
  {
    at := [];
    if batch != [] {
      var n := |batch| - 1;
      at := ClicksAt(batch[..n]);
      EveryNext(at, batch, true);
      OnlyNext(at, batch, true);
      MessagesNext(Clicks(batch[..n]), at, batch);
      at := if batch[n].msg.body.Click? then at + [n] else at;
    }
  }

  lemma ClicksHold(batch: seq<Delivery>)
    ensures forall m :: m in Clicks(batch) ==> m.body.Click? && exists k :: 0 <= k < |batch| && batch[k].msg == m
    ensures forall k :: 0 <= k < |batch| && batch[k].msg.body.Click? ==> batch[k].msg in Clicks(batch)
  {
    var at := ClicksAt(batch);
    forall k | 0 <= k < |batch| && batch[k].msg.body.Click?
      ensures batch[k].msg in Clicks(batch)
    {
      assert k in at;
    }
  }

  /** What is outstanding after the broker has handled one frame. */
  function Settle(unacked: map<nat, Msg>, f: Frame): map<nat, Msg> {
    match f
    case Nack(tag) => unacked - {tag}
    case AckUpTo(tag) => map t | t in unacked && t > tag :: unacked[t]
  }

  function Values(unacked: map<nat, Msg>): set<Msg> {
    set t | t in unacked :: unacked[t]
  }

  function Covered(unacked: map<nat, Msg>, tag: nat): set<Msg> {
    set t | t in unacked && t <= tag :: unacked[t]
  }

  /** A frame sent on a connection that is already gone is lost. */
  function Send(s: State, ch: nat, f: Frame): State {
    if ch in s.channels
    then s.(channels := s.channels[ch := s.channels[ch].(wire := s.channels[ch].wire + [f])])
    else s
  }

  function Requeue(s: State, ch: nat): State
    requires ch in s.channels
  {
    s.(ready := s.ready + Values(s.channels[ch].unacked), channels := s.channels - {ch})
  }

  /** The end of a flush: back to collecting, or out of Run when shutting down. */
  function EndFlush(s: State, ch: nat, closing: bool): State
    requires ch in s.workers
  {
    if closing then s.(workers := s.workers - {ch})
    else s.(workers := s.workers[ch := s.workers[ch].(batch := [], phase := Collecting)])
  }

  function Enter(s: State, ch: nat, w: Worker): State {
    s.(workers := s.workers[ch := w])
  }

  /** The prefetch window is twice the batch size; a window of zero means no limit. */
  predicate Enabled(batchSize: nat, s: State, step: Step) {
    match step
    case Publish(m) => m !in s.accepted
    case Open(ch) => ch !in s.channels && ch !in s.workers
    case Deliver(ch, m) =>
      ch in s.channels && m in s.ready && (batchSize == 0 || |s.channels[ch].unacked| < 2 * batchSize)
    case Receive(ch) => ch in s.workers && s.workers[ch].phase.Collecting? && s.workers[ch].buffer != []
    case TickFlush(ch) => ch in s.workers && s.workers[ch].phase.Collecting? && s.workers[ch].batch != []
    case Shutdown(ch) => ch in s.workers && s.workers[ch].phase.Collecting?
    case Decode(ch) =>
      ch in s.workers && s.workers[ch].phase.Decoding? && s.workers[ch].phase.next < |s.workers[ch].batch|
    case Insert(ch, _) =>
      ch in s.workers && s.workers[ch].phase.Decoding? && s.workers[ch].phase.next >= |s.workers[ch].batch|
    case SendAck(ch) => ch in s.workers && s.workers[ch].phase.Inserted? && s.workers[ch].batch != []
    case Leave(ch) => ch in s.workers
    case Broker(ch, _) => ch in s.channels && s.channels[ch].wire != []
    case Drop(ch) => ch in s.channels
  }

  /** The broker takes the next frame off the wire. A tag it no longer holds is a channel error, except
      that for an ack of everything up to a tag it may also settle what lies below. */
  function BrokerStep(s: State, ch: nat, tolerant: bool): State
    requires ch in s.channels && s.channels[ch].wire != []
  {
    var c := s.channels[ch];
    var f := c.wire[0];
    var c' := Channel(c.next, Settle(c.unacked, f), c.wire[1..]);
    match f
    case Nack(tag) =>
      if tag in c.unacked
      then s.(dlq := s.dlq + {c.unacked[tag]}, channels := s.channels[ch := c'])
      else Requeue(s, ch)
    case AckUpTo(tag) =>
      if tag in c.unacked || tolerant
      then s.(acked := s.acked + Covered(c.unacked, tag), channels := s.channels[ch := c'])
      else Requeue(s, ch)
  }

  function Apply(batchSize: nat, s: State, step: Step): State
    requires Enabled(batchSize, s, step)
  {
    match step
    case Publish(m) => s.(accepted := s.accepted + {m}, ready := s.ready + {m})
    case Open(ch) =>
      Enter(s.(channels := s.channels[ch := Channel(1, map[], [])]), ch, Worker([], [], Collecting))
    case Deliver(ch, m) =>
      var c := s.channels[ch];
      var s' := s.(ready := s.ready - {m},
                   channels := s.channels[ch := Channel(c.next + 1, c.unacked[c.next := m], c.wire)]);
      if ch in s.workers
      then Enter(s', ch, s.workers[ch].(buffer := s.workers[ch].buffer + [Delivery(c.next, m)]))
      else s'
    case Receive(ch) =>
      var w := s.workers[ch];
      var batch := w.batch + [w.buffer[0]];
      Enter(s, ch, Worker(batch, w.buffer[1..], if |batch| >= batchSize then Decoding(0, false) else Collecting))
    case TickFlush(ch) => Enter(s, ch, s.workers[ch].(phase := Decoding(0, false)))
    case Shutdown(ch) =>
      if s.workers[ch].batch == [] then s.(workers := s.workers - {ch})
      else Enter(s, ch, s.workers[ch].(phase := Decoding(0, true)))
    case Decode(ch) =>
      var w := s.workers[ch];
      var d := w.batch[w.phase.next];
      Enter(if d.msg.body.Malformed? then Send(s, ch, Nack(d.tag)) else s,
            ch, w.(phase := Decoding(w.phase.next + 1, w.phase.closing)))
    case Insert(ch, result) =>
      var w := s.workers[ch];
      var events := Clicks(w.batch);
      if events == [] then EndFlush(s, ch, w.phase.closing)
      else (match result
            case InsertOk =>
              Enter(s.(table := s.table + multiset(events)), ch, w.(phase := Inserted(w.phase.closing)))
            case InsertFailed(applied) =>
              s.(table := if applied then s.table + multiset(events) else s.table, workers := s.workers - {ch}))
    case SendAck(ch) =>
      var w := s.workers[ch];
      EndFlush(Send(s, ch, AckUpTo(w.batch[|w.batch| - 1].tag)), ch, w.phase.closing)
    case Leave(ch) => s.(workers := s.workers - {ch})
    case Broker(ch, tolerant) => BrokerStep(s, ch, tolerant)
    case Drop(ch) => Requeue(s, ch)
  }

  predicate Initial(s: State) {
    s == State({}, {}, {}, {}, multiset{}, map[], map[])
  }

  ghost predicate Run(batchSize: nat, states: seq<State>, steps: seq<Step>) {
    && |states| == |steps| + 1
    && Initial(states[0])
    && forall i :: 0 <= i < |steps| ==>
         Enabled(batchSize, states[i], steps[i]) && states[i + 1] == Apply(batchSize, states[i], steps[i])
  }

  /** `steps` leads from `s` to `end`. */
  predicate Path(batchSize: nat, s: State, steps: seq<Step>, end: State)
    decreases |steps|
  {
    if steps == [] then s == end
    else Enabled(batchSize, s, steps[0]) && Path(batchSize, Apply(batchSize, s, steps[0]), steps[1..], end)
  }

  lemma {:induction false} PathJoin(batchSize: nat, s: State, first: seq<Step>, mid: State, second: seq<Step>,
                                    end: State)
    requires Path(batchSize, s, first, mid) && Path(batchSize, mid, second, end)
    ensures Path(batchSize, s, first + second, end)
    decreases |first|
  {
    if first == [] {
      assert first + second == second;
    } else {
      assert (first + second)[1..] == first[1..] + second;
      PathJoin(batchSize, Apply(batchSize, s, first[0]), first[1..], mid, second, end);
    }
  }

  lemma PathStep(batchSize: nat, s: State, step: Step)
    requires Enabled(batchSize, s, step)
    ensures Path(batchSize, s, [step], Apply(batchSize, s, step))
  {
    assert Path(batchSize, Apply(batchSize, s, step), [step][1..], Apply(batchSize, s, step));
  }

  lemma PathOn(batchSize: nat, s: State, steps: seq<Step>, mid: State, step: Step)
    requires Path(batchSize, s, steps, mid) && Enabled(batchSize, mid, step)
    ensures Path(batchSize, s, steps + [step], Apply(batchSize, mid, step))
  {
    PathStep(batchSize, mid, step);
    PathJoin(batchSize, s, steps, mid, [step], Apply(batchSize, mid, step));
  }
}
