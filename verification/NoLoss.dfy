/** Every accepted message is ready, outstanding in one place, in the table or dead-lettered, always. */
module NoLoss {
  import opened AnalyticsQueue

  // ---------------------------------------------------------------- the wire

  /** What will be outstanding once the broker has handled the whole wire. */
  function Drain(unacked: map<nat, Msg>, wire: seq<Frame>): map<nat, Msg>
    decreases |wire|
  {
    if wire == [] then unacked else Drain(Settle(unacked, wire[0]), wire[1..])
  }

  /** A frame that loses nothing: it dead-letters only bad messages and settles only inserted ones. */
  predicate FrameSafe(unacked: map<nat, Msg>, f: Frame, table: multiset<Msg>) {
    match f
    case Nack(tag) => tag in unacked ==> unacked[tag].body.Malformed?
    case AckUpTo(tag) => forall t :: t in unacked && t <= tag ==> unacked[t] in table
  }

  predicate WireSafe(unacked: map<nat, Msg>, wire: seq<Frame>, table: multiset<Msg>)
    decreases |wire|
  {
    wire == [] || (FrameSafe(unacked, wire[0], table) && WireSafe(Settle(unacked, wire[0]), wire[1..], table))
  }

  lemma {:induction false} WireAppend(unacked: map<nat, Msg>, wire: seq<Frame>, f: Frame, table: multiset<Msg>)
    requires WireSafe(unacked, wire, table) && FrameSafe(Drain(unacked, wire), f, table)
    ensures WireSafe(unacked, wire + [f], table)
    ensures Drain(unacked, wire + [f]) == Settle(Drain(unacked, wire), f)
    decreases |wire|
  {
    if wire == [] {
      assert wire + [f] == [f];
      assert WireSafe(Settle(unacked, f), [f][1..], table);
    } else {
      assert (wire + [f])[1..] == wire[1..] + [f];
      WireAppend(Settle(unacked, wire[0]), wire[1..], f, table);
    }
  }

  lemma {:induction false} WireTable(unacked: map<nat, Msg>, wire: seq<Frame>, table: multiset<Msg>,
                                     table': multiset<Msg>)
    requires WireSafe(unacked, wire, table) && table <= table'
    ensures WireSafe(unacked, wire, table')
    decreases |wire|
  {
    if wire != [] {
      WireTable(Settle(unacked, wire[0]), wire[1..], table, table');
    }
  }

  predicate TagsBelow(wire: seq<Frame>, next: nat) {
    forall i :: 0 <= i < |wire| ==> wire[i].tag < next
  }

  lemma SettleNew(unacked: map<nat, Msg>, f: Frame, tag: nat, m: Msg)
    requires tag !in unacked && f.tag < tag
    ensures tag !in Settle(unacked, f)
    ensures Settle(unacked[tag := m], f) == Settle(unacked, f)[tag := m]
  {
  }

  /** A new delivery has a tag above everything on the wire, which therefore does not touch it. */
  lemma {:induction false} WireDeliver(unacked: map<nat, Msg>, wire: seq<Frame>, table: multiset<Msg>, tag: nat, m: Msg)
    requires WireSafe(unacked, wire, table) && tag !in unacked && TagsBelow(wire, tag)
    ensures WireSafe(unacked[tag := m], wire, table)
    ensures Drain(unacked[tag := m], wire) == Drain(unacked, wire)[tag := m]
    decreases |wire|
  {
    if wire != [] {
      SettleNew(unacked, wire[0], tag, m);
      WireDeliver(Settle(unacked, wire[0]), wire[1..], table, tag, m);
    }
  }

  // ---------------------------------------------------------------- where messages are

  predicate OutAt(s: State, m: Msg, ch: nat, tag: nat) {
    ch in s.channels && tag in s.channels[ch].unacked && s.channels[ch].unacked[tag] == m
  }

  ghost predicate Outstanding(s: State, m: Msg) {
    exists ch, tag :: OutAt(s, m, ch, tag)
  }

  /** Every accepted message is somewhere. */
  ghost predicate NoneLost(s: State) {
    forall m :: m in s.accepted ==> m in s.ready || m in s.acked || m in s.dlq || Outstanding(s, m)
  }

  /** And in one place only. */
  ghost predicate OnePlace(s: State) {
    && s.ready + s.acked + s.dlq <= s.accepted
    && s.ready !! s.acked && s.ready !! s.dlq && s.acked !! s.dlq
    && (forall m, ch, tag :: OutAt(s, m, ch, tag) ==> m in s.accepted && m !in s.ready && m !in s.acked && m !in s.dlq)
    && (forall m, ch, tag, ch', tag' :: OutAt(s, m, ch, tag) && OutAt(s, m, ch', tag') ==> ch == ch' && tag == tag')
  }

  /** What was acknowledged is in the table; only clicks are inserted; only bad messages are dead-lettered. */
  ghost predicate Rightful(s: State) {
    && (forall m :: m in s.acked ==> m in s.table)
    && (forall m :: m in s.table ==> m.body.Click? && m in s.accepted)
    && (forall m :: m in s.dlq ==> m.body.Malformed?)
  }

  ghost predicate ChannelOk(c: Channel, table: multiset<Msg>) {
    && c.next >= 1
    && (forall t :: t in c.unacked ==> 1 <= t < c.next)
    && TagsBelow(c.wire, c.next)
    && WireSafe(c.unacked, c.wire, table)
  }

  ghost predicate ChannelsOk(s: State) {
    forall ch :: ch in s.channels ==> ChannelOk(s.channels[ch], s.table)
  }

  ghost predicate BrokerInv(s: State) {
    NoneLost(s) && OnePlace(s) && Rightful(s) && ChannelsOk(s)
  }

  // ---------------------------------------------------------------- what a worker holds

  function All(w: Worker): seq<Delivery> {
    w.batch + w.buffer
  }

  /** How many deliveries of the batch the current flush has decoded. */
  function Passed(w: Worker): nat {
    match w.phase
    case Collecting => 0
    case Decoding(next, _) => next
    case Inserted(_) => |w.batch|
  }

  predicate Nacked(w: Worker, k: nat) {
    k < Passed(w) && k < |w.batch| && w.batch[k].msg.body.Malformed?
  }

  /** `m` holds, by tag, exactly the deliveries `w` has neither nacked nor acked; `lo` is its first tag. */
  ghost predicate Holds(m: map<nat, Msg>, w: Worker, lo: nat) {
    && (forall t :: t in m ==> lo <= t < lo + |All(w)|)
    && (forall k :: 0 <= k < |All(w)| ==> All(w)[k].tag == lo + k)
    && (forall k :: 0 <= k < |All(w)| ==>
          if Nacked(w, k) then All(w)[k].tag !in m else All(w)[k].tag in m && m[All(w)[k].tag] == All(w)[k].msg)
  }

  /** Batch and buffer carry consecutive tags up to the last one delivered, and once the wire is drained
      the broker's outstanding deliveries are exactly those the worker still holds. */
  ghost predicate InStep(c: Channel, w: Worker) {
    |All(w)| < c.next && Holds(Drain(c.unacked, c.wire), w, c.next - |All(w)|)
  }

  ghost predicate WorkerOk(s: State, w: Worker) {
    && (forall k :: 0 <= k < |All(w)| ==> All(w)[k].msg in s.accepted)
    && (w.phase.Decoding? ==> w.phase.next <= |w.batch|)
    && (!w.phase.Collecting? ==> w.batch != [])
    && (w.phase.Inserted? ==>
          forall k :: 0 <= k < |w.batch| && w.batch[k].msg.body.Click? ==> w.batch[k].msg in s.table)
  }

  ghost predicate WorkersOk(s: State) {
    && (forall ch :: ch in s.workers ==> WorkerOk(s, s.workers[ch]))
    && (forall ch :: ch in s.workers && ch in s.channels ==> InStep(s.channels[ch], s.workers[ch]))
  }

  ghost predicate Inv(s: State) {
    BrokerInv(s) && WorkersOk(s)
  }

  // ---------------------------------------------------------------- one worker and its channel

  lemma DeliverInStep(c: Channel, w: Worker, table: multiset<Msg>, m: Msg)
    requires ChannelOk(c, table) && InStep(c, w) && (w.phase.Decoding? ==> w.phase.next <= |w.batch|)
    ensures InStep(Channel(c.next + 1, c.unacked[c.next := m], c.wire),
                   w.(buffer := w.buffer + [Delivery(c.next, m)]))
  {
    WireDeliver(c.unacked, c.wire, table, c.next, m);
    var d := Delivery(c.next, m);
    assert All(w.(buffer := w.buffer + [d])) == All(w) + [d];
    OneMoreHeld(Drain(c.unacked, c.wire), w, c.next - |All(w)|, d);
  }

  lemma OneMoreHeld(m: map<nat, Msg>, w: Worker, lo: nat, d: Delivery)
    requires Holds(m, w, lo) && d.tag == lo + |All(w)| && Passed(w) <= |w.batch|
    ensures Holds(m[d.tag := d.msg], w.(buffer := w.buffer + [d]), lo)
  {
    var w' := w.(buffer := w.buffer + [d]);
    assert All(w') == All(w) + [d];
    forall k | 0 <= k < |All(w)|
      ensures All(w')[k] == All(w)[k] && Nacked(w', k) == Nacked(w, k)
    {
    }
  }

  /** Moving a delivery from the buffer to the batch, or changing phase before decoding, moves no tag. */
  lemma RegroupInStep(c: Channel, w: Worker, w': Worker)
    requires InStep(c, w) && All(w') == All(w) && Passed(w) == 0 && Passed(w') == 0
    ensures InStep(c, w')
  {
  }

  lemma DecodeClickInStep(c: Channel, w: Worker, w': Worker)
    requires InStep(c, w) && w.phase.Decoding? && w.phase.next < |w.batch|
    requires w.batch[w.phase.next].msg.body.Click?
    requires w' == w.(phase := Decoding(w.phase.next + 1, w.phase.closing))
    ensures InStep(c, w')
  {
    assert All(w') == All(w);
    assert forall k :: 0 <= k < |All(w)| ==> Nacked(w', k) == Nacked(w, k);
  }

  lemma DecodeBadInStep(c: Channel, w: Worker, w': Worker, table: multiset<Msg>)
    requires ChannelOk(c, table) && InStep(c, w) && w.phase.Decoding? && w.phase.next < |w.batch|
    requires w.batch[w.phase.next].msg.body.Malformed?
    requires w' == w.(phase := Decoding(w.phase.next + 1, w.phase.closing))
    ensures var f := Nack(w.batch[w.phase.next].tag);
            InStep(c.(wire := c.wire + [f]), w') && ChannelOk(c.(wire := c.wire + [f]), table)
  {
    var i := w.phase.next;
    var f := Nack(w.batch[i].tag);
    assert All(w)[i] == w.batch[i];
    assert !Nacked(w, i);
    WireAppend(c.unacked, c.wire, f, table);
    assert All(w') == All(w);
    assert forall k :: 0 <= k < |All(w)| && k != i ==> Nacked(w', k) == Nacked(w, k);
  }

  lemma InsertInStep(c: Channel, w: Worker, w': Worker)
    requires InStep(c, w) && w.phase.Decoding? && w.phase.next == |w.batch|
    requires w' == w.(phase := Inserted(w.phase.closing))
    ensures InStep(c, w')
  {
    assert All(w') == All(w);
  }

  /** Forgetting a batch of which nothing is left over. */
  lemma BatchForgotten(m: map<nat, Msg>, m': map<nat, Msg>, w: Worker, lo: nat)
    requires Holds(m, w, lo) && Passed(w) <= |w.batch|
    requires forall t :: t in m' ==> t in m && t >= lo + |w.batch|
    requires forall t :: t in m && t >= lo + |w.batch| ==> t in m' && m'[t] == m[t]
    ensures Holds(m', w.(batch := [], phase := Collecting), lo + |w.batch|)
  {
    assert All(w.(batch := [], phase := Collecting)) == w.buffer;
    forall k | 0 <= k < |w.buffer|
      ensures w.buffer[k].tag == lo + |w.batch| + k
      ensures w.buffer[k].tag in m && m[w.buffer[k].tag] == w.buffer[k].msg
    {
      BufferHeld(m, w, lo, k);
    }
  }

  /** What the client library still buffers is outstanding. */
  lemma BufferHeld(m: map<nat, Msg>, w: Worker, lo: nat, k: nat)
    requires Holds(m, w, lo) && k < |w.buffer|
    ensures w.buffer[k].tag == lo + |w.batch| + k
    ensures w.buffer[k].tag in m && m[w.buffer[k].tag] == w.buffer[k].msg
  {
    var j := |w.batch| + k;
    assert All(w)[j] == w.buffer[k] && !Nacked(w, j);
  }

  lemma HeldTag(m: map<nat, Msg>, w: Worker, lo: nat, t: nat)
    requires Holds(m, w, lo) && t in m
    ensures 0 <= t - lo < |All(w)| && !Nacked(w, t - lo) && m[t] == All(w)[t - lo].msg
  {
    assert All(w)[t - lo].tag == t;
  }

  /** A batch without a single click has been nacked delivery by delivery. */
  lemma NothingToInsert(c: Channel, w: Worker)
    requires InStep(c, w) && w.phase.Decoding? && w.phase.next == |w.batch| && Clicks(w.batch) == []
    ensures InStep(c, w.(batch := [], phase := Collecting))
  {
    var lo := c.next - |All(w)|;
    var left := Drain(c.unacked, c.wire);
    ClicksHold(w.batch);
    forall k: nat | k < |w.batch|
      ensures Nacked(w, k)
    {
      assert w.batch[k].msg.body.Malformed?;
    }
    forall t | t in left
      ensures t >= lo + |w.batch|
    {
      HeldTag(left, w, lo, t);
    }
    BatchForgotten(left, left, w, lo);
  }

  ghost predicate ClickAt(batch: seq<Delivery>, t: nat) {
    exists k :: 0 <= k < |batch| && batch[k].tag == t && batch[k].msg.body.Click?
  }

  /** What an ack of the whole batch covers: exactly the batch's clicks, all in the table; the buffer is
      above it. It names a tag the broker still holds if and only if the batch ends in a click. */
  ghost predicate Precise(s: State, ch: nat)
    requires ch in s.workers && ch in s.channels && s.workers[ch].batch != []
  {
    var w, left := s.workers[ch], Drain(s.channels[ch].unacked, s.channels[ch].wire);
    var last := w.batch[|w.batch| - 1];
    && (forall t: nat :: t in left && t <= last.tag <==> ClickAt(w.batch, t))
    && (forall t :: t in left && t <= last.tag ==> left[t] in s.table)
    && (forall k :: 0 <= k < |w.buffer| ==> w.buffer[k].tag > last.tag && w.buffer[k].tag in left)
    && (last.tag in left <==> last.msg.body.Click?)
  }

  lemma AckPrecision(s: State, ch: nat)
    requires Inv(s) && ch in s.workers && ch in s.channels
    requires s.workers[ch].phase.Inserted? && s.workers[ch].batch != []
    ensures Precise(s, ch)
  {
    var c, w := s.channels[ch], s.workers[ch];
    var left := Drain(c.unacked, c.wire);
    var last := w.batch[|w.batch| - 1];
    var lo := c.next - |All(w)|;
    assert Holds(left, w, lo);
    forall k | 0 <= k < |w.batch|
      ensures All(w)[k] == w.batch[k] && w.batch[k].tag == lo + k
      ensures Nacked(w, k) <==> w.batch[k].msg.body.Malformed?
    {
    }
    forall k | 0 <= k < |w.buffer|
      ensures w.buffer[k].tag > last.tag && w.buffer[k].tag in left
    {
      assert All(w)[|w.batch| + k] == w.buffer[k] && !Nacked(w, |w.batch| + k);
    }
    forall t | t in left && t <= last.tag
      ensures 0 <= t - lo < |w.batch| && w.batch[t - lo].tag == t
      ensures w.batch[t - lo].msg.body.Click? && left[t] == w.batch[t - lo].msg
    {
      HeldTag(left, w, lo, t);
    }
    forall t: nat
      ensures t in left && t <= last.tag <==> ClickAt(w.batch, t)
    {
      if t in left && t <= last.tag {
        assert w.batch[t - lo].tag == t;
      }
    }
  }

  lemma AckInStep(s: State, ch: nat)
    requires Inv(s) && ch in s.workers && ch in s.channels
    requires s.workers[ch].phase.Inserted? && s.workers[ch].batch != []
    ensures var c, w := s.channels[ch], s.workers[ch];
            var c' := c.(wire := c.wire + [AckUpTo(w.batch[|w.batch| - 1].tag)]);
            ChannelOk(c', s.table) && InStep(c', w.(batch := [], phase := Collecting))
  {
    var c, w := s.channels[ch], s.workers[ch];
    var last := w.batch[|w.batch| - 1].tag;
    var left := Drain(c.unacked, c.wire);
    AckPrecision(s, ch);
    WireAppend(c.unacked, c.wire, AckUpTo(last), s.table);
    var lo := c.next - |All(w)|;
    assert All(w)[|w.batch| - 1] == w.batch[|w.batch| - 1];
    assert last == lo + |w.batch| - 1;
    BatchForgotten(left, Settle(left, AckUpTo(last)), w, lo);
  }

  // ---------------------------------------------------------------- steps that move no message

  ghost predicate SamePlaces(s: State, s': State) {
    && s'.accepted == s.accepted && s'.ready == s.ready && s'.acked == s.acked && s'.dlq == s.dlq
    && s'.channels.Keys == s.channels.Keys
    && (forall ch :: ch in s.channels ==> s'.channels[ch].unacked == s.channels[ch].unacked)
  }

  /** Sending a frame touches one channel's wire and nothing else. */
  lemma SendKeeps(s: State, ch: nat, f: Frame)
    ensures SamePlaces(s, Send(s, ch, f))
    ensures Send(s, ch, f).table == s.table && Send(s, ch, f).workers == s.workers
    ensures forall c :: c in s.channels && c != ch ==> Send(s, ch, f).channels[c] == s.channels[c]
  {
  }

  lemma PlacesKept(s: State, s': State)
    requires NoneLost(s) && OnePlace(s) && SamePlaces(s, s')
    ensures NoneLost(s') && OnePlace(s')
  {
    forall m, ch, tag
      ensures OutAt(s', m, ch, tag) <==> OutAt(s, m, ch, tag)
    {
    }
    forall m | m in s'.accepted
      ensures m in s'.ready || m in s'.acked || m in s'.dlq || Outstanding(s', m)
    {
      if Outstanding(s, m) {
        var ch, tag :| OutAt(s, m, ch, tag);
        assert OutAt(s', m, ch, tag);
      }
    }
  }

  /** Replacing one worker and, on its wire only, one channel. */
  lemma OneWorker(s: State, s': State, ch: nat, w: Worker)
    requires Inv(s) && SamePlaces(s, s') && s'.table == s.table && s'.workers == s.workers[ch := w]
    requires forall c :: c in s.channels && c != ch ==> s'.channels[c] == s.channels[c]
    requires WorkerOk(s', w)
    requires ch in s'.channels ==> ChannelOk(s'.channels[ch], s'.table) && InStep(s'.channels[ch], w)
    ensures Inv(s')
  {
    PlacesKept(s, s');
  }

  lemma WorkerGone(s: State, s': State, ch: nat)
    requires Inv(s) && SamePlaces(s, s') && s'.table == s.table && s'.workers == s.workers - {ch}
    requires forall c :: c in s.channels && c != ch ==> s'.channels[c] == s.channels[c]
    requires ch in s'.channels ==> ChannelOk(s'.channels[ch], s'.table)
    ensures Inv(s')
  {
    PlacesKept(s, s');
  }

  /** The table only grows, and only by accepted clicks. */
  lemma TableGrows(s: State, events: seq<Msg>)
    requires Inv(s) && forall m :: m in events ==> m.body.Click? && m in s.accepted
    ensures Inv(s.(table := s.table + multiset(events)))
  {
    var s' := s.(table := s.table + multiset(events));
    PlacesKept(s, s');
    forall ch | ch in s.channels
      ensures ChannelOk(s.channels[ch], s'.table)
    {
      WireTable(s.channels[ch].unacked, s.channels[ch].wire, s.table, s'.table);
    }
    forall ch | ch in s.workers
      ensures WorkerOk(s', s.workers[ch])
    {
      assert WorkerOk(s, s.workers[ch]);
    }
  }

  lemma RegroupStep(batchSize: nat, s: State, step: Step)
    requires Inv(s) && Enabled(batchSize, s, step)
    requires step.Receive? || step.TickFlush? || step.Shutdown? || step.Leave?
    ensures Inv(Apply(batchSize, s, step))
  {
    var s' := Apply(batchSize, s, step);
    if step.ch in s'.workers {
      var w, w' := s.workers[step.ch], s'.workers[step.ch];
      assert WorkerOk(s, w);
      assert All(w') == All(w);
      if step.ch in s.channels {
        RegroupInStep(s.channels[step.ch], w, w');
      }
      OneWorker(s, s', step.ch, w');
    } else {
      WorkerGone(s, s', step.ch);
    }
  }

  lemma DecodeStep(batchSize: nat, s: State, step: Step)
    requires Inv(s) && Enabled(batchSize, s, step) && step.Decode?
    ensures Inv(Apply(batchSize, s, step))
  {
    var ch := step.ch;
    var s' := Apply(batchSize, s, step);
    var w, w' := s.workers[ch], s'.workers[ch];
    assert WorkerOk(s, w);
    assert All(w') == All(w);
    SendKeeps(s, ch, Nack(w.batch[w.phase.next].tag));
    if ch in s.channels {
      if w.batch[w.phase.next].msg.body.Malformed? {
        DecodeBadInStep(s.channels[ch], w, w', s.table);
      } else {
        DecodeClickInStep(s.channels[ch], w, w');
      }
    }
    OneWorker(s, s', ch, w');
  }

  lemma InsertStep(batchSize: nat, s: State, step: Step)
    requires Inv(s) && Enabled(batchSize, s, step) && step.Insert?
    ensures Inv(Apply(batchSize, s, step))
  {
    var ch := step.ch;
    var w := s.workers[ch];
    assert WorkerOk(s, w);
    var events := Clicks(w.batch);
    var s' := Apply(batchSize, s, step);
    if events == [] {
      if w.phase.closing {
        WorkerGone(s, s', ch);
      } else {
        EmptyFlush(s, ch);
        OneWorker(s, s', ch, s'.workers[ch]);
      }
    } else {
      ClicksHold(w.batch);
      forall m | m in events
        ensures m in s.accepted
      {
        var k :| 0 <= k < |w.batch| && w.batch[k].msg == m;
        assert All(w)[k] == w.batch[k];
      }
      TableGrows(s, events);
      var grown := s.(table := s.table + multiset(events));
      match step.result
      case InsertOk =>
        InsertedOk(s, ch);
        OneWorker(grown, s', ch, s'.workers[ch]);
      case InsertFailed(applied) =>
        WorkerGone(if applied then grown else s, s', ch);
    }
  }

  lemma EmptyFlush(s: State, ch: nat)
    requires WorkersOk(s) && ch in s.workers && s.workers[ch].phase.Decoding?
    requires s.workers[ch].phase.next == |s.workers[ch].batch| && Clicks(s.workers[ch].batch) == []
    ensures var w' := s.workers[ch].(batch := [], phase := Collecting);
            WorkerOk(s, w') && (ch in s.channels ==> InStep(s.channels[ch], w'))
  {
    var w := s.workers[ch];
    var w' := w.(batch := [], phase := Collecting);
    assert forall k :: 0 <= k < |w.buffer| ==> All(w')[k] == All(w)[|w.batch| + k];
    if ch in s.channels {
      NothingToInsert(s.channels[ch], w);
    }
  }

  lemma InsertedOk(s: State, ch: nat)
    requires WorkersOk(s) && ch in s.workers && s.workers[ch].phase.Decoding?
    requires s.workers[ch].phase.next == |s.workers[ch].batch|
    ensures var w' := s.workers[ch].(phase := Inserted(s.workers[ch].phase.closing));
            && WorkerOk(s.(table := s.table + multiset(Clicks(s.workers[ch].batch))), w')
            && (ch in s.channels ==> InStep(s.channels[ch], w'))
  {
    var w := s.workers[ch];
    var w' := w.(phase := Inserted(w.phase.closing));
    assert WorkerOk(s, w);
    ClicksHold(w.batch);
    assert All(w') == All(w);
    if ch in s.channels {
      InsertInStep(s.channels[ch], w, w');
    }
  }

  lemma SendAckStep(batchSize: nat, s: State, step: Step)
    requires Inv(s) && Enabled(batchSize, s, step) && step.SendAck?
    ensures Inv(Apply(batchSize, s, step))
  {
    var ch := step.ch;
    var w := s.workers[ch];
    var s' := Apply(batchSize, s, step);
    SendKeeps(s, ch, AckUpTo(w.batch[|w.batch| - 1].tag));
    if ch in s.channels {
      AckInStep(s, ch);
    }
    if w.phase.closing {
      WorkerGone(s, s', ch);
    } else {
      var w' := w.(batch := [], phase := Collecting);
      BatchDone(s, w);
      assert WorkerOk(s', w');
      OneWorker(s, s', ch, w');
    }
  }

  lemma BatchDone(s: State, w: Worker)
    requires WorkerOk(s, w)
    ensures WorkerOk(s, w.(batch := [], phase := Collecting))
  {
    var w' := w.(batch := [], phase := Collecting);
    assert forall k :: 0 <= k < |w.buffer| ==> All(w')[k] == All(w)[|w.batch| + k];
  }

  // ---------------------------------------------------------------- steps that move messages

  lemma PublishStep(batchSize: nat, s: State, step: Step)
    requires Inv(s) && Enabled(batchSize, s, step) && step.Publish?
    ensures Inv(Apply(batchSize, s, step))
  {
    var s' := Apply(batchSize, s, step);
    SameOutstanding(s, s');
    forall ch | ch in s.workers
      ensures WorkerOk(s', s.workers[ch])
    {
      assert WorkerOk(s, s.workers[ch]);
    }
  }

  lemma SameOutstanding(s: State, s': State)
    requires s'.channels == s.channels
    ensures forall m, ch, tag :: OutAt(s', m, ch, tag) <==> OutAt(s, m, ch, tag)
    ensures forall m :: Outstanding(s', m) <==> Outstanding(s, m)
  {
    forall m
      ensures Outstanding(s', m) <==> Outstanding(s, m)
    {
      if Outstanding(s, m) {
        var ch, tag :| OutAt(s, m, ch, tag);
        assert OutAt(s', m, ch, tag);
      }
      if Outstanding(s', m) {
        var ch, tag :| OutAt(s', m, ch, tag);
        assert OutAt(s, m, ch, tag);
      }
    }
  }

  /** A new channel holds nothing. */
  lemma OpenPlaces(batchSize: nat, s: State, step: Step)
    requires NoneLost(s) && OnePlace(s) && Enabled(batchSize, s, step) && step.Open?
    ensures NoneLost(Apply(batchSize, s, step)) && OnePlace(Apply(batchSize, s, step))
  {
    var s' := Apply(batchSize, s, step);
    forall m, ch, tag
      ensures OutAt(s', m, ch, tag) <==> OutAt(s, m, ch, tag)
    {
    }
    forall m | Outstanding(s, m)
      ensures Outstanding(s', m)
    {
      var ch, tag :| OutAt(s, m, ch, tag);
      assert OutAt(s', m, ch, tag);
    }
  }

  lemma OpenStep(batchSize: nat, s: State, step: Step)
    requires Inv(s) && Enabled(batchSize, s, step) && step.Open?
    ensures Inv(Apply(batchSize, s, step))
  {
    var s' := Apply(batchSize, s, step);
    OpenPlaces(batchSize, s, step);
    forall ch | ch in s.workers
      ensures WorkerOk(s', s.workers[ch])
    {
      assert WorkerOk(s, s.workers[ch]);
    }
  }

  /** Delivering moves one message from the queue to one tag. */
  lemma DeliverPlaces(batchSize: nat, s: State, step: Step)
    requires NoneLost(s) && OnePlace(s) && ChannelsOk(s) && Enabled(batchSize, s, step) && step.Deliver?
    ensures NoneLost(Apply(batchSize, s, step)) && OnePlace(Apply(batchSize, s, step))
  {
    var s' := Apply(batchSize, s, step);
    var next := s.channels[step.ch].next;
    assert ChannelOk(s.channels[step.ch], s.table);
    forall m, ch, tag
      ensures OutAt(s', m, ch, tag) <==> OutAt(s, m, ch, tag) || (m == step.msg && ch == step.ch && tag == next)
    {
    }
    forall m | m in s'.accepted
      ensures m in s'.ready || m in s'.acked || m in s'.dlq || Outstanding(s', m)
    {
      if m == step.msg {
        assert OutAt(s', m, step.ch, next);
      } else if Outstanding(s, m) {
        var ch, tag :| OutAt(s, m, ch, tag);
        assert OutAt(s', m, ch, tag);
      }
    }
  }

  lemma DeliverChannels(batchSize: nat, s: State, step: Step)
    requires Rightful(s) && ChannelsOk(s) && Enabled(batchSize, s, step) && step.Deliver?
    ensures Rightful(Apply(batchSize, s, step)) && ChannelsOk(Apply(batchSize, s, step))
  {
    var c := s.channels[step.ch];
    assert ChannelOk(c, s.table);
    WireDeliver(c.unacked, c.wire, s.table, c.next, step.msg);
    var s' := Apply(batchSize, s, step);
    assert ChannelOk(s'.channels[step.ch], s'.table);
    forall ch | ch in s'.channels && ch != step.ch
      ensures ChannelOk(s'.channels[ch], s'.table)
    {
      assert ChannelOk(s.channels[ch], s.table);
    }
  }

  lemma OneMoreOk(s: State, s': State, w: Worker, d: Delivery)
    requires WorkerOk(s, w) && d.msg in s.accepted && s'.accepted == s.accepted && s'.table == s.table
    ensures WorkerOk(s', w.(buffer := w.buffer + [d]))
  {
    assert All(w.(buffer := w.buffer + [d])) == All(w) + [d];
  }

  lemma DeliverWorkers(batchSize: nat, s: State, step: Step)
    requires Inv(s) && Enabled(batchSize, s, step) && step.Deliver?
    ensures WorkersOk(Apply(batchSize, s, step))
  {
    var s' := Apply(batchSize, s, step);
    var c := s.channels[step.ch];
    assert ChannelOk(c, s.table);
    if step.ch in s.workers {
      var w := s.workers[step.ch];
      assert WorkerOk(s, w);
      DeliverInStep(c, w, s.table, step.msg);
      OneMoreOk(s, s', w, Delivery(c.next, step.msg));
    }
    forall ch | ch in s.workers && ch != step.ch
      ensures WorkerOk(s', s.workers[ch])
    {
      assert WorkerOk(s, s.workers[ch]);
    }
  }

  lemma DeliverStep(batchSize: nat, s: State, step: Step)
    requires Inv(s) && Enabled(batchSize, s, step) && step.Deliver?
    ensures Inv(Apply(batchSize, s, step))
  {
    DeliverPlaces(batchSize, s, step);
    DeliverChannels(batchSize, s, step);
    DeliverWorkers(batchSize, s, step);
  }

  lemma RequeuePlaces(s: State, ch: nat)
    requires NoneLost(s) && OnePlace(s) && ch in s.channels
    ensures NoneLost(Requeue(s, ch)) && OnePlace(Requeue(s, ch))
  {
    var s' := Requeue(s, ch);
    forall m, d, tag
      ensures OutAt(s', m, d, tag) <==> OutAt(s, m, d, tag) && d != ch
    {
    }
    forall m | m in Values(s.channels[ch].unacked)
      ensures exists tag :: OutAt(s, m, ch, tag)
    {
      var t :| t in s.channels[ch].unacked && s.channels[ch].unacked[t] == m;
      assert OutAt(s, m, ch, t);
    }
    forall m | m in s'.accepted
      ensures m in s'.ready || m in s'.acked || m in s'.dlq || Outstanding(s', m)
    {
      if Outstanding(s, m) {
        var d, tag :| OutAt(s, m, d, tag);
        if d != ch {
          assert OutAt(s', m, d, tag);
        }
      }
    }
  }

  lemma RequeueStep(s: State, ch: nat)
    requires Inv(s) && ch in s.channels
    ensures Inv(Requeue(s, ch))
  {
    RequeuePlaces(s, ch);
    forall d | d in s.workers
      ensures WorkerOk(Requeue(s, ch), s.workers[d])
    {
      assert WorkerOk(s, s.workers[d]);
    }
  }

  /** The broker takes the deliveries with the tags `gone` off one channel and files them under `to`. */
  lemma Filed(s: State, s': State, ch: nat, gone: set<nat>)
    requires NoneLost(s) && OnePlace(s) && ch in s.channels && ch in s'.channels
    requires s'.accepted == s.accepted && s'.ready == s.ready
    requires s'.channels == s.channels[ch := s'.channels[ch]]
    requires s'.channels[ch].unacked == s.channels[ch].unacked - gone
    requires var moved := set t | t in s.channels[ch].unacked && t in gone :: s.channels[ch].unacked[t];
             (s'.acked == s.acked + moved && s'.dlq == s.dlq) || (s'.dlq == s.dlq + moved && s'.acked == s.acked)
    ensures NoneLost(s') && OnePlace(s')
  {
    var moved := set t | t in s.channels[ch].unacked && t in gone :: s.channels[ch].unacked[t];
    forall m, d, tag
      ensures OutAt(s', m, d, tag) <==> OutAt(s, m, d, tag) && !(d == ch && tag in gone)
    {
    }
    forall m | m in moved
      ensures exists tag :: OutAt(s, m, ch, tag) && tag in gone
    {
      var t :| t in s.channels[ch].unacked && t in gone && s.channels[ch].unacked[t] == m;
      assert OutAt(s, m, ch, t);
    }
    forall m | m in s'.accepted
      ensures m in s'.ready || m in s'.acked || m in s'.dlq || Outstanding(s', m)
    {
      if Outstanding(s, m) {
        var d, tag :| OutAt(s, m, d, tag);
        if d == ch && tag in gone {
          assert m in moved;
        } else {
          assert OutAt(s', m, d, tag);
        }
      }
    }
  }

  lemma BrokerNackStep(s: State, ch: nat)
    requires Inv(s) && ch in s.channels && s.channels[ch].wire != [] && s.channels[ch].wire[0].Nack?
    requires s.channels[ch].wire[0].tag in s.channels[ch].unacked
    ensures Inv(BrokerStep(s, ch, false))
  {
    var c, tag := s.channels[ch], s.channels[ch].wire[0].tag;
    var s' := BrokerStep(s, ch, false);
    assert ChannelOk(c, s.table);
    var moved := set t | t in c.unacked && t in {tag} :: c.unacked[t];
    assert moved == {c.unacked[tag]} by {
      assert tag in c.unacked && tag in {tag};
    }
    Filed(s, s', ch, {tag});
    BrokerWorkers(s, s', ch);
  }

  lemma BrokerAckStep(s: State, ch: nat, tolerant: bool)
    requires Inv(s) && ch in s.channels && s.channels[ch].wire != [] && s.channels[ch].wire[0].AckUpTo?
    requires s.channels[ch].wire[0].tag in s.channels[ch].unacked || tolerant
    ensures Inv(BrokerStep(s, ch, tolerant))
  {
    var c, tag := s.channels[ch], s.channels[ch].wire[0].tag;
    var s' := BrokerStep(s, ch, tolerant);
    assert ChannelOk(c, s.table);
    var gone := set t | t in c.unacked && t <= tag;
    assert Covered(c.unacked, tag) == set t | t in c.unacked && t in gone :: c.unacked[t];
    assert Settle(c.unacked, c.wire[0]) == c.unacked - gone;
    Filed(s, s', ch, gone);
    AckedAreRows(s, ch);
    BrokerWorkers(s, s', ch);
  }

  /** What an ack settles is in the table. */
  lemma AckedAreRows(s: State, ch: nat)
    requires ChannelsOk(s) && ch in s.channels && s.channels[ch].wire != [] && s.channels[ch].wire[0].AckUpTo?
    ensures forall m :: m in Covered(s.channels[ch].unacked, s.channels[ch].wire[0].tag) ==> m in s.table
  {
    assert ChannelOk(s.channels[ch], s.table);
  }

  /** Taking a frame off the wire changes nothing for the workers: the drained view is the same. */
  lemma BrokerWorkers(s: State, s': State, ch: nat)
    requires WorkersOk(s) && ch in s.channels && s.channels[ch].wire != []
    requires s'.accepted == s.accepted && s'.table == s.table && s'.workers == s.workers
    requires var c := s.channels[ch];
             s'.channels == s.channels[ch := Channel(c.next, Settle(c.unacked, c.wire[0]), c.wire[1..])]
    ensures WorkersOk(s')
  {
    forall d | d in s.workers
      ensures WorkerOk(s', s.workers[d])
    {
      assert WorkerOk(s, s.workers[d]);
    }
  }

  lemma BrokerFrameStep(s: State, ch: nat, tolerant: bool)
    requires Inv(s) && ch in s.channels && s.channels[ch].wire != []
    ensures Inv(BrokerStep(s, ch, tolerant))
  {
    var c := s.channels[ch];
    if c.wire[0].tag !in c.unacked && !(c.wire[0].AckUpTo? && tolerant) {
      RequeueStep(s, ch);
    } else if c.wire[0].Nack? {
      BrokerNackStep(s, ch);
    } else {
      BrokerAckStep(s, ch, tolerant);
    }
  }

  // ---------------------------------------------------------------- whole runs

  lemma StepKeepsInv(batchSize: nat, s: State, step: Step)
    requires Inv(s) && Enabled(batchSize, s, step)
    ensures Inv(Apply(batchSize, s, step))
  {
    match step
    case Publish(_) => PublishStep(batchSize, s, step);
    case Open(_) => OpenStep(batchSize, s, step);
    case Deliver(_, _) => DeliverStep(batchSize, s, step);
    case Decode(_) => DecodeStep(batchSize, s, step);
    case Insert(_, _) => InsertStep(batchSize, s, step);
    case SendAck(_) => SendAckStep(batchSize, s, step);
    case Broker(ch, tolerant) => BrokerFrameStep(s, ch, tolerant);
    case Drop(ch) => RequeueStep(s, ch);
    case _ => RegroupStep(batchSize, s, step);
  }

  lemma {:induction false} RunKeepsInv(batchSize: nat, states: seq<State>, steps: seq<Step>, i: nat)
    requires Run(batchSize, states, steps) && i < |states|
    ensures Inv(states[i])
  {
    if i > 0 {
      RunKeepsInv(batchSize, states, steps, i - 1);
      StepKeepsInv(batchSize, states[i - 1], steps[i - 1]);
    }
  }

  /** At least once: in every state of every run, an accepted message is ready, or outstanding under
      exactly one tag of one channel, or in the analytics table, or dead-lettered. */
  lemma NoMessageIsLost(batchSize: nat, states: seq<State>, steps: seq<Step>, i: nat, m: Msg)
    requires Run(batchSize, states, steps) && i < |states| && m in states[i].accepted
    ensures m in states[i].ready || m in states[i].table || m in states[i].dlq || Outstanding(states[i], m)
    ensures forall ch, tag, ch', tag' ::
              OutAt(states[i], m, ch, tag) && OutAt(states[i], m, ch', tag') ==> ch == ch' && tag == tag'
    ensures Outstanding(states[i], m) ==> m !in states[i].ready && m !in states[i].acked && m !in states[i].dlq
    ensures m in states[i].table ==> m.body.Click?
    ensures m in states[i].dlq ==> m.body.Malformed?
  {
    RunKeepsInv(batchSize, states, steps, i);
  }

  /** Ack precision in every run: when a worker is about to ack its flush, what the broker will still hold
      at or below the acked tag is exactly the batch's clicks, all of them inserted. */
  lemma EveryAckIsPrecise(batchSize: nat, states: seq<State>, steps: seq<Step>, i: nat, ch: nat)
    requires Run(batchSize, states, steps) && i < |steps| && steps[i] == SendAck(ch) && ch in states[i].channels
    ensures Precise(states[i], ch)
  {
    RunKeepsInv(batchSize, states, steps, i);
    AckPrecision(states[i], ch);
  }
}
