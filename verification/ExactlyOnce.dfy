/**
 How often a click is inserted: in every run as often as an insert of a batch that holds it took effect, and
 exactly once in a run in which nothing fails.
 */
module ExactlyOnce {
  import opened AnalyticsQueue
  import opened NoLoss
  import opened Arithmetic

  // ---------------------------------------------------------------- no click twice in one worker

  /** No click is delivered twice in `ds`. */
  predicate Distinct(ds: seq<Delivery>) {
    forall k, l :: 0 <= k < l < |ds| && ds[k].msg.body.Click? ==> ds[k].msg != ds[l].msg
  }

  lemma {:induction false} DrainWithin(unacked: map<nat, Msg>, wire: seq<Frame>, t: nat)
    requires t in Drain(unacked, wire)
    ensures t in unacked && unacked[t] == Drain(unacked, wire)[t]
    decreases |wire|
  {
    if wire != [] {
      DrainWithin(Settle(unacked, wire[0]), wire[1..], t);
    }
  }

  /** A click that a worker holds is outstanding under its tag. */
  lemma HeldIsOut(s: State, ch: nat, k: nat)
    requires Inv(s) && ch in s.workers && ch in s.channels
    requires k < |All(s.workers[ch])| && All(s.workers[ch])[k].msg.body.Click?
    ensures OutAt(s, All(s.workers[ch])[k].msg, ch, All(s.workers[ch])[k].tag)
    ensures All(s.workers[ch])[k].tag == s.channels[ch].next - |All(s.workers[ch])| + k
  {
    var w, c := s.workers[ch], s.channels[ch];
    assert InStep(c, w);
    if k < |w.batch| {
      assert All(w)[k] == w.batch[k];
    }
    assert !Nacked(w, k);
    DrainWithin(c.unacked, c.wire, All(w)[k].tag);
  }

  lemma HeldDistinct(s: State, ch: nat)
    requires Inv(s) && ch in s.workers && ch in s.channels
    ensures Distinct(All(s.workers[ch]))
  {
    var w := s.workers[ch];
    forall k, l | 0 <= k < l < |All(w)| && All(w)[k].msg.body.Click?
      ensures All(w)[k].msg != All(w)[l].msg
    {
      if All(w)[k].msg == All(w)[l].msg {
        HeldIsOut(s, ch, k);
        HeldIsOut(s, ch, l);
      }
    }
  }

  ghost predicate AllDistinct(s: State) {
    forall ch :: ch in s.workers ==> Distinct(All(s.workers[ch]))
  }

  /** A worker that has lost its channel receives nothing any more. */
  lemma CutOff(batchSize: nat, s: State, step: Step, ch: nat)
    requires Enabled(batchSize, s, step)
    requires ch in Apply(batchSize, s, step).workers && ch !in Apply(batchSize, s, step).channels
    ensures ch in s.workers
    ensures var w' := Apply(batchSize, s, step).workers[ch];
            All(w') == All(s.workers[ch]) || All(w') == s.workers[ch].buffer
  {
    if (step.Receive? || step.TickFlush? || step.Shutdown? || step.Decode?) && step.ch == ch {
      Moved(batchSize, s, step);
    } else if (step.SendAck? || step.Insert?) && step.ch == ch {
      BatchGone(s.workers[ch]);
    }
  }

  lemma BatchGone(w: Worker)
    ensures All(w.(batch := [], phase := Collecting)) == w.buffer
  {
  }

  lemma DistinctStep(batchSize: nat, s: State, step: Step)
    requires Inv(s) && AllDistinct(s) && Enabled(batchSize, s, step)
    ensures AllDistinct(Apply(batchSize, s, step))
  {
    var s' := Apply(batchSize, s, step);
    StepKeepsInv(batchSize, s, step);
    forall ch | ch in s'.workers
      ensures Distinct(All(s'.workers[ch]))
    {
      if ch in s'.channels {
        HeldDistinct(s', ch);
      } else {
        CutOff(batchSize, s, step, ch);
        SuffixDistinct(s.workers[ch]);
      }
    }
  }

  lemma SuffixDistinct(w: Worker)
    requires Distinct(All(w))
    ensures Distinct(w.batch) && Distinct(w.buffer)
  {
    forall k, l | 0 <= k < l < |w.batch| && w.batch[k].msg.body.Click?
      ensures w.batch[k].msg != w.batch[l].msg
    {
      assert All(w)[k] == w.batch[k] && All(w)[l] == w.batch[l];
    }
    forall k, l | 0 <= k < l < |w.buffer| && w.buffer[k].msg.body.Click?
      ensures w.buffer[k].msg != w.buffer[l].msg
    {
      var n := |w.batch|;
      assert All(w)[n + k] == w.buffer[k] && All(w)[n + l] == w.buffer[l];
    }
  }

  // ---------------------------------------------------------------- the table counts the inserts

  predicate Carries(batch: seq<Delivery>, m: Msg) {
    exists k :: 0 <= k < |batch| && batch[k].msg == m
  }

  /** The rows of a batch hold each of its clicks once. */
  lemma {:induction false} RowsOnce(batch: seq<Delivery>, m: Msg)
    requires Distinct(batch)
    ensures multiset(Clicks(batch))[m] == if m.body.Click? && Carries(batch, m) then 1 else 0
    decreases |batch|
  {
    if batch != [] {
      var n := |batch| - 1;
      var init, last := batch[..n], batch[n].msg;
      RowsOnce(init, m);
      CarriesNext(batch, m);
      if m == last && m.body.Click? {
        LastIsNew(batch);
      }
    }
  }

  lemma LastIsNew(batch: seq<Delivery>)
    requires batch != [] && Distinct(batch) && batch[|batch| - 1].msg.body.Click?
    ensures !Carries(batch[..|batch| - 1], batch[|batch| - 1].msg)
  {
    var n := |batch| - 1;
    forall k | 0 <= k < n
      ensures batch[..n][k].msg != batch[n].msg
    {
      assert batch[..n][k] == batch[k];
    }
  }

  lemma CarriesNext(batch: seq<Delivery>, m: Msg)
    requires batch != []
    ensures Carries(batch, m) <==> Carries(batch[..|batch| - 1], m) || batch[|batch| - 1].msg == m
  {
    if k :| 0 <= k < |batch| && batch[k].msg == m {
      assert k < |batch| - 1 ==> batch[..|batch| - 1][k].msg == m;
    }
    if Carries(batch[..|batch| - 1], m) {
      var k :| 0 <= k < |batch| - 1 && batch[..|batch| - 1][k].msg == m;
      assert batch[k].msg == m;
    }
  }

  /** This step inserts a batch that holds the click `m`, and the insert takes effect. */
  predicate Inserts(batchSize: nat, s: State, step: Step, m: Msg)
    requires Enabled(batchSize, s, step)
  {
    step.Insert? && step.result != InsertFailed(false) && m.body.Click? && Carries(s.workers[step.ch].batch, m)
  }

  lemma TableStep(batchSize: nat, s: State, step: Step, m: Msg)
    requires AllDistinct(s) && Enabled(batchSize, s, step)
    ensures Apply(batchSize, s, step).table[m] == s.table[m] + if Inserts(batchSize, s, step, m) then 1 else 0
  {
    if step.Insert? {
      var w := s.workers[step.ch];
      SuffixDistinct(w);
      RowsOnce(w.batch, m);
    }
  }

  /** How many of the first `n` steps did so. */
  function CountInserts(batchSize: nat, states: seq<State>, steps: seq<Step>, m: Msg, n: nat): nat
    requires n <= |steps| <= |states| && forall i :: 0 <= i < n ==> Enabled(batchSize, states[i], steps[i])
  {
    if n == 0 then 0
    else CountInserts(batchSize, states, steps, m, n - 1)
         + if Inserts(batchSize, states[n - 1], steps[n - 1], m) then 1 else 0
  }

  /** In every run the table holds a click exactly as often as an insert of a batch that holds it took effect:
      whatever is lost, repeated or redelivered, a batch never inserts a click twice. */
  lemma {:induction false} TableCountsInserts(batchSize: nat, states: seq<State>, steps: seq<Step>, m: Msg, n: nat)
    requires Run(batchSize, states, steps) && n <= |steps|
    ensures AllDistinct(states[n])
    ensures states[n].table[m] == CountInserts(batchSize, states, steps, m, n)
  {
    if n > 0 {
      TableCountsInserts(batchSize, states, steps, m, n - 1);
      RunKeepsInv(batchSize, states, steps, n - 1);
      DistinctStep(batchSize, states[n - 1], steps[n - 1]);
      TableStep(batchSize, states[n - 1], steps[n - 1], m);
    }
  }

  // ---------------------------------------------------------------- exactly once when nothing fails

  /** No insert fails, no connection drops, no worker exits but by shutdown, and the broker holds, or
      tolerates, every tag it is sent. */
  predicate Undisturbed(batchSize: nat, s: State, step: Step)
    requires Enabled(batchSize, s, step)
  {
    match step
    case Drop(_) => false
    case Leave(_) => false
    case Insert(_, result) => result == InsertOk
    case Broker(ch, tolerant) =>
      s.channels[ch].wire[0].tag in s.channels[ch].unacked || (s.channels[ch].wire[0].AckUpTo? && tolerant)
    case _ => true
  }

  /** Nothing in the table is still on its way to it. */
  ghost predicate Settled(s: State) {
    && (forall ch :: ch in s.workers ==> ch in s.channels)
    && (forall m :: m in s.table ==> s.table[m] == 1 && m !in s.ready)
    && (forall ch :: ch in s.workers ==> WorkerSettled(s.workers[ch], s.table))
  }

  ghost predicate WorkerSettled(w: Worker, table: multiset<Msg>) {
    forall k :: 0 <= k < |All(w)| && All(w)[k].msg in table ==> w.phase.Inserted? && k < |w.batch|
  }

  /** A step that leaves queue, table and channels' owners alone. */
  lemma SameTable(s: State, s': State, ch: nat)
    requires Settled(s) && s'.table == s.table && s'.channels.Keys >= s.channels.Keys
    requires forall m :: m in s'.ready ==> m in s.ready || m !in s.table
    requires ch in s'.workers ==> ch in s'.channels && WorkerSettled(s'.workers[ch], s.table)
    requires forall d :: d in s'.workers && d != ch ==> d in s.workers && s'.workers[d] == s.workers[d]
    ensures Settled(s')
  {
  }

  lemma OneMoreSettled(w: Worker, table: multiset<Msg>, d: Delivery)
    requires WorkerSettled(w, table) && d.msg !in table
    ensures WorkerSettled(w.(buffer := w.buffer + [d]), table)
  {
    assert All(w.(buffer := w.buffer + [d])) == All(w) + [d];
  }

  lemma DeliverSettled(batchSize: nat, s: State, step: Step)
    requires Settled(s) && Enabled(batchSize, s, step) && step.Deliver?
    ensures Settled(Apply(batchSize, s, step))
  {
    if step.ch in s.workers {
      OneMoreSettled(s.workers[step.ch], s.table, Delivery(s.channels[step.ch].next, step.msg));
    }
    SameTable(s, Apply(batchSize, s, step), step.ch);
  }

  /** A worker's own moves between inserts. */
  lemma MoveSettled(batchSize: nat, s: State, step: Step)
    requires Settled(s) && Enabled(batchSize, s, step)
    requires step.Receive? || step.TickFlush? || step.Shutdown? || step.Decode?
    ensures Settled(Apply(batchSize, s, step))
  {
    var s' := Apply(batchSize, s, step);
    if step.ch in s'.workers {
      Moved(batchSize, s, step);
    }
    SameTable(s, s', step.ch);
  }

  lemma Moved(batchSize: nat, s: State, step: Step)
    requires Enabled(batchSize, s, step) && (step.Receive? || step.TickFlush? || step.Shutdown? || step.Decode?)
    requires step.ch in Apply(batchSize, s, step).workers
    ensures !s.workers[step.ch].phase.Inserted?
    ensures All(Apply(batchSize, s, step).workers[step.ch]) == All(s.workers[step.ch])
  {
    if step.Receive? {
      var w := s.workers[step.ch];
      assert w.batch + [w.buffer[0]] + w.buffer[1..] == w.batch + w.buffer;
    }
  }

  lemma OpenSettled(batchSize: nat, s: State, step: Step)
    requires Settled(s) && Enabled(batchSize, s, step) && step.Open?
    ensures Settled(Apply(batchSize, s, step))
  {
    var s' := Apply(batchSize, s, step);
    assert All(s'.workers[step.ch]) == [];
    SameTable(s, s', step.ch);
  }

  lemma IdleFlushSettled(batchSize: nat, s: State, step: Step)
    requires Settled(s) && Enabled(batchSize, s, step) && step.Insert? && Clicks(s.workers[step.ch].batch) == []
    ensures Settled(Apply(batchSize, s, step))
  {
    BufferSettled(s.workers[step.ch], s.table);
    SameTable(s, Apply(batchSize, s, step), step.ch);
  }

  lemma AckSettled(batchSize: nat, s: State, step: Step)
    requires Inv(s) && Settled(s) && Enabled(batchSize, s, step) && step.SendAck?
    ensures Settled(Apply(batchSize, s, step))
  {
    var s' := Apply(batchSize, s, step);
    var w := s.workers[step.ch];
    BufferSettled(w, s.table);
    SameTable(s, s', step.ch);
  }

  lemma BufferSettled(w: Worker, table: multiset<Msg>)
    requires WorkerSettled(w, table)
    ensures WorkerSettled(w.(batch := [], phase := Collecting), table)
  {
    var w' := w.(batch := [], phase := Collecting);
    assert forall k :: 0 <= k < |w.buffer| ==> All(w')[k] == All(w)[|w.batch| + k];
  }

  lemma BrokerSettled(batchSize: nat, s: State, step: Step)
    requires Inv(s) && Settled(s) && Enabled(batchSize, s, step) && step.Broker? && Undisturbed(batchSize, s, step)
    ensures Settled(Apply(batchSize, s, step))
  {
    var s' := Apply(batchSize, s, step);
    assert s'.ready == s.ready && s'.table == s.table && s'.workers == s.workers;
    assert s'.channels.Keys == s.channels.Keys;
  }

  /** What a batch inserts was not in the table, is not in the queue, and no other worker holds it. */
  lemma InsertIsFirst(s: State, ch: nat, m: Msg)
    requires Inv(s) && Settled(s) && ch in s.workers && s.workers[ch].phase.Decoding?
    requires m.body.Click? && Carries(s.workers[ch].batch, m)
    ensures m !in s.table && m !in s.ready
    ensures forall d, k :: d in s.workers && 0 <= k < |All(s.workers[d])| && All(s.workers[d])[k].msg == m ==>
              d == ch && k < |s.workers[ch].batch|
  {
    var w := s.workers[ch];
    var j :| 0 <= j < |w.batch| && w.batch[j].msg == m;
    assert All(w)[j] == w.batch[j] && WorkerSettled(w, s.table);
    HeldIsOut(s, ch, j);
    forall d, k | d in s.workers && 0 <= k < |All(s.workers[d])| && All(s.workers[d])[k].msg == m
      ensures d == ch && k < |w.batch|
    {
      HeldIsOut(s, d, k);
    }
  }

  lemma InsertSettled(batchSize: nat, s: State, step: Step)
    requires Inv(s) && Settled(s) && AllDistinct(s) && Enabled(batchSize, s, step)
    requires step.Insert? && step.result == InsertOk && Clicks(s.workers[step.ch].batch) != []
    ensures Settled(Apply(batchSize, s, step))
  {
    var s' := Apply(batchSize, s, step);
    var ch := step.ch;
    forall m | m in s'.table
      ensures s'.table[m] == 1 && m !in s'.ready
    {
      InsertAdds(batchSize, s, step, m);
    }
    forall d | d in s'.workers
      ensures WorkerSettled(s'.workers[d], s'.table)
    {
      var w, w' := s.workers[d], s'.workers[d];
      assert All(w') == All(w) && w'.batch == w.batch;
      assert WorkerSettled(w, s.table);
      forall k | 0 <= k < |All(w')| && All(w')[k].msg in s'.table
        ensures w'.phase.Inserted? && k < |w'.batch|
      {
        InsertAdds(batchSize, s, step, All(w')[k].msg);
      }
    }
  }

  /** A row of the new table was there before, or comes from this batch for the first time. */
  lemma InsertAdds(batchSize: nat, s: State, step: Step, m: Msg)
    requires Inv(s) && Settled(s) && AllDistinct(s) && Enabled(batchSize, s, step)
    requires step.Insert? && step.result == InsertOk && m in Apply(batchSize, s, step).table
    ensures Apply(batchSize, s, step).table[m] == 1 && m !in s.ready
    ensures m in s.table ||
              forall d, k :: d in s.workers && 0 <= k < |All(s.workers[d])| && All(s.workers[d])[k].msg == m ==>
                d == step.ch && k < |s.workers[step.ch].batch|
  {
    TableStep(batchSize, s, step, m);
    if Inserts(batchSize, s, step, m) {
      InsertIsFirst(s, step.ch, m);
    }
  }

  lemma SettledStep(batchSize: nat, s: State, step: Step)
    requires Inv(s) && Settled(s) && AllDistinct(s) && Enabled(batchSize, s, step) && Undisturbed(batchSize, s, step)
    ensures Settled(Apply(batchSize, s, step))
  {
    match step
    case Publish(_) =>
    case Open(_) => OpenSettled(batchSize, s, step);
    case Deliver(_, _) => DeliverSettled(batchSize, s, step);
    case Insert(ch, _) =>
      if Clicks(s.workers[ch].batch) != [] {
        InsertSettled(batchSize, s, step);
      } else {
        IdleFlushSettled(batchSize, s, step);
      }
    case SendAck(_) => AckSettled(batchSize, s, step);
    case Broker(_, _) => BrokerSettled(batchSize, s, step);
    case _ => MoveSettled(batchSize, s, step);
  }

  /** Exactly once: in every undisturbed run no click is in the table twice, and every message that has been
      acked is there once. */
  lemma {:induction false} ExactlyOnce(batchSize: nat, states: seq<State>, steps: seq<Step>, n: nat)
    requires Run(batchSize, states, steps) && n <= |steps|
    requires forall i :: 0 <= i < n ==> Undisturbed(batchSize, states[i], steps[i])
    ensures Settled(states[n]) && AllDistinct(states[n])
    ensures forall m :: m in states[n].table ==> states[n].table[m] == 1
    ensures forall m :: m in states[n].acked ==> states[n].table[m] == 1
  {
    RunKeepsInv(batchSize, states, steps, n);
    if n > 0 {
      ExactlyOnce(batchSize, states, steps, n - 1);
      RunKeepsInv(batchSize, states, steps, n - 1);
      DistinctStep(batchSize, states[n - 1], steps[n - 1]);
      SettledStep(batchSize, states[n - 1], steps[n - 1]);
    }
  }

  // ---------------------------------------------------------------- the prefetch window

  /** No channel ever has more than twice the batch size outstanding. */
  lemma {:induction false} PrefetchBound(batchSize: nat, states: seq<State>, steps: seq<Step>, n: nat, ch: nat)
    requires Run(batchSize, states, steps) && n <= |steps| && batchSize > 0
    ensures ch in states[n].channels ==> |states[n].channels[ch].unacked| <= 2 * batchSize
  {
    if n > 0 {
      PrefetchBound(batchSize, states, steps, n - 1, ch);
      WindowStep(batchSize, states[n - 1], steps[n - 1], ch);
    }
  }

  lemma WindowStep(batchSize: nat, s: State, step: Step, ch: nat)
    requires Enabled(batchSize, s, step) && batchSize > 0
    requires ch in s.channels ==> |s.channels[ch].unacked| <= 2 * batchSize
    ensures var s' := Apply(batchSize, s, step);
            ch in s'.channels ==> |s'.channels[ch].unacked| <= 2 * batchSize
  {
    if step.Broker? && step.ch == ch {
      SettleShrinks(s.channels[ch].unacked, s.channels[ch].wire[0]);
    } else if step.Deliver? && step.ch == ch {
      DeliverGrows(s.channels[ch].unacked, s.channels[ch].next, step.msg);
    }
  }

  lemma SettleShrinks(unacked: map<nat, Msg>, f: Frame)
    ensures |Settle(unacked, f)| <= |unacked|
  {
    var after := Settle(unacked, f);
    assert after.Keys <= unacked.Keys;
    SubsetSize(after.Keys, unacked.Keys);
    assert |after| == |after.Keys| && |unacked| == |unacked.Keys|;
  }

  lemma DeliverGrows(unacked: map<nat, Msg>, tag: nat, m: Msg)
    ensures |unacked[tag := m]| <= |unacked| + 1
  {
    var after := unacked[tag := m];
    assert after.Keys == unacked.Keys + {tag};
    assert |after| == |after.Keys| && |unacked| == |unacked.Keys|;
  }
}
