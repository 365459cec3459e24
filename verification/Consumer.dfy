/** The consumer's flush, against the step system, and the worker's dialling backoff. */
module Consumer {
  import opened AnalyticsQueue

  // ---------------------------------------------------------------- flush

  /** The nacks of a batch: one for each delivery that does not decode, in order. */
  function Nacks(batch: seq<Delivery>): seq<Frame> {
    if batch == [] then [] else
      var last := batch[|batch| - 1];
      Nacks(batch[..|batch| - 1]) + if last.msg.body.Malformed? then [Nack(last.tag)] else []
  }

  /** Everything a flush sends, given how the bulk insert goes. */
  function Frames(batch: seq<Delivery>, result: InsertResult): seq<Frame> {
    Nacks(batch) + if Clicks(batch) != [] && result == InsertOk then [AckUpTo(batch[|batch| - 1].tag)] else []
  }

  function Rows(batch: seq<Delivery>, result: InsertResult): seq<Msg> {
    if result == InsertFailed(false) then [] else Clicks(batch)
  }

  /** `frames` nacks the deliveries at the indices `bad`. */
  predicate NacksOf(frames: seq<Frame>, bad: seq<nat>, batch: seq<Delivery>) {
    |frames| >= |bad| && forall i :: 0 <= i < |bad| ==> bad[i] < |batch| && frames[i] == Nack(batch[bad[i]].tag)
  }

  lemma NacksNext(frames: seq<Frame>, bad: seq<nat>, batch: seq<Delivery>)
    requires batch != [] && NacksOf(frames, bad, batch[..|batch| - 1])
    ensures NacksOf(frames, bad, batch)
    ensures |frames| == |bad| ==> NacksOf(frames + [Nack(batch[|batch| - 1].tag)], bad + [|batch| - 1], batch)
  {
  }

  lemma {:induction false} NacksAt(batch: seq<Delivery>) returns (bad: seq<nat>)
    ensures Selects(bad, batch, false) && NacksOf(Nacks(batch), bad, batch)
    ensures |bad| == |Nacks(batch)| == |batch| - |Clicks(batch)|
    decreases |batch|
  {
    bad := [];
    if batch != [] {
      var n := |batch| - 1;
      bad := NacksAt(batch[..n]);
      EveryNext(bad, batch, false);
      OnlyNext(bad, batch, false);
      NacksNext(Nacks(batch[..n]), bad, batch);
      bad := if batch[n].msg.body.Malformed? then bad + [n] else bad;
    }
  }

  lemma {:induction false} ClicksIff(batch: seq<Delivery>)
    ensures Clicks(batch) != [] <==> exists k :: 0 <= k < |batch| && batch[k].msg.body.Click?
  {
    var at := ClicksAt(batch);
    if k :| 0 <= k < |batch| && batch[k].msg.body.Click? {
      assert exists i :: 0 <= i < |at| && at[i] == k;
    }
    if at != [] {
      assert batch[at[0]].msg.body.Click?;
    }
  }

  lemma {:induction false} SentAndInserted(batch: seq<Delivery>, result: InsertResult)
    ensures result != InsertFailed(false) ==>
              exists at: seq<nat> :: Selects(at, batch, true) && Messages(Rows(batch, result), at, batch)
    ensures exists bad: seq<nat> ::
              && Selects(bad, batch, false) && NacksOf(Frames(batch, result), bad, batch)
              && |Frames(batch, result)| == |bad| + (if result == InsertOk && Rows(batch, result) != [] then 1 else 0)
              && (result != InsertFailed(false) ==> |Rows(batch, result)| + |bad| == |batch|)
  {
    var at := ClicksAt(batch);
    var bad := NacksAt(batch);
    assert NacksOf(Frames(batch, result), bad, batch);
  }

  /** Decode every delivery, insert the clicks at once, ack the batch by its last tag. Whatever is inserted is
      every well-formed message, once for each delivery and in order; every malformed one is nacked, in order,
      before the ack, which is sent only after a successful insert. */
  method Flush(deliveries: seq<Delivery>, result: InsertResult)
      returns (frames: seq<Frame>, rows: seq<Msg>, failed: bool)
    ensures failed <==>
              result.InsertFailed? && exists k :: 0 <= k < |deliveries| && deliveries[k].msg.body.Click?
    ensures result == InsertFailed(false) ==> rows == []
    ensures result != InsertFailed(false) ==>
              exists at: seq<nat> :: Selects(at, deliveries, true) && Messages(rows, at, deliveries)
    ensures exists bad: seq<nat> ::
              && Selects(bad, deliveries, false) && NacksOf(frames, bad, deliveries)
              && |frames| == |bad| + (if result == InsertOk && rows != [] then 1 else 0)
              && (result != InsertFailed(false) ==> |rows| + |bad| == |deliveries|)
    ensures result == InsertOk && rows != [] ==>
              frames != [] && frames[|frames| - 1] == AckUpTo(deliveries[|deliveries| - 1].tag)
    ensures frames == Frames(deliveries, result)
    ensures rows == Rows(deliveries, result)
    ensures failed <==> Clicks(deliveries) != [] && result != InsertOk
  {
    frames := [];
    var events: seq<Msg> := [];
    for i := 0 to |deliveries|
      invariant frames == Nacks(deliveries[..i])
      invariant events == Clicks(deliveries[..i])
    {
      var d := deliveries[i];
      assert deliveries[..i + 1][..i] == deliveries[..i];
      if d.msg.body.Malformed? {
        frames := frames + [Nack(d.tag)];
      } else {
        events := events + [d.msg];
      }
    }
    assert deliveries[..|deliveries|] == deliveries;
    rows, failed := [], false;
    if |events| > 0 {
      if result.InsertFailed? {
        rows, failed := if result.applied then events else [], true;
      } else {
        rows := events;
        frames := frames + [AckUpTo(deliveries[|deliveries| - 1].tag)];
      }
    }
    assert frames == Frames(deliveries, result) && rows == Rows(deliveries, result);
    SentAndInserted(deliveries, result);
    ClicksIff(deliveries);
  }

  // ---------------------------------------------------------------- flush against the step system

  /** The state of a flush that has decoded `k` deliveries without being disturbed. */
  function Decoded(s: State, ch: nat, k: nat): State
    requires ch in s.workers && ch in s.channels && k <= |s.workers[ch].batch| && s.workers[ch].phase.Decoding?
  {
    var w, c := s.workers[ch], s.channels[ch];
    s.(workers := s.workers[ch := w.(phase := Decoding(k, w.phase.closing))],
       channels := s.channels[ch := c.(wire := c.wire + Nacks(w.batch[..k]))])
  }

  lemma {:induction false} DecodesTo(batchSize: nat, s: State, ch: nat, k: nat)
    requires ch in s.workers && ch in s.channels && k <= |s.workers[ch].batch|
    requires s.workers[ch].phase.Decoding? && s.workers[ch].phase.next == 0
    ensures Path(batchSize, s, seq(k, _ => Decode(ch)), Decoded(s, ch, k))
    decreases k
  {
    var w, c := s.workers[ch], s.channels[ch];
    if k == 0 {
      assert c.wire + Nacks(w.batch[..0]) == c.wire;
      assert Decoded(s, ch, 0) == s;
    } else {
      DecodesTo(batchSize, s, ch, k - 1);
      DecodeOne(batchSize, s, ch, k - 1);
      PathOn(batchSize, s, seq(k - 1, _ => Decode(ch)), Decoded(s, ch, k - 1), Decode(ch));
      assert seq(k, _ => Decode(ch)) == seq(k - 1, _ => Decode(ch)) + [Decode(ch)];
    }
  }

  lemma {:induction false} DecodeOne(batchSize: nat, s: State, ch: nat, k: nat)
    requires ch in s.workers && ch in s.channels && k < |s.workers[ch].batch| && s.workers[ch].phase.Decoding?
    ensures Enabled(batchSize, Decoded(s, ch, k), Decode(ch))
    ensures Apply(batchSize, Decoded(s, ch, k), Decode(ch)) == Decoded(s, ch, k + 1)
  {
    var batch, wire := s.workers[ch].batch, s.channels[ch].wire;
    assert batch[..k + 1][..k] == batch[..k];
    assert wire + Nacks(batch[..k]) == wire + (Nacks(batch[..k]) + []);
    assert wire + Nacks(batch[..k]) + [Nack(batch[k].tag)] == wire + (Nacks(batch[..k]) + [Nack(batch[k].tag)]);
  }

  /** What flushing a batch should leave behind: the frames of the flush on the wire, its rows in the
      table, and a worker that is gone after an error and otherwise done with the batch. */
  function Flushed(s: State, ch: nat, result: InsertResult): State
    requires ch in s.workers && ch in s.channels && s.workers[ch].phase.Decoding?
  {
    var w, c := s.workers[ch], s.channels[ch];
    var s' := s.(table := s.table + multiset(Rows(w.batch, result)),
                 channels := s.channels[ch := c.(wire := c.wire + Frames(w.batch, result))]);
    if Clicks(w.batch) != [] && result != InsertOk then s'.(workers := s.workers - {ch})
    else EndFlush(s', ch, w.phase.closing)
  }

  lemma {:induction false} FramesAssoc(a: seq<Frame>, b: seq<Frame>, c: seq<Frame>)
    ensures a + b + c == a + (b + c)
  {
  }

  /** Past the last delivery, a flush that inserted acks and is done. */
  lemma {:induction false} EndsWithAck(batchSize: nat, s: State, ch: nat)
    requires ch in s.workers && ch in s.channels
    requires s.workers[ch].phase.Decoding? && Clicks(s.workers[ch].batch) != []
    ensures var s1 := Decoded(s, ch, |s.workers[ch].batch|);
            && Enabled(batchSize, s1, Insert(ch, InsertOk))
            && var s2 := Apply(batchSize, s1, Insert(ch, InsertOk));
            Enabled(batchSize, s2, SendAck(ch)) && Apply(batchSize, s2, SendAck(ch)) == Flushed(s, ch, InsertOk)
  {
    var w, c := s.workers[ch], s.channels[ch];
    assert w.batch[..|w.batch|] == w.batch;
    var ack := [AckUpTo(w.batch[|w.batch| - 1].tag)];
    FramesAssoc(c.wire, Nacks(w.batch), ack);
  }

  /** Past the last delivery, one that found nothing to insert or could not insert ends without an ack. */
  lemma {:induction false} EndsWithoutAck(batchSize: nat, s: State, ch: nat, result: InsertResult)
    requires ch in s.workers && ch in s.channels && s.workers[ch].phase.Decoding?
    requires Clicks(s.workers[ch].batch) == [] || result != InsertOk
    ensures var s1 := Decoded(s, ch, |s.workers[ch].batch|);
            Enabled(batchSize, s1, Insert(ch, result)) &&
            Apply(batchSize, s1, Insert(ch, result)) == Flushed(s, ch, result)
  {
    var w := s.workers[ch];
    assert w.batch[..|w.batch|] == w.batch;
    assert Frames(w.batch, result) == Nacks(w.batch);
    assert s.table + multiset([]) == s.table;
    var s1, s2 := Decoded(s, ch, |w.batch|), Flushed(s, ch, result);
    assert s2.channels == s1.channels;
    if Clicks(w.batch) == [] {
      assert Rows(w.batch, result) == [];
      assert s2 == EndFlush(s1, ch, w.phase.closing);
    } else {
      assert s2.workers == s1.workers - {ch};
    }
  }

  /** Undisturbed, the step system's flush of any batch, with any insert result, during shutdown or not,
      sends and inserts exactly what the flush code does. */
  lemma {:induction false} FlushIsRefined(batchSize: nat, s: State, ch: nat, result: InsertResult)
    requires ch in s.workers && ch in s.channels
    requires s.workers[ch].phase.Decoding? && s.workers[ch].phase.next == 0
    ensures var batch := s.workers[ch].batch;
            var acks := if Clicks(batch) != [] && result == InsertOk then [SendAck(ch)] else [];
            Path(batchSize, s, seq(|batch|, _ => Decode(ch)) + [Insert(ch, result)] + acks, Flushed(s, ch, result))
  {
    var n := |s.workers[ch].batch|;
    var steps := seq(n, _ => Decode(ch));
    var s1 := Decoded(s, ch, n);
    DecodesTo(batchSize, s, ch, n);
    if Clicks(s.workers[ch].batch) != [] && result == InsertOk {
      EndsWithAck(batchSize, s, ch);
      PathOn(batchSize, s, steps, s1, Insert(ch, result));
      PathOn(batchSize, s, steps + [Insert(ch, result)], Apply(batchSize, s1, Insert(ch, result)), SendAck(ch));
    } else {
      EndsWithoutAck(batchSize, s, ch, result);
      PathOn(batchSize, s, steps, s1, Insert(ch, result));
      assert steps + [Insert(ch, result)] + [] == steps + [Insert(ch, result)];
    }
  }

  // ---------------------------------------------------------------- dialling

  /** What happens after a failed dial: the wait is over, or the context is cancelled during it. */
  datatype Dial = Connects | FailsAndWaits | FailsAndStops

  /** The k-th wait in milliseconds, in closed form. */
  function Backoff(k: nat): nat {
    if k == 0 then 1000 else if k == 1 then 2000 else if k == 2 then 4000
    else if k == 3 then 8000 else if k == 4 then 16000 else 32000
  }

  /** dialWithRetry over the first dials it makes; `waits` are the pauses it announces. The pauses double
      from one second and stay at 32 seconds: the last doubling overshoots the documented cap of 30. */
  method DialWithRetry(dials: seq<Dial>) returns (connected: bool, waits: seq<nat>)
    ensures waits != [] ==> waits[0] == 1000
    ensures forall k :: 0 <= k < |waits| - 1 ==> waits[k + 1] == if waits[k] < 30000 then 2 * waits[k] else waits[k]
    ensures forall k :: 0 <= k < |waits| ==> waits[k] == Backoff(k)
    ensures |waits| <= |dials|
    ensures forall k :: 0 <= k < |waits| - 1 ==> dials[k] == FailsAndWaits
    ensures connected ==>
              |waits| < |dials| && dials[|waits|] == Connects && (waits != [] ==> dials[|waits| - 1] == FailsAndWaits)
    ensures !connected ==> |waits| == |dials| || (waits != [] && dials[|waits| - 1] == FailsAndStops)
    ensures (exists k :: 0 <= k < |waits| && waits[k] > 30000) <==> |waits| > 5
  {
    var backoff := 1000;
    waits := [];
    for i := 0 to |dials|
      invariant |waits| == i && backoff == Backoff(i)
      invariant forall k :: 0 <= k < i ==> waits[k] == Backoff(k) && dials[k] == FailsAndWaits
    {
      if dials[i] == Connects {
        connected := true;
        assert |waits| > 5 ==> waits[5] > 30000;
        return;
      }
      waits := waits + [backoff];
      if dials[i] == FailsAndStops {
        connected := false;
        assert |waits| > 5 ==> waits[5] > 30000;
        return;
      }
      if backoff < 30000 {
        backoff := backoff * 2;
      }
    }
    connected := false;
    assert |waits| > 5 ==> waits[5] > 30000;
  }
}
