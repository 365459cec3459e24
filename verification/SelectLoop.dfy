/** The consumer's select loop: what it flushes and when, and that it is a path of the step system. */
module SelectLoop {
  import opened AnalyticsQueue
  import opened Consumer

  // ---------------------------------------------------------------- the loop

  /** What the select statement sees, in the order it happens to pick. */
  datatype Event = Arrives(d: Delivery) | Closed | Ticks | Cancelled

  datatype Exit = Waiting | Returned | Fatal

  /** How the n-th flush's bulk insert goes. */
  type Results = nat -> InsertResult

  /** What arrives from event `a` up to event `b`. */
  function Arrived(events: seq<Event>, a: nat, b: nat): seq<Delivery>
    requires a <= b <= |events|
    decreases b
  {
    if a == b then [] else Arrived(events, a, b - 1) + if events[b - 1].Arrives? then [events[b - 1].d] else []
  }

  /** The flush of `batch` could not insert. */
  predicate Fails(batch: seq<Delivery>, result: InsertResult) {
    result != InsertOk && exists k :: 0 <= k < |batch| && batch[k].msg.body.Click?
  }

  /** What the loop has done so far: the batches flushed, the batch at hand, and whether it is over. */
  datatype Loop = Loop(flushed: seq<seq<Delivery>>, batch: seq<Delivery>, exit: Exit)

  predicate Flushes(batchSize: int, event: Event, batch: seq<Delivery>) {
    |batch| > 0 && (event.Arrives? ==> |batch| >= batchSize)
  }

  function Grown(l: Loop, event: Event): seq<Delivery> {
    if event.Arrives? then l.batch + [event.d] else l.batch
  }

  function Handle(batchSize: int, l: Loop, event: Event, results: Results): Loop {
    if l.exit != Waiting then l
    else if event.Closed? then l.(exit := Returned)
    else
      var batch := Grown(l, event);
      var after := if event.Cancelled? then Returned else Waiting;
      if Flushes(batchSize, event, batch)
      then Loop(l.flushed + [batch], [], if Fails(batch, results(|l.flushed|)) then Fatal else after)
      else Loop(l.flushed, batch, after)
  }

  /** The loop over the first `n` events. */
  function LoopOver(batchSize: int, events: seq<Event>, n: nat, results: Results): Loop
    requires n <= |events|
  {
    if n == 0 then Loop([], [], Waiting)
    else Handle(batchSize, LoopOver(batchSize, events, n - 1, results), events[n - 1], results)
  }

  // ---------------------------------------------------------------- when it flushes

  /** Where the batch after the first `i` flushes begins, when flush j happens at event `ends[j]`. */
  function From(ends: seq<nat>, i: nat): nat
    requires i <= |ends|
  {
    if i == 0 then 0 else ends[i - 1] + 1
  }

  /** Flush `i` takes exactly what arrived since the one before. */
  predicate Takes(events: seq<Event>, ends: seq<nat>, i: nat, batch: seq<Delivery>)
    requires i < |ends|
  {
    From(ends, i) <= ends[i] < |events| && batch == Arrived(events, From(ends, i), ends[i] + 1)
  }

  /** So does every flush, and what arrived since the last is at hand. */
  predicate Segments(events: seq<Event>, n: nat, ends: seq<nat>, flushed: seq<seq<Delivery>>, batch: seq<Delivery>)
    requires n <= |events|
  {
    && |ends| == |flushed|
    && (forall i :: 0 <= i < |ends| ==> Takes(events, ends, i, flushed[i]))
    && From(ends, |ends|) <= n && batch == Arrived(events, From(ends, |ends|), n)
  }

  /** A flush of `batch` at this event is due: at a tick, at the shutdown, or when the batch is full. */
  predicate InTime(batchSize: int, event: Event, batch: seq<Delivery>) {
    && batch != []
    && match event
       case Arrives(_) => |batch| >= batchSize
       case Ticks => true
       case Cancelled => true
       case Closed => false
  }

  /** Every flush is due. */
  predicate NoneEarly(batchSize: int, events: seq<Event>, ends: seq<nat>, flushed: seq<seq<Delivery>>) {
    && |ends| == |flushed|
    && (forall i :: 0 <= i < |ends| ==> ends[i] < |events|)
    && (forall i :: 0 <= i < |ends| ==> InTime(batchSize, events[ends[i]], flushed[i]))
  }

  /** From event `a` up to event `b`, with no flush in between: a tick or the shutdown finds nothing that has
      arrived, and no arrival completes a batch. */
  predicate NoneDue(batchSize: int, events: seq<Event>, a: nat, b: nat)
    requires b <= |events|
  {
    forall e :: a <= e < b ==>
      match events[e]
      case Arrives(_) => |Arrived(events, a, e + 1)| < batchSize
      case Ticks => Arrived(events, a, e + 1) == []
      case Cancelled => Arrived(events, a, e + 1) == []
      case Closed => true
  }

  /** Nothing due was left out. */
  predicate NoneLate(batchSize: int, events: seq<Event>, n: nat, ends: seq<nat>)
    requires n <= |events|
  {
    && (forall i :: 0 <= i < |ends| ==> ends[i] < |events|)
    && (forall i :: 0 <= i < |ends| ==> NoneDue(batchSize, events, From(ends, i), ends[i]))
    && NoneDue(batchSize, events, From(ends, |ends|), n)
  }

  /** The loop flushes when it has to and only then. */
  ghost predicate Accounts(batchSize: int, events: seq<Event>, n: nat, ends: seq<nat>, l: Loop)
    requires n <= |events|
  {
    && Segments(events, n, ends, l.flushed, l.batch)
    && NoneEarly(batchSize, events, ends, l.flushed)
    && NoneLate(batchSize, events, n, ends)
  }

  lemma {:induction false} FromAppend(ends: seq<nat>, n: nat)
    ensures forall i :: 0 <= i <= |ends| ==> From(ends + [n], i) == From(ends, i)
    ensures From(ends + [n], |ends + [n]|) == n + 1
  {
  }

  lemma {:induction false} SegmentsFlush(events: seq<Event>, n: nat, ends: seq<nat>, l: Loop)
    requires n < |events| && Segments(events, n, ends, l.flushed, l.batch)
    ensures Segments(events, n + 1, ends + [n], l.flushed + [Grown(l, events[n])], [])
  {
    FromAppend(ends, n);
    var ends', flushed' := ends + [n], l.flushed + [Grown(l, events[n])];
    forall i | 0 <= i < |ends'|
      ensures Takes(events, ends', i, flushed'[i])
    {
      if i < |ends| {
        assert Takes(events, ends, i, l.flushed[i]);
      }
    }
  }

  lemma {:induction false} NoneLateFlush(batchSize: int, events: seq<Event>, n: nat, ends: seq<nat>)
    requires n < |events| && NoneLate(batchSize, events, n, ends)
    ensures NoneLate(batchSize, events, n + 1, ends + [n])
  {
    FromAppend(ends, n);
    var ends' := ends + [n];
    forall i | 0 <= i < |ends'|
      ensures ends'[i] < |events| && NoneDue(batchSize, events, From(ends', i), ends'[i])
    {
      if i < |ends| {
        assert ends'[i] == ends[i];
      }
    }
  }

  /** An event that flushes ends a segment; one that does not prolongs the last. */
  lemma {:induction false} AccountsNext(batchSize: int, events: seq<Event>, n: nat, ends: seq<nat>, l: Loop,
                                        results: Results)
      returns (ends': seq<nat>)
    requires n < |events| && l.exit == Waiting && Accounts(batchSize, events, n, ends, l)
    ensures Accounts(batchSize, events, n + 1, ends', Handle(batchSize, l, events[n], results))
  {
    var batch := Grown(l, events[n]);
    if !events[n].Closed? && Flushes(batchSize, events[n], batch) {
      SegmentsFlush(events, n, ends, l);
      NoneLateFlush(batchSize, events, n, ends);
      ends' := ends + [n];
    } else {
      ends' := ends;
    }
  }

  lemma {:induction false} LoopAccounts(batchSize: int, events: seq<Event>, n: nat, results: Results)
      returns (ends: seq<nat>)
    requires n <= |events|
    requires n > 0 ==> LoopOver(batchSize, events, n - 1, results).exit == Waiting
    ensures Accounts(batchSize, events, n, ends, LoopOver(batchSize, events, n, results))
  {
    if n == 0 {
      ends := [];
      assert Arrived(events, 0, 0) == [];
    } else {
      ends := LoopAccounts(batchSize, events, n - 1, results);
      var l := LoopOver(batchSize, events, n - 1, results);
      ends := AccountsNext(batchSize, events, n - 1, ends, l, results);
    }
  }

  // ---------------------------------------------------------------- how it ends

  /** The loop goes on while nothing closes or cancels it and every flush succeeds; then it returns at the first
      such event, or fails at the first flush that could not insert. */
  predicate Ends(events: seq<Event>, n: nat, flushed: seq<seq<Delivery>>, results: Results, exit: Exit)
    requires n <= |events|
  {
    && (forall e :: 0 <= e < n - 1 ==> !events[e].Closed? && !events[e].Cancelled?)
    && (forall i :: 0 <= i < |flushed| - 1 ==> !Fails(flushed[i], results(i)))
    && (exit == Fatal <==> flushed != [] && Fails(flushed[|flushed| - 1], results(|flushed| - 1)))
    && (exit == Waiting ==> n == 0 || (!events[n - 1].Closed? && !events[n - 1].Cancelled?))
    && (exit == Returned ==> n > 0 && (events[n - 1].Closed? || events[n - 1].Cancelled?))
  }

  lemma {:induction false} EndsNext(batchSize: int, events: seq<Event>, n: nat, l: Loop, results: Results)
    requires n < |events| && l.exit == Waiting && Ends(events, n, l.flushed, results, Waiting)
    ensures var l' := Handle(batchSize, l, events[n], results); Ends(events, n + 1, l'.flushed, results, l'.exit)
  {
    var l' := Handle(batchSize, l, events[n], results);
    assert l.flushed != [] ==> !Fails(l.flushed[|l.flushed| - 1], results(|l.flushed| - 1));
    forall i | 0 <= i < |l'.flushed| - 1
      ensures !Fails(l'.flushed[i], results(i))
    {
      assert l'.flushed[i] == l.flushed[i];
    }
  }

  lemma {:induction false} LoopEnds(batchSize: int, events: seq<Event>, n: nat, results: Results)
    requires n <= |events|
    requires n > 0 ==> LoopOver(batchSize, events, n - 1, results).exit == Waiting
    ensures var l := LoopOver(batchSize, events, n, results); Ends(events, n, l.flushed, results, l.exit)
  {
    if n > 0 {
      LoopEnds(batchSize, events, n - 1, results);
      EndsNext(batchSize, events, n - 1, LoopOver(batchSize, events, n - 1, results), results);
    }
  }

  /** `ds` arrive at the events `at`. */
  predicate ArriveAt(ds: seq<Delivery>, at: seq<nat>, events: seq<Event>) {
    |ds| == |at| && forall i :: 0 <= i < |at| ==> at[i] < |events| && events[at[i]] == Arrives(ds[i])
  }

  lemma {:induction false} ArriveNext(ds: seq<Delivery>, at: seq<nat>, events: seq<Event>, n: nat)
    requires n < |events| && events[n].Arrives? && ArriveAt(ds, at, events)
    ensures ArriveAt(ds + [events[n].d], at + [n], events)
  {
  }

  function Indices(events: seq<Event>, a: nat, b: nat): seq<nat>
    requires a <= b <= |events|
    decreases b
  {
    if a == b then [] else Indices(events, a, b - 1) + if events[b - 1].Arrives? then [b - 1] else []
  }

  lemma {:induction false} IndicesArrive(events: seq<Event>, a: nat, b: nat)
    requires a <= b <= |events|
    ensures ArriveAt(Arrived(events, a, b), Indices(events, a, b), events)
    decreases b
  {
    if a < b {
      IndicesArrive(events, a, b - 1);
      if events[b - 1].Arrives? {
        ArriveNext(Arrived(events, a, b - 1), Indices(events, a, b - 1), events, b - 1);
      }
    }
  }

  lemma {:induction false} IndicesIncrease(events: seq<Event>, a: nat, b: nat)
    requires a <= b <= |events|
    ensures Increasing(Indices(events, a, b), b)
    ensures forall i :: 0 <= i < |Indices(events, a, b)| ==> a <= Indices(events, a, b)[i]
    decreases b
  {
    if a < b {
      IndicesIncrease(events, a, b - 1);
    }
  }

  lemma {:induction false} IndexOf(events: seq<Event>, a: nat, b: nat, e: nat) returns (i: nat)
    requires a <= e < b <= |events| && events[e].Arrives?
    ensures i < |Indices(events, a, b)| && Indices(events, a, b)[i] == e
    decreases b
  {
    if e < b - 1 {
      i := IndexOf(events, a, b - 1, e);
    } else {
      i := |Indices(events, a, b - 1)|;
    }
  }

  /** Each delivery that arrives is received once, and in order. */
  lemma {:induction false} ArrivedAt(events: seq<Event>, a: nat, b: nat) returns (at: seq<nat>)
    requires a <= b <= |events|
    ensures ArriveAt(Arrived(events, a, b), at, events)
    ensures Increasing(at, b) && forall i :: 0 <= i < |at| ==> a <= at[i]
    ensures forall e :: a <= e < b && events[e].Arrives? ==> e in at
  {
    at := Indices(events, a, b);
    IndicesIncrease(events, a, b);
    IndicesArrive(events, a, b);
    forall e | a <= e < b && events[e].Arrives?
      ensures e in at
    {
      var i := IndexOf(events, a, b, e);
    }
  }

  lemma FailsIff(batch: seq<Delivery>, result: InsertResult)
    ensures Fails(batch, result) <==> Clicks(batch) != [] && result != InsertOk
  {
    ClicksIff(batch);
  }

  // ---------------------------------------------------------------- Run

  method FlushBatch(batch: seq<Delivery>, result: InsertResult) returns (failed: bool)
    ensures failed <==> Fails(batch, result)
  {
    var frames, rows;
    frames, rows, failed := Flush(batch, result);
  }

  /** The loop of Run over the first events it handles. Cut at the flushes, what arrived falls into the batches
      flushed and the batch at hand; it flushes at every tick and shutdown that finds something, at every arrival
      that fills the batch, and at no other time; and it ends as `Ends` says. */
  method Run(batchSize: int, events: seq<Event>, results: Results)
      returns (flushed: seq<seq<Delivery>>, batch: seq<Delivery>, exit: Exit, handled: nat)
    ensures handled <= |events| && (exit == Waiting ==> handled == |events|)
    ensures Loop(flushed, batch, exit) == LoopOver(batchSize, events, handled, results)
    ensures exists ends: seq<nat> :: Accounts(batchSize, events, handled, ends, Loop(flushed, batch, exit))
    ensures Arrived(events, 0, handled) == Flatten(flushed) + batch
    ensures AllSized(batchSize, flushed) && (batch == [] || |batch| < batchSize)
    ensures Ends(events, handled, flushed, results, exit)
    ensures exit == Waiting && handled > 0 && events[handled - 1] == Ticks ==> batch == []
    ensures exit == Waiting && handled > 0 && events[handled - 1].Arrives? ==> batch == [] || |batch| < batchSize
    ensures handled > 0 && events[handled - 1] == Cancelled ==> exit != Waiting && batch == []
  {
    flushed, batch, exit, handled := Select(batchSize, events, results);
    LoopFacts(batchSize, events, handled, results);
    LoopFlat(batchSize, events, handled, results);
    LoopSized(batchSize, events, handled, results);
    AtLast(batchSize, events, handled, results);
  }

  /** The for/select loop. */
  method Select(batchSize: int, events: seq<Event>, results: Results)
      returns (flushed: seq<seq<Delivery>>, batch: seq<Delivery>, exit: Exit, handled: nat)
    ensures handled <= |events| && (exit == Waiting ==> handled == |events|)
    ensures Loop(flushed, batch, exit) == LoopOver(batchSize, events, handled, results)
    ensures handled > 0 ==> LoopOver(batchSize, events, handled - 1, results).exit == Waiting
  {
    flushed, batch, exit, handled := [], [], Waiting, 0;
    while handled < |events| && exit == Waiting
      invariant handled <= |events|
      invariant Loop(flushed, batch, exit) == LoopOver(batchSize, events, handled, results)
      invariant handled > 0 ==> LoopOver(batchSize, events, handled - 1, results).exit == Waiting
      decreases |events| - handled
    {
      var event := events[handled];
      ghost var l := Loop(flushed, batch, exit);
      handled := handled + 1;
      if event.Closed? {
        exit := Returned;
        continue;
      }
      if event.Arrives? {
        batch := batch + [event.d];
      }
      assert batch == Grown(l, event);
      if event.Cancelled? {
        exit := Returned;
      }
      if (event.Arrives? && |batch| >= batchSize) || (!event.Arrives? && |batch| > 0) {
        var failed := FlushBatch(batch, results(|flushed|));
        flushed, batch := flushed + [batch], [];
        if failed {
          exit := Fatal;
        }
      }
      assert Loop(flushed, batch, exit) == Handle(batchSize, l, event, results);
    }
  }

  lemma {:induction false} LoopFacts(batchSize: int, events: seq<Event>, n: nat, results: Results)
    requires n <= |events|
    requires n > 0 ==> LoopOver(batchSize, events, n - 1, results).exit == Waiting
    ensures var l := LoopOver(batchSize, events, n, results);
            && (exists ends: seq<nat> :: Accounts(batchSize, events, n, ends, l))
            && Ends(events, n, l.flushed, results, l.exit)
  {
    var ends := LoopAccounts(batchSize, events, n, results);
    LoopEnds(batchSize, events, n, results);
  }

  function Flatten(batches: seq<seq<Delivery>>): seq<Delivery> {
    if batches == [] then [] else Flatten(batches[..|batches| - 1]) + batches[|batches| - 1]
  }

  lemma {:induction false} FlattenAppend(batches: seq<seq<Delivery>>, batch: seq<Delivery>)
    ensures Flatten(batches + [batch]) == Flatten(batches) + batch
  {
    assert (batches + [batch])[..|batches|] == batches;
  }

  lemma {:induction false} GrownFlat(l: Loop, event: Event)
    ensures Flatten(l.flushed) + Grown(l, event) ==
            Flatten(l.flushed) + l.batch + if event.Arrives? then [event.d] else []
    ensures Flatten(l.flushed + [Grown(l, event)]) + [] == Flatten(l.flushed) + Grown(l, event)
  {
    FlattenAppend(l.flushed, Grown(l, event));
  }

  /** Every delivery received is in exactly one batch, in order of arrival. */
  lemma {:induction false} LoopFlat(batchSize: int, events: seq<Event>, n: nat, results: Results)
    requires n <= |events|
    requires n > 0 ==> LoopOver(batchSize, events, n - 1, results).exit == Waiting
    ensures var l := LoopOver(batchSize, events, n, results); Arrived(events, 0, n) == Flatten(l.flushed) + l.batch
  {
    if n > 0 {
      LoopFlat(batchSize, events, n - 1, results);
      GrownFlat(LoopOver(batchSize, events, n - 1, results), events[n - 1]);
    }
  }

  /** A flush is never empty, and never larger than the batch size unless that is below one. */
  predicate Sized(batchSize: int, batch: seq<Delivery>) {
    1 <= |batch| && (|batch| <= batchSize || |batch| == 1)
  }

  predicate AllSized(batchSize: int, batches: seq<seq<Delivery>>) {
    forall i :: 0 <= i < |batches| ==> Sized(batchSize, batches[i])
  }

  lemma {:induction false} LoopSized(batchSize: int, events: seq<Event>, n: nat, results: Results)
    requires n <= |events|
    ensures var l := LoopOver(batchSize, events, n, results);
            AllSized(batchSize, l.flushed) && (l.batch == [] || |l.batch| < batchSize)
  {
    if n > 0 {
      LoopSized(batchSize, events, n - 1, results);
    }
  }

  /** What the last event handled leaves behind. */
  lemma AtLast(batchSize: int, events: seq<Event>, n: nat, results: Results)
    requires n <= |events|
    requires n > 0 ==> LoopOver(batchSize, events, n - 1, results).exit == Waiting
    ensures n > 0 ==>
              var l := LoopOver(batchSize, events, n, results);
              match events[n - 1]
              case Ticks => l.batch == []
              case Arrives(_) => l.batch == [] || |l.batch| < batchSize
              case Cancelled => l.exit != Waiting && l.batch == []
              case Closed => true
  {
  }

  // ---------------------------------------------------------------- the select loop against the step system

  /** Everything the flushes send, and insert. */
  function AllFrames(flushed: seq<seq<Delivery>>, results: Results): seq<Frame> {
    if flushed == [] then [] else
      var n := |flushed| - 1;
      AllFrames(flushed[..n], results) + Frames(flushed[n], results(n))
  }

  function AllRows(flushed: seq<seq<Delivery>>, results: Results): multiset<Msg> {
    if flushed == [] then multiset{} else
      var n := |flushed| - 1;
      AllRows(flushed[..n], results) + multiset(Rows(flushed[n], results(n)))
  }

  /** Where the step system is once the loop has come to `l`, with `left` still prefetched: the frames of all
      flushes on the wire, their rows in the table, and the worker at its batch, or gone. */
  function Reached(s: State, ch: nat, l: Loop, results: Results, left: seq<Delivery>): State
    requires ch in s.channels
  {
    var c := s.channels[ch];
    s.(table := s.table + AllRows(l.flushed, results),
       channels := s.channels[ch := c.(wire := c.wire + AllFrames(l.flushed, results))],
       workers := if l.exit == Waiting then s.workers[ch := Worker(l.batch, left, Collecting)] else s.workers - {ch})
  }

  lemma {:induction false} AllFramesAppend(flushed: seq<seq<Delivery>>, batch: seq<Delivery>, results: Results)
    ensures AllFrames(flushed + [batch], results) ==
            AllFrames(flushed, results) + Frames(batch, results(|flushed|))
    ensures AllRows(flushed + [batch], results) ==
            AllRows(flushed, results) + multiset(Rows(batch, results(|flushed|)))
  {
    assert (flushed + [batch])[..|flushed|] == flushed;
  }

  /** A worker about to flush `batch`, having come to `l`. */
  function Flushing(s: State, ch: nat, l: Loop, batch: seq<Delivery>, results: Results,
                    left: seq<Delivery>, closing: bool): State
    requires ch in s.channels && l.exit == Waiting
  {
    var r := Reached(s, ch, l, results, left);
    r.(workers := s.workers[ch := Worker(batch, left, Decoding(0, closing))])
  }

  lemma {:induction false} FlushReachesTable(s: State, ch: nat, l: Loop, batch: seq<Delivery>, results: Results,
                                             left: seq<Delivery>, closing: bool)
    requires ch in s.channels && ch in s.workers && l.exit == Waiting
    ensures var f := Flushed(Flushing(s, ch, l, batch, results, left, closing), ch, results(|l.flushed|));
            f.table == s.table + AllRows(l.flushed + [batch], results)
  {
    AllFramesAppend(l.flushed, batch, results);
  }

  lemma {:induction false} FlushReachesWire(s: State, ch: nat, l: Loop, batch: seq<Delivery>, results: Results,
                                            left: seq<Delivery>, closing: bool)
    requires ch in s.channels && ch in s.workers && l.exit == Waiting
    ensures var f := Flushed(Flushing(s, ch, l, batch, results, left, closing), ch, results(|l.flushed|));
            var c := s.channels[ch];
            f.channels ==
              s.channels[ch := c.(wire := c.wire + AllFrames(l.flushed, results) + Frames(batch, results(|l.flushed|)))]
  {
  }

  lemma {:induction false} FlushReachesWorker(s: State, ch: nat, l: Loop, batch: seq<Delivery>, results: Results,
                                              left: seq<Delivery>, closing: bool)
    requires ch in s.channels && ch in s.workers && l.exit == Waiting
    ensures var result := results(|l.flushed|);
            Flushed(Flushing(s, ch, l, batch, results, left, closing), ch, result).workers ==
            if Fails(batch, result) || closing then s.workers - {ch}
            else s.workers[ch := Worker([], left, Collecting)]
  {
    FailsIff(batch, results(|l.flushed|));
    var w := Worker(batch, left, Decoding(0, closing));
    assert s.workers[ch := w] - {ch} == s.workers - {ch};
    assert s.workers[ch := w][ch := Worker([], left, Collecting)] == s.workers[ch := Worker([], left, Collecting)];
  }

  /** A flush takes the step system to where the loop then is. */
  lemma {:induction false} FlushReaches(s: State, ch: nat, l: Loop, batch: seq<Delivery>, results: Results,
                                        left: seq<Delivery>, closing: bool)
    requires ch in s.channels && ch in s.workers && l.exit == Waiting
    ensures var result := results(|l.flushed|);
            var exit := if Fails(batch, result) then Fatal else if closing then Returned else Waiting;
            Flushed(Flushing(s, ch, l, batch, results, left, closing), ch, result) ==
            Reached(s, ch, Loop(l.flushed + [batch], [], exit), results, left)
  {
    FlushReachesTable(s, ch, l, batch, results, left, closing);
    FlushReachesWire(s, ch, l, batch, results, left, closing);
    AllFramesAppend(l.flushed, batch, results);
    FramesAssoc(s.channels[ch].wire, AllFrames(l.flushed, results), Frames(batch, results(|l.flushed|)));
    FlushReachesWorker(s, ch, l, batch, results, left, closing);
  }

  lemma {:induction false} FlushPath(batchSize: nat, s: State, ch: nat, l: Loop, batch: seq<Delivery>, results: Results,
                                     left: seq<Delivery>, closing: bool) returns (steps: seq<Step>)
    requires ch in s.channels && ch in s.workers && l.exit == Waiting
    ensures var exit := if Fails(batch, results(|l.flushed|)) then Fatal else if closing then Returned else Waiting;
            Path(batchSize, Flushing(s, ch, l, batch, results, left, closing), steps,
                 Reached(s, ch, Loop(l.flushed + [batch], [], exit), results, left))
  {
    var result := results(|l.flushed|);
    var acks := if Clicks(batch) != [] && result == InsertOk then [SendAck(ch)] else [];
    FlushIsRefined(batchSize, Flushing(s, ch, l, batch, results, left, closing), ch, result);
    FlushReaches(s, ch, l, batch, results, left, closing);
    steps := seq(|batch|, _ => Decode(ch)) + [Insert(ch, result)] + acks;
  }

  lemma {:induction false} ArrivalPath(batchSize: nat, s: State, ch: nat, l: Loop, d: Delivery, results: Results,
                                       left: seq<Delivery>) returns (steps: seq<Step>)
    requires ch in s.channels && ch in s.workers && l.exit == Waiting && left != [] && left[0] == d
    ensures Path(batchSize, Reached(s, ch, l, results, left), steps,
                 Reached(s, ch, Handle(batchSize, l, Arrives(d), results), results, left[1..]))
  {
    var r, batch := Reached(s, ch, l, results, left), l.batch + [d];
    var next := Apply(batchSize, r, Receive(ch));
    PathStep(batchSize, r, Receive(ch));
    if |batch| >= batchSize {
      assert next == Flushing(s, ch, l, batch, results, left[1..], false);
      var rest := FlushPath(batchSize, s, ch, l, batch, results, left[1..], false);
      steps := [Receive(ch)] + rest;
      PathJoin(batchSize, r, [Receive(ch)], next, rest,
               Reached(s, ch, Handle(batchSize, l, Arrives(d), results), results, left[1..]));
    } else {
      steps := [Receive(ch)];
    }
  }

  lemma {:induction false} TimedStart(batchSize: nat, s: State, ch: nat, l: Loop, results: Results, left: seq<Delivery>)
    requires ch in s.channels && ch in s.workers && l.exit == Waiting && l.batch != []
    ensures var r := Reached(s, ch, l, results, left);
            && Enabled(batchSize, r, TickFlush(ch)) && Enabled(batchSize, r, Shutdown(ch))
            && Apply(batchSize, r, TickFlush(ch)) == Flushing(s, ch, l, l.batch, results, left, false)
            && Apply(batchSize, r, Shutdown(ch)) == Flushing(s, ch, l, l.batch, results, left, true)
  {
  }

  /** The ticker or the shutdown flushes what is there. */
  lemma {:induction false} TimedFlushPath(batchSize: nat, s: State, ch: nat, l: Loop, event: Event, results: Results,
                                          left: seq<Delivery>) returns (steps: seq<Step>)
    requires ch in s.channels && ch in s.workers && l.exit == Waiting && l.batch != []
    requires event == Ticks || event == Cancelled
    ensures Path(batchSize, Reached(s, ch, l, results, left), steps,
                 Reached(s, ch, Handle(batchSize, l, event, results), results, left))
  {
    var r, step := Reached(s, ch, l, results, left), if event == Ticks then TickFlush(ch) else Shutdown(ch);
    TimedStart(batchSize, s, ch, l, results, left);
    var next := Apply(batchSize, r, step);
    PathStep(batchSize, r, step);
    var rest := FlushPath(batchSize, s, ch, l, l.batch, results, left, event == Cancelled);
    steps := [step] + rest;
    PathJoin(batchSize, r, [step], next, rest, Reached(s, ch, Handle(batchSize, l, event, results), results, left));
  }

  lemma {:induction false} QuietEventPath(batchSize: nat, s: State, ch: nat, l: Loop, event: Event, results: Results,
                                          left: seq<Delivery>) returns (steps: seq<Step>)
    requires ch in s.channels && ch in s.workers && l.exit == Waiting
    requires event == Closed || (l.batch == [] && !event.Arrives?)
    ensures Path(batchSize, Reached(s, ch, l, results, left), steps,
                 Reached(s, ch, Handle(batchSize, l, event, results), results, left))
  {
    var r := Reached(s, ch, l, results, left);
    if event == Ticks {
      steps := [];
    } else {
      var step := if event == Closed then Leave(ch) else Shutdown(ch);
      PathStep(batchSize, r, step);
      assert s.workers[ch := Worker(l.batch, left, Collecting)] - {ch} == s.workers - {ch};
      steps := [step];
    }
  }

  lemma {:induction false} StillToArrive(a: seq<Delivery>, b: seq<Delivery>, c: seq<Delivery>)
    ensures a + b + c == a + (b + c)
  {
  }

  /** Whatever the select statement sees, the loop's run is a path of the step system: it flushes the same
      batches, puts the same frames on the wire and the same rows into the table, and ends the same way. */
  lemma {:induction false} RunIsRefined(batchSize: nat, s: State, ch: nat, events: seq<Event>, n: nat,
                                        results: Results, left: seq<Delivery>)
      returns (steps: seq<Step>, unread: seq<Delivery>)
    requires n <= |events| && ch in s.channels && ch in s.workers
    requires s.workers[ch] == Worker([], Arrived(events, 0, n) + left, Collecting)
    ensures Path(batchSize, s, steps, Reached(s, ch, LoopOver(batchSize, events, n, results), results, unread))
    ensures LoopOver(batchSize, events, n, results).exit == Waiting ==> unread == left
  {
    var c := s.channels[ch];
    if n == 0 {
      assert c.wire + AllFrames([], results) == c.wire;
      assert Arrived(events, 0, 0) + left == left;
      steps, unread := [], left;
    } else {
      var event := events[n - 1];
      var arrived := if event.Arrives? then [event.d] else [];
      StillToArrive(Arrived(events, 0, n - 1), arrived, left);
      var before;
      before, unread := RunIsRefined(batchSize, s, ch, events, n - 1, results, arrived + left);
      var l := LoopOver(batchSize, events, n - 1, results);
      var mid := Reached(s, ch, l, results, unread);
      var last := [];
      if l.exit == Waiting {
        if event.Arrives? {
          last := ArrivalPath(batchSize, s, ch, l, event.d, results, unread);
          unread := unread[1..];
        } else if event == Closed || l.batch == [] {
          last := QuietEventPath(batchSize, s, ch, l, event, results, unread);
        } else {
          last := TimedFlushPath(batchSize, s, ch, l, event, results, unread);
        }
      }
      steps := before + last;
      PathJoin(batchSize, s, before, mid, last,
               Reached(s, ch, LoopOver(batchSize, events, n, results), results, unread));
    }
  }
}
