/** Stampedes and races: how often the database is read, and when the cache agrees with it. */
module CacheRaces {
  import opened Options
  import opened UrlModel
  import opened CacheProtocol

  // ---------------------------------------------------------------- who a step moves

  /** A Get past its first cache lookup and not yet answered. */
  predicate Reader(r: Request) {
    r.GetJoin? || r.GetWait? || r.GetRecheck? || r.GetRead? || r.GetWrite? || r.GetFinish?
  }

  predicate Writer(r: Request) {
    r.CreateStart? || r.CreateWrite? || r.DeleteStart? || r.DeleteCache?
  }

  ghost predicate SameReaders(s: State, s': State) {
    && s'.flights == s.flights
    && (forall id :: id in s.requests && Reader(s.requests[id]) ==>
          id in s'.requests && s'.requests[id] == s.requests[id])
    && (forall id :: id in s'.requests && Reader(s'.requests[id]) ==>
          id in s.requests && s'.requests[id] == s.requests[id])
  }

  ghost predicate SameWriters(s: State, s': State) {
    && s'.db == s.db
    && (forall id :: id in s.requests && Writer(s.requests[id]) ==>
          id in s'.requests && s'.requests[id] == s.requests[id])
    && (forall id :: id in s'.requests && Writer(s'.requests[id]) ==>
          id in s.requests && s'.requests[id] == s.requests[id])
  }

  lemma WorldStepFrame(ttl: Duration, s: State, step: Step)
    requires Enabled(s, step) && WorldStep(step)
    ensures Apply(ttl, s, step).requests == s.requests && Apply(ttl, s, step).flights == s.flights
  {
  }

  lemma MoveFrame(ttl: Duration, s: State, step: Step)
    requires Enabled(s, step) && !WorldStep(step) && !ReaderStep(step)
    ensures var s' := Apply(ttl, s, step);
            step.id in s'.requests && s'.requests == s.requests[step.id := s'.requests[step.id]]
  {
    match step
    case Begin(_, _) =>
    case InsertDb(_, _) =>
    case CacheNew(_, _, _) =>
    case DeleteDb(_, _) =>
    case Invalidate(_, _, _) =>
  }

  lemma WriterStepFrame(ttl: Duration, s: State, step: Step)
    requires Enabled(s, step) && !ReaderStep(step)
    ensures SameReaders(s, Apply(ttl, s, step))
  {
    if WorldStep(step) {
      WorldStepFrame(ttl, s, step);
    } else {
      WriterMove(ttl, s, step);
      MoveFrame(ttl, s, step);
    }
  }

  lemma WriterMove(ttl: Duration, s: State, step: Step)
    requires Enabled(s, step) && !ReaderStep(step) && !WorldStep(step)
    ensures Apply(ttl, s, step).flights == s.flights
    ensures step.id in s.requests ==> !Reader(s.requests[step.id])
    ensures step.id in Apply(ttl, s, step).requests && !Reader(Apply(ttl, s, step).requests[step.id])
  {
  }

  lemma ReaderMove(ttl: Duration, s: State, step: Step)
    requires Enabled(s, step) && ReaderStep(step) && !step.Finish?
    ensures var s' := Apply(ttl, s, step);
            && s'.db == s.db && step.id in s.requests && !Writer(s.requests[step.id])
            && step.id in s'.requests && !Writer(s'.requests[step.id])
            && s'.requests == s.requests[step.id := s'.requests[step.id]]
  {
    match step
    case Probe(_, _, _) =>
    case Join(_) =>
    case Recheck(_, _, _) =>
    case ReadDb(_, _) =>
    case Rewrite(_, _, _) =>
  }

  lemma ReaderStepFrame(ttl: Duration, s: State, step: Step)
    requires Enabled(s, step) && ReaderStep(step)
    ensures SameWriters(s, Apply(ttl, s, step))
  {
    if step.Finish? {
    } else {
      ReaderMove(ttl, s, step);
    }
  }

  // ---------------------------------------------------------------- stampede

  ghost predicate Quiet(s: State, code: string) {
    code !in s.flights && forall id :: id in s.requests ==> CodeOf(s.requests[id]) != code
  }

  predicate Hot(s: State, node: string, code: string) {
    CacheGet(s, node, code, true).Some?
  }

  predicate About(s: State, id: nat, code: string) {
    id in s.requests && CodeOf(s.requests[id]) == code
  }

  /** The steps allowed on `code`: one cache node that works, no deletes, no eviction, no expiry of a
      cached entry, no database failure. Everything may happen to other codes. */
  predicate Calm(s: State, step: Step, node: string, code: string)
    requires Enabled(s, step)
  {
    match step
    case Tick(ms) => Hot(s, node, code) ==> Hot(s.(clock := s.clock + ms), node, code)
    case Begin(_, r) => r.DeleteStart? ==> r.code != code
    case Probe(id, n, ok) => About(s, id, code) ==> n == node && ok
    case Recheck(id, n, ok) => About(s, id, code) ==> n == node && ok
    case ReadDb(id, ok) => About(s, id, code) ==> ok
    case Rewrite(id, n, o) => About(s, id, code) ==> n == node && o == Landed
    case CacheNew(id, n, o) => About(s, id, code) ==> n == node && o == Landed
    case LandLate(what) => what.code != code
    case Evict(_, c) => c != code
    case Corrupt(_, c, _) => c != code
    case _ => true
  }

  predicate ReadsCode(s: State, step: Step, code: string) {
    step.ReadDb? && About(s, step.id, code)
  }

  /** How many of the first `n` steps read `code` from the database. */
  function Reads(states: seq<State>, steps: seq<Step>, code: string, n: nat): nat
    requires n <= |steps| <= |states|
  {
    if n == 0 then 0
    else Reads(states, steps, code, n - 1) + if ReadsCode(states[n - 1], steps[n - 1], code) then 1 else 0
  }

  predicate Leading(r: Request, code: string) {
    (r.GetRecheck? || r.GetRead? || r.GetWrite? || r.GetFinish?) && r.code == code
  }

  /** Flights are serial per code: whoever leads one is registered for it. */
  ghost predicate OneLeader(s: State, code: string) {
    forall id :: id in s.requests && Leading(s.requests[id], code) ==> code in s.flights && s.flights[code] == id
  }

  ghost predicate NoDelete(s: State, code: string) {
    forall id :: id in s.requests && (s.requests[id].DeleteStart? || s.requests[id].DeleteCache?) ==>
      s.requests[id].code != code
  }

  ghost predicate Writing(s: State, code: string) {
    exists id :: id in s.requests && s.requests[id].GetWrite? && s.requests[id].code == code
  }

  ghost predicate AtMostOnce(s: State, node: string, code: string, count: nat) {
    && OneLeader(s, code) && NoDelete(s, code)
    && count <= 1
    && (count == 0 || Hot(s, node, code) || Writing(s, code))
    && (forall id :: id in s.requests && s.requests[id] == GetRead(code) ==> count == 0)
  }

  lemma ReaderStepLeads(ttl: Duration, s: State, step: Step, code: string)
    requires OneLeader(s, code) && Enabled(s, step) && ReaderStep(step)
    ensures OneLeader(Apply(ttl, s, step), code)
  {
    if !step.Finish? && !step.Join? {
      ReaderMove(ttl, s, step);
    }
  }

  lemma LeaderStep(ttl: Duration, s: State, step: Step, code: string)
    requires OneLeader(s, code) && Enabled(s, step)
    ensures OneLeader(Apply(ttl, s, step), code)
  {
    if ReaderStep(step) {
      ReaderStepLeads(ttl, s, step, code);
    } else {
      WriterStepFrame(ttl, s, step);
    }
  }

  lemma WriterStepDeletes(ttl: Duration, s: State, step: Step, node: string, code: string)
    requires NoDelete(s, code) && Enabled(s, step) && Calm(s, step, node, code) && !ReaderStep(step)
    ensures NoDelete(Apply(ttl, s, step), code)
  {
    if WorldStep(step) {
      WorldStepFrame(ttl, s, step);
    } else {
      MoveFrame(ttl, s, step);
      var r := Apply(ttl, s, step).requests[step.id];
      assert r.DeleteStart? || r.DeleteCache? ==> r.code != code;
    }
  }

  lemma NoDeleteStep(ttl: Duration, s: State, step: Step, node: string, code: string)
    requires NoDelete(s, code) && Enabled(s, step) && Calm(s, step, node, code)
    ensures NoDelete(Apply(ttl, s, step), code)
  {
    if ReaderStep(step) {
      ReaderStepFrame(ttl, s, step);
    } else {
      WriterStepDeletes(ttl, s, step, node, code);
    }
  }

  lemma HotReaderStep(ttl: Duration, s: State, step: Step, node: string, code: string)
    requires Enabled(s, step) && Hot(s, node, code) && ReaderStep(step)
    ensures Hot(Apply(ttl, s, step), node, code)
  {
  }

  lemma HotWriterStep(ttl: Duration, s: State, step: Step, node: string, code: string)
    requires NoDelete(s, code) && Enabled(s, step) && Hot(s, node, code) && !ReaderStep(step) && !WorldStep(step)
    ensures Hot(Apply(ttl, s, step), node, code)
  {
  }

  /** A cached entry is not lost by a calm step. */
  lemma HotStep(ttl: Duration, s: State, step: Step, node: string, code: string)
    requires NoDelete(s, code) && Enabled(s, step) && Calm(s, step, node, code) && Hot(s, node, code)
    ensures Hot(Apply(ttl, s, step), node, code)
  {
    if ReaderStep(step) {
      HotReaderStep(ttl, s, step, node, code);
    } else if !WorldStep(step) {
      HotWriterStep(ttl, s, step, node, code);
    }
  }

  /** A reader about to fill the cache stays there until it has filled it. */
  lemma WritingStep(ttl: Duration, s: State, step: Step, node: string, code: string)
    requires OneLeader(s, code) && Enabled(s, step) && Calm(s, step, node, code) && Writing(s, code)
    ensures Hot(Apply(ttl, s, step), node, code) || Writing(Apply(ttl, s, step), code)
  {
    var id :| id in s.requests && s.requests[id].GetWrite? && s.requests[id].code == code;
    if !ReaderStep(step) {
      WriterStepFrame(ttl, s, step);
      assert Apply(ttl, s, step).requests[id] == s.requests[id];
    } else if step.id != id {
      assert Apply(ttl, s, step).requests[id] == s.requests[id];
    }
  }

  lemma ReadOnce(ttl: Duration, s: State, step: Step, node: string, code: string, count: nat)
    requires AtMostOnce(s, node, code, count) && Enabled(s, step) && ReadsCode(s, step, code)
    requires Calm(s, step, node, code)
    ensures count == 0 && Writing(Apply(ttl, s, step), code)
  {
    assert s.requests[step.id] == GetRead(code);
    assert Apply(ttl, s, step).requests[step.id].GetWrite?;
  }

  lemma LeaderIsUnique(s: State, code: string, a: nat, b: nat)
    requires OneLeader(s, code) && a in s.requests && b in s.requests
    requires Leading(s.requests[a], code) && Leading(s.requests[b], code)
    ensures a == b
  {
  }

  /** A re-check that misses proves that nobody has read the code before. */
  lemma MissMeansUnread(s: State, node: string, code: string, count: nat, id: nat)
    requires AtMostOnce(s, node, code, count) && id in s.requests && s.requests[id] == GetRecheck(code)
    ensures count == 0 || Hot(s, node, code)
  {
    if Writing(s, code) {
      var w :| w in s.requests && s.requests[w].GetWrite? && s.requests[w].code == code;
      LeaderIsUnique(s, code, w, id);
    }
  }

  /** Where a reader at its database step comes from. */
  lemma ReaderOrigin(ttl: Duration, s: State, step: Step, code: string, id: nat)
    requires Enabled(s, step)
    requires id in Apply(ttl, s, step).requests && Apply(ttl, s, step).requests[id] == GetRead(code)
    ensures id in s.requests
    ensures || (s.requests[id] == GetRead(code) && !(step.ReadDb? && step.id == id))
            || (s.requests[id] == GetRecheck(code) && step.Recheck? && step.id == id
                && CacheGet(s, step.node, code, step.ok).None?)
  {
    if !ReaderStep(step) {
      WriterStepFrame(ttl, s, step);
    }
  }

  /** Only a leader whose re-check missed goes on to read, and then nothing was read before. */
  lemma NewReaderIsFirst(ttl: Duration, s: State, step: Step, node: string, code: string, count: nat, id: nat)
    requires AtMostOnce(s, node, code, count) && Enabled(s, step) && Calm(s, step, node, code)
    requires id in Apply(ttl, s, step).requests && Apply(ttl, s, step).requests[id] == GetRead(code)
    ensures count == 0 && !ReadsCode(s, step, code)
  {
    ReaderOrigin(ttl, s, step, code, id);
    if s.requests[id] == GetRead(code) {
      if ReadsCode(s, step, code) {
        LeaderIsUnique(s, code, step.id, id);
      }
    } else {
      MissMeansUnread(s, node, code, count, id);
    }
  }

  lemma OnceStep(ttl: Duration, s: State, step: Step, node: string, code: string, count: nat)
    requires AtMostOnce(s, node, code, count) && Enabled(s, step) && Calm(s, step, node, code)
    ensures AtMostOnce(Apply(ttl, s, step), node, code, count + if ReadsCode(s, step, code) then 1 else 0)
  {
    var s' := Apply(ttl, s, step);
    LeaderStep(ttl, s, step, code);
    NoDeleteStep(ttl, s, step, node, code);
    if ReadsCode(s, step, code) {
      ReadOnce(ttl, s, step, node, code, count);
    } else if Hot(s, node, code) {
      HotStep(ttl, s, step, node, code);
    } else if Writing(s, code) {
      WritingStep(ttl, s, step, node, code);
    }
    forall id | id in s'.requests && s'.requests[id] == GetRead(code)
      ensures count == 0 && !ReadsCode(s, step, code)
    {
      NewReaderIsFirst(ttl, s, step, node, code, count, id);
    }
  }

  /** However many readers of one code run at once, the database is read for it at most once. */
  lemma {:induction false} StampedeBound(ttl: Duration, states: seq<State>, steps: seq<Step>, node: string,
                                         code: string, n: nat)
    requires Execution(ttl, states, steps) && Quiet(states[0], code) && n <= |steps|
    requires forall i :: 0 <= i < n ==> Calm(states[i], steps[i], node, code)
    ensures Reads(states, steps, code, n) <= 1
    ensures AtMostOnce(states[n], node, code, Reads(states, steps, code, n))
  {
    if n > 0 {
      StampedeBound(ttl, states, steps, node, code, n - 1);
      OnceStep(ttl, states[n - 1], steps[n - 1], node, code, Reads(states, steps, code, n - 1));
    }
  }
}
