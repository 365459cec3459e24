/**
 When the cache agrees with the database although requests interleave: the exact condition on each step,
 and, for every state, whether it can still end with a wrong cache entry that nobody is going to repair.
 */
module CacheCoherence {
  import opened Options
  import opened UrlModel
  import opened CacheProtocol
  import opened CacheRaces

  // ---------------------------------------------------------------- holders and repairers

  /** The value of `code` that a request took to or from the database and has not cached yet. */
  function Held(r: Request, code: string): Option<Option<URL>> {
    match r
    case GetWrite(c, content, _) => if c == code then Some(content) else None
    case CreateWrite(url, _) => if url.shortCode == code then Some(Some(url)) else None
    case _ => None
  }

  predicate LateFor(l: Late, node: string, code: string) {
    l.LateSet? && l.node == node && l.code == code
  }

  /** Nobody is on the way to the cache with a value of `code`. */
  ghost predicate NoHolder(s: State, node: string, code: string) {
    && (forall id :: id in s.requests ==> Held(s.requests[id], code).None?)
    && (forall l :: l in s.late ==> !LateFor(l, node, code))
  }

  /** Everyone on the way to the cache carries what the database holds. */
  ghost predicate Current(s: State, node: string, code: string) {
    && (forall id :: id in s.requests && Held(s.requests[id], code).Some? ==>
          Held(s.requests[id], code).value == Lookup(s.db, code))
    && (forall l :: l in s.late && LateFor(l, node, code) ==> l.content == Lookup(s.db, code))
  }

  /** A request that still has to bring the cache up to date after its own database write. */
  predicate Fixes(r: Request, code: string) {
    (r.CreateWrite? || r.DeleteCache?) && CodeOf(r) == code
  }

  ghost predicate Settled(s: State, code: string) {
    forall id :: id in s.requests ==> !Fixes(s.requests[id], code)
  }

  /** Someone other than `id` still has to bring the cache up to date. */
  ghost predicate FixedByOther(s: State, id: nat, code: string) {
    exists other :: other in s.requests && other != id && Fixes(s.requests[other], code)
  }

  /** A Get that asks the node now is told nothing, or the truth. */
  predicate Agrees(s: State, node: string, code: string) {
    var hit := CacheGet(s, node, code, true);
    hit.Some? ==> hit.value == Lookup(s.db, code)
  }

  ghost predicate Coherent(s: State, node: string, code: string) {
    && Current(s, node, code)
    && (Settled(s, code) ==> Agrees(s, node, code))
  }

  /** What each step may do: a row changes only while nobody holds a value of it; a writer's cache call
      lands on the code's node unless the entry there is right already or another writer follows; a
      change from outside finds no holder and nothing cached. Readers may do, and suffer, anything. */
  ghost predicate RaceFree(s: State, step: Step, node: string, code: string)
    requires Enabled(s, step)
  {
    match step
    case InsertDb(id, ok) => About(s, id, code) && ok && code !in s.db ==> NoHolder(s, node, code)
    case DeleteDb(id, ok) => About(s, id, code) && ok && code in s.db ==> NoHolder(s, node, code)
    case CacheNew(id, n, o) => About(s, id, code) ==> Repairs(s, id, n, o, node, code)
    case Invalidate(id, n, o) => About(s, id, code) ==> Repairs(s, id, n, o, node, code)
    case OutsideWrite(db) =>
      || Lookup(db, code) == Lookup(s.db, code)
      || (NoHolder(s, node, code) && (Settled(s, code) ==> !Hot(s, node, code)))
    case _ => true
  }

  ghost predicate Repairs(s: State, id: nat, n: string, o: Outcome, node: string, code: string) {
    (n == node && o == Landed) || Agrees(s, node, code) || FixedByOther(s, id, code)
  }

  // ---------------------------------------------------------------- one step

  /** One request moves on, and perhaps leaves a late write behind; the row stays. */
  lemma MoveCurrent(s: State, s': State, id: nat, node: string, code: string)
    requires Current(s, node, code) && Lookup(s'.db, code) == Lookup(s.db, code)
    requires id in s'.requests && s'.requests == s.requests[id := s'.requests[id]]
    requires Held(s'.requests[id], code).Some? ==> Held(s'.requests[id], code).value == Lookup(s.db, code)
    requires forall l :: l in s'.late && LateFor(l, node, code) ==> l in s.late || l.content == Lookup(s.db, code)
    ensures Current(s', node, code)
  {
  }

  lemma ReaderStepCurrent(ttl: Duration, s: State, step: Step, node: string, code: string)
    requires Current(s, node, code) && Enabled(s, step) && ReaderStep(step)
    ensures Current(Apply(ttl, s, step), node, code)
  {
    if !step.Finish? {
      ReaderMove(ttl, s, step);
      ReaderCarries(ttl, s, step, node, code);
      MoveCurrent(s, Apply(ttl, s, step), step.id, node, code);
    }
  }

  /** What a Get takes along, or leaves behind as a late write, is what it read. */
  lemma ReaderCarries(ttl: Duration, s: State, step: Step, node: string, code: string)
    requires Current(s, node, code) && Enabled(s, step) && ReaderStep(step) && !step.Finish?
    ensures var s' := Apply(ttl, s, step);
            && step.id in s'.requests
            && (Held(s'.requests[step.id], code).Some? ==>
                  Held(s'.requests[step.id], code).value == Lookup(s.db, code))
            && (forall l :: l in s'.late && LateFor(l, node, code) ==>
                  l in s.late || l.content == Lookup(s.db, code))
  {
    if step.Rewrite? && About(s, step.id, code) {
      assert Held(s.requests[step.id], code).Some?;
    }
  }

  lemma WorldStepCurrent(ttl: Duration, s: State, step: Step, node: string, code: string)
    requires Current(s, node, code) && Enabled(s, step) && RaceFree(s, step, node, code) && WorldStep(step)
    ensures Current(Apply(ttl, s, step), node, code)
  {
    WorldStepFrame(ttl, s, step);
  }

  lemma RepairCurrent(ttl: Duration, s: State, step: Step, node: string, code: string)
    requires Current(s, node, code) && Enabled(s, step) && (step.CacheNew? || step.Invalidate?)
    ensures Current(Apply(ttl, s, step), node, code)
  {
    MoveFrame(ttl, s, step);
    if step.CacheNew? && About(s, step.id, code) {
      assert Held(s.requests[step.id], code).Some?;
    }
    MoveCurrent(s, Apply(ttl, s, step), step.id, node, code);
  }

  lemma RowChangeCurrent(ttl: Duration, s: State, step: Step, node: string, code: string)
    requires Current(s, node, code) && Enabled(s, step) && RaceFree(s, step, node, code)
    requires step.InsertDb? || step.DeleteDb?
    ensures Current(Apply(ttl, s, step), node, code)
  {
    MoveFrame(ttl, s, step);
    var s' := Apply(ttl, s, step);
    if Lookup(s'.db, code) == Lookup(s.db, code) {
      MoveCurrent(s, s', step.id, node, code);
    }
  }

  lemma WriterStepCurrent(ttl: Duration, s: State, step: Step, node: string, code: string)
    requires Current(s, node, code) && Enabled(s, step) && RaceFree(s, step, node, code)
    requires !ReaderStep(step) && !WorldStep(step)
    ensures Current(Apply(ttl, s, step), node, code)
  {
    if step.CacheNew? || step.Invalidate? {
      RepairCurrent(ttl, s, step, node, code);
    } else if step.InsertDb? || step.DeleteDb? {
      RowChangeCurrent(ttl, s, step, node, code);
    }
  }

  lemma RewriteAgrees(ttl: Duration, s: State, step: Step, node: string, code: string)
    requires Current(s, node, code) && Agrees(s, node, code) && Enabled(s, step) && step.Rewrite?
    ensures Agrees(Apply(ttl, s, step), node, code)
  {
    if About(s, step.id, code) {
      assert Held(s.requests[step.id], code).Some?;
    }
  }

  lemma ReaderStepAgrees(ttl: Duration, s: State, step: Step, node: string, code: string)
    requires Coherent(s, node, code) && Enabled(s, step) && ReaderStep(step) && Settled(Apply(ttl, s, step), code)
    ensures Agrees(Apply(ttl, s, step), node, code)
  {
    ReaderStepFrame(ttl, s, step);
    if step.Rewrite? {
      RewriteAgrees(ttl, s, step, node, code);
    }
  }

  lemma OthersUnsettled(ttl: Duration, s: State, step: Step, code: string)
    requires Enabled(s, step) && (step.CacheNew? || step.Invalidate?)
    ensures FixedByOther(s, step.id, code) ==> !Settled(Apply(ttl, s, step), code)
  {
    MoveFrame(ttl, s, step);
    if FixedByOther(s, step.id, code) {
      var other :| other in s.requests && other != step.id && Fixes(s.requests[other], code);
      assert Apply(ttl, s, step).requests[other] == s.requests[other];
    }
  }

  lemma UnrepairedStays(ttl: Duration, s: State, step: Step, node: string, code: string)
    requires Enabled(s, step) && (step.CacheNew? || step.Invalidate?)
    requires step.node != node || step.outcome != Landed
    ensures Agrees(Apply(ttl, s, step), node, code) == Agrees(s, node, code)
  {
  }

  lemma RepairLands(ttl: Duration, s: State, step: Step, node: string, code: string)
    requires Current(s, node, code) && Enabled(s, step) && (step.CacheNew? || step.Invalidate?)
    requires step.node == node && step.outcome == Landed && About(s, step.id, code)
    ensures Agrees(Apply(ttl, s, step), node, code)
  {
    if step.CacheNew? {
      assert Held(s.requests[step.id], code).Some?;
    }
  }

  lemma FixingStepAgrees(ttl: Duration, s: State, step: Step, node: string, code: string)
    requires Current(s, node, code) && Enabled(s, step) && RaceFree(s, step, node, code)
    requires step.CacheNew? || step.Invalidate?
    requires About(s, step.id, code) && Settled(Apply(ttl, s, step), code)
    ensures Agrees(Apply(ttl, s, step), node, code)
  {
    OthersUnsettled(ttl, s, step, code);
    if step.node == node && step.outcome == Landed {
      RepairLands(ttl, s, step, node, code);
    } else {
      UnrepairedStays(ttl, s, step, node, code);
    }
  }

  lemma UnsettledStays(ttl: Duration, s: State, step: Step, code: string)
    requires Enabled(s, step) && !ReaderStep(step)
    requires (step.CacheNew? || step.Invalidate?) ==> !About(s, step.id, code)
    ensures !Settled(s, code) ==> !Settled(Apply(ttl, s, step), code)
  {
    if !Settled(s, code) {
      var id :| id in s.requests && Fixes(s.requests[id], code);
      if WorldStep(step) {
        WorldStepFrame(ttl, s, step);
      } else {
        MoveFrame(ttl, s, step);
      }
      assert Apply(ttl, s, step).requests[id] == s.requests[id];
    }
  }

  lemma WorldStepAgrees(ttl: Duration, s: State, step: Step, node: string, code: string)
    requires Coherent(s, node, code) && Enabled(s, step) && RaceFree(s, step, node, code) && WorldStep(step)
    requires Settled(Apply(ttl, s, step), code)
    ensures Agrees(Apply(ttl, s, step), node, code)
  {
    UnsettledStays(ttl, s, step, code);
  }

  lemma RowStepAgrees(ttl: Duration, s: State, step: Step, node: string, code: string)
    requires Agrees(s, node, code) && Enabled(s, step) && (step.InsertDb? || step.DeleteDb?)
    requires Settled(Apply(ttl, s, step), code)
    ensures Agrees(Apply(ttl, s, step), node, code)
  {
    assert !Fixes(Apply(ttl, s, step).requests[step.id], code);
  }

  lemma WriterStepAgrees(ttl: Duration, s: State, step: Step, node: string, code: string)
    requires Coherent(s, node, code) && Enabled(s, step) && !ReaderStep(step) && !WorldStep(step)
    requires (step.CacheNew? || step.Invalidate?) ==> !About(s, step.id, code)
    requires Settled(Apply(ttl, s, step), code)
    ensures Agrees(Apply(ttl, s, step), node, code)
  {
    UnsettledStays(ttl, s, step, code);
    if step.InsertDb? || step.DeleteDb? {
      RowStepAgrees(ttl, s, step, node, code);
    }
  }

  lemma CoherentStep(ttl: Duration, s: State, step: Step, node: string, code: string)
    requires Coherent(s, node, code) && Enabled(s, step) && RaceFree(s, step, node, code)
    ensures Coherent(Apply(ttl, s, step), node, code)
  {
    if ReaderStep(step) {
      ReaderStepCurrent(ttl, s, step, node, code);
    } else if WorldStep(step) {
      WorldStepCurrent(ttl, s, step, node, code);
    } else {
      WriterStepCurrent(ttl, s, step, node, code);
    }
    if Settled(Apply(ttl, s, step), code) {
      if ReaderStep(step) {
        ReaderStepAgrees(ttl, s, step, node, code);
      } else if (step.CacheNew? || step.Invalidate?) && About(s, step.id, code) {
        FixingStepAgrees(ttl, s, step, node, code);
      } else if WorldStep(step) {
        WorldStepAgrees(ttl, s, step, node, code);
      } else {
        WriterStepAgrees(ttl, s, step, node, code);
      }
    }
  }

  /** A row that changes under a holder leaves the holder with the old value. */
  lemma OverlapLeavesOld(s: State, s': State, node: string, code: string)
    requires Current(s, node, code) && !NoHolder(s, node, code)
    requires Lookup(s'.db, code) != Lookup(s.db, code) && s'.late == s.late
    requires forall id :: id in s.requests && Held(s.requests[id], code).Some? ==>
               id in s'.requests && s'.requests[id] == s.requests[id]
    ensures !Current(s', node, code)
  {
    if l :| l in s.late && LateFor(l, node, code) {
      assert l in s'.late;
    } else {
      var id :| id in s.requests && Held(s.requests[id], code).Some?;
      assert Held(s'.requests[id], code) == Held(s.requests[id], code);
    }
  }

  lemma RacyRowChange(ttl: Duration, s: State, step: Step, node: string, code: string)
    requires Coherent(s, node, code) && Enabled(s, step) && !RaceFree(s, step, node, code)
    requires step.InsertDb? || step.DeleteDb?
    ensures !Coherent(Apply(ttl, s, step), node, code)
  {
    OverlapLeavesOld(s, Apply(ttl, s, step), node, code);
  }

  lemma RacyRepair(ttl: Duration, s: State, step: Step, node: string, code: string)
    requires Enabled(s, step) && !RaceFree(s, step, node, code)
    requires step.CacheNew? || step.Invalidate?
    ensures !Coherent(Apply(ttl, s, step), node, code)
  {
    MoveFrame(ttl, s, step);
    var s' := Apply(ttl, s, step);
    assert !Fixes(s'.requests[step.id], code);
    assert Settled(s', code);
    UnrepairedStays(ttl, s, step, node, code);
  }

  lemma RacyOutsideWrite(ttl: Duration, s: State, step: Step, node: string, code: string)
    requires Coherent(s, node, code) && Enabled(s, step) && !RaceFree(s, step, node, code) && step.OutsideWrite?
    ensures !Coherent(Apply(ttl, s, step), node, code)
  {
    var s' := Apply(ttl, s, step);
    if NoHolder(s, node, code) {
      assert Settled(s', code);
      assert CacheGet(s', node, code, true) == CacheGet(s, node, code, true);
    } else {
      OverlapLeavesOld(s, s', node, code);
    }
  }

  /** From a coherent state, a step keeps coherence exactly when it is race free. */
  lemma CoherentStepIff(ttl: Duration, s: State, step: Step, node: string, code: string)
    requires Coherent(s, node, code) && Enabled(s, step)
    ensures Coherent(Apply(ttl, s, step), node, code) <==> RaceFree(s, step, node, code)
  {
    if RaceFree(s, step, node, code) {
      CoherentStep(ttl, s, step, node, code);
    } else if step.InsertDb? || step.DeleteDb? {
      RacyRowChange(ttl, s, step, node, code);
    } else if step.OutsideWrite? {
      RacyOutsideWrite(ttl, s, step, node, code);
    } else {
      RacyRepair(ttl, s, step, node, code);
    }
  }

  // ---------------------------------------------------------------- where a state can end

  /** `steps` leads from `s` to `end` without a race and without changing the row. */
  ghost predicate Subsides(ttl: Duration, s: State, steps: seq<Step>, end: State, node: string, code: string)
    decreases |steps|
  {
    if steps == [] then s == end
    else
      && Enabled(s, steps[0]) && RaceFree(s, steps[0], node, code)
      && var s' := Apply(ttl, s, steps[0]);
      && Lookup(s'.db, code) == Lookup(s.db, code)
      && Subsides(ttl, s', steps[1..], end, node, code)
  }

  /** Without any further fault or write to the row, every writer can be done and yet the node tells a
      Get something the database does not hold. */
  ghost predicate CanEndStale(ttl: Duration, s: State, node: string, code: string) {
    exists steps: seq<Step>, end: State ::
      Subsides(ttl, s, steps, end, node, code) && Settled(end, code) && !Agrees(end, node, code)
  }

  lemma StaleBefore(ttl: Duration, s: State, step: Step, node: string, code: string)
    requires Enabled(s, step) && RaceFree(s, step, node, code)
    requires Lookup(Apply(ttl, s, step).db, code) == Lookup(s.db, code)
    requires CanEndStale(ttl, Apply(ttl, s, step), node, code)
    ensures CanEndStale(ttl, s, node, code)
  {
    var s' := Apply(ttl, s, step);
    var steps: seq<Step>, end: State :|
      Subsides(ttl, s', steps, end, node, code) && Settled(end, code) && !Agrees(end, node, code);
    assert ([step] + steps)[1..] == steps;
    assert Subsides(ttl, s, [step] + steps, end, node, code);
  }

  lemma StaleNow(ttl: Duration, s: State, node: string, code: string)
    requires Settled(s, code) && !Agrees(s, node, code)
    ensures CanEndStale(ttl, s, node, code)
  {
    assert Subsides(ttl, s, [], s, node, code);
  }

  lemma {:induction false} SubsidesCoherent(ttl: Duration, s: State, steps: seq<Step>, end: State, node: string,
                                            code: string)
    requires Coherent(s, node, code) && Subsides(ttl, s, steps, end, node, code)
    ensures Coherent(end, node, code)
    decreases |steps|
  {
    if steps != [] {
      CoherentStep(ttl, s, steps[0], node, code);
      SubsidesCoherent(ttl, Apply(ttl, s, steps[0]), steps[1..], end, node, code);
    }
  }

  function Fixers(s: State, code: string): set<nat> {
    set id | id in s.requests && Fixes(s.requests[id], code)
  }

  /** The cache call a repairer makes, when it lands. */
  function Fix(s: State, id: nat, node: string): Step
    requires id in s.requests
  {
    if s.requests[id].CreateWrite? then CacheNew(id, node, Landed) else Invalidate(id, node, Landed)
  }

  lemma FixDone(ttl: Duration, s: State, id: nat, node: string, code: string)
    requires id in s.requests && Fixes(s.requests[id], code)
    ensures Enabled(s, Fix(s, id, node)) && RaceFree(s, Fix(s, id, node), node, code)
    ensures var s' := Apply(ttl, s, Fix(s, id, node));
            && s'.db == s.db && s'.late == s.late
            && id in s'.requests && s'.requests == s.requests[id := s'.requests[id]]
            && Fixers(s', code) == Fixers(s, code) - {id}
  {
  }

  /** Once every writer is done, the holder of an old value has the last word. */
  lemma {:induction false} HolderHasLastWord(ttl: Duration, s: State, holder: nat, node: string, code: string)
    requires holder in s.requests && Held(s.requests[holder], code).Some?
    requires Held(s.requests[holder], code).value != Lookup(s.db, code)
    ensures CanEndStale(ttl, s, node, code)
    decreases |Fixers(s, code)|
  {
    if id :| id in Fixers(s, code) && id != holder {
      FixDone(ttl, s, id, node, code);
      var s' := Apply(ttl, s, Fix(s, id, node));
      assert |Fixers(s', code)| < |Fixers(s, code)|;
      HolderHasLastWord(ttl, s', holder, node, code);
      StaleBefore(ttl, s, Fix(s, id, node), node, code);
    } else {
      assert forall id :: id in s.requests && Fixes(s.requests[id], code) ==> id in Fixers(s, code);
      HolderWrites(ttl, s, holder, node, code);
    }
  }

  lemma HolderWrites(ttl: Duration, s: State, holder: nat, node: string, code: string)
    requires holder in s.requests && Held(s.requests[holder], code).Some?
    requires Held(s.requests[holder], code).value != Lookup(s.db, code)
    requires forall id :: id in s.requests && id != holder ==> !Fixes(s.requests[id], code)
    ensures CanEndStale(ttl, s, node, code)
  {
    var step := if s.requests[holder].GetWrite? then Rewrite(holder, node, Landed) else CacheNew(holder, node, Landed);
    var s' := Apply(ttl, s, step);
    assert !Agrees(s', node, code);
    assert Settled(s', code);
    StaleNow(ttl, s', node, code);
    StaleBefore(ttl, s, step, node, code);
  }

  lemma {:induction false} LateHasLastWord(ttl: Duration, s: State, l: Late, node: string, code: string)
    requires l in s.late && LateFor(l, node, code) && l.content != Lookup(s.db, code)
    ensures CanEndStale(ttl, s, node, code)
    decreases |Fixers(s, code)|
  {
    if id :| id in Fixers(s, code) {
      FixDone(ttl, s, id, node, code);
      var s' := Apply(ttl, s, Fix(s, id, node));
      assert |Fixers(s', code)| < |Fixers(s, code)|;
      LateHasLastWord(ttl, s', l, node, code);
      StaleBefore(ttl, s, Fix(s, id, node), node, code);
    } else {
      var s' := Apply(ttl, s, LandLate(l));
      assert forall id :: id in s.requests ==> id !in Fixers(s, code);
      assert !Agrees(s', node, code);
      StaleNow(ttl, s', node, code);
      StaleBefore(ttl, s, LandLate(l), node, code);
    }
  }

  /** In every state, reachable or not: the cache can end wrong exactly when coherence is broken. */
  lemma StaleIffIncoherent(ttl: Duration, s: State, node: string, code: string)
    ensures CanEndStale(ttl, s, node, code) <==> !Coherent(s, node, code)
  {
    if CanEndStale(ttl, s, node, code) {
      var steps: seq<Step>, end: State :|
        Subsides(ttl, s, steps, end, node, code) && Settled(end, code) && !Agrees(end, node, code);
      if Coherent(s, node, code) {
        SubsidesCoherent(ttl, s, steps, end, node, code);
      }
    } else if !Current(s, node, code) {
      if l :| l in s.late && LateFor(l, node, code) && l.content != Lookup(s.db, code) {
        LateHasLastWord(ttl, s, l, node, code);
      } else {
        var id :| id in s.requests && Held(s.requests[id], code).Some?
                  && Held(s.requests[id], code).value != Lookup(s.db, code);
        HolderHasLastWord(ttl, s, id, node, code);
      }
    } else if !Coherent(s, node, code) {
      StaleNow(ttl, s, node, code);
    }
  }

  /** Changing the row of a coherent state can end stale exactly when someone, a Get, a Create or a late
      write, is then on the way to the cache with the old value. */
  lemma OverlapGoesStaleIff(ttl: Duration, s: State, step: Step, node: string, code: string)
    requires Coherent(s, node, code) && Enabled(s, step) && (step.InsertDb? || step.DeleteDb?)
    requires Lookup(Apply(ttl, s, step).db, code) != Lookup(s.db, code)
    ensures CanEndStale(ttl, Apply(ttl, s, step), node, code) <==> !NoHolder(s, node, code)
  {
    CoherentStepIff(ttl, s, step, node, code);
    StaleIffIncoherent(ttl, Apply(ttl, s, step), node, code);
  }

  // ---------------------------------------------------------------- whole runs

  /** Without a race, once no writer is between its database and its cache call, the node tells every Get
      what the database holds, or nothing. */
  lemma {:induction false} RaceFreeCoherence(ttl: Duration, states: seq<State>, steps: seq<Step>, node: string,
                                             code: string, n: nat)
    requires Execution(ttl, states, steps) && n <= |steps|
    requires Coherent(states[0], node, code)
    requires forall i :: 0 <= i < n ==> RaceFree(states[i], steps[i], node, code)
    ensures Coherent(states[n], node, code)
  {
    if n > 0 {
      RaceFreeCoherence(ttl, states, steps, node, code, n - 1);
      CoherentStep(ttl, states[n - 1], steps[n - 1], node, code);
    }
  }

  /** A run is race free exactly when none of its states can end stale. */
  lemma RaceIff(ttl: Duration, states: seq<State>, steps: seq<Step>, node: string, code: string)
    requires Execution(ttl, states, steps) && Coherent(states[0], node, code)
    ensures (forall i :: 0 <= i < |steps| ==> RaceFree(states[i], steps[i], node, code)) <==>
            (forall i :: 0 <= i < |states| ==> !CanEndStale(ttl, states[i], node, code))
  {
    forall i | 0 <= i < |states|
      ensures CanEndStale(ttl, states[i], node, code) <==> !Coherent(states[i], node, code)
    {
      StaleIffIncoherent(ttl, states[i], node, code);
    }
    if forall i :: 0 <= i < |steps| ==> RaceFree(states[i], steps[i], node, code) {
      forall i | 0 <= i < |states|
        ensures Coherent(states[i], node, code)
      {
        RaceFreeCoherence(ttl, states, steps, node, code, i);
      }
    } else {
      var i :| 0 <= i < |steps| && !RaceFree(states[i], steps[i], node, code);
      if Coherent(states[i], node, code) {
        CoherentStepIff(ttl, states[i], steps[i], node, code);
        assert CanEndStale(ttl, states[i + 1], node, code);
      }
    }
  }
}
