/**
 What a Get that starts when no writer is at work can be told. An answer comes from the code's node or from
 a flight, so besides the cache entry it matters what the flights carry: a flight outlives its cache write,
 and a Get that joins it in between shares an answer obtained before it started.
 */
module CacheAnswers {
  import opened Options
  import opened UrlModel
  import opened CacheProtocol
  import opened CacheRaces
  import opened CacheCoherence
  import CacheStaleness

  // ---------------------------------------------------------------- what flights carry

  /** The answer a flight for `code` is about to hand out. */
  predicate Carries(r: Request, code: string) {
    r.GetFinish? && r.code == code && r.reply.Content?
  }

  ghost predicate FlightsCurrent(s: State, code: string) {
    forall id :: id in s.requests && Carries(s.requests[id], code) ==>
      s.requests[id].reply.content == Lookup(s.db, code)
  }

  ghost predicate NoAnswer(s: State, code: string) {
    forall id :: id in s.requests ==> !Carries(s.requests[id], code)
  }

  /** Whoever is registered for a flight leads it, and nobody else does. */
  ghost predicate WellLed(s: State, code: string) {
    && OneLeader(s, code)
    && (code in s.flights ==> s.flights[code] in s.requests && Leading(s.requests[s.flights[code]], code))
  }

  /** Node, holders and flights all say what the database says. */
  ghost predicate Truthful(s: State, node: string, code: string) {
    Current(s, node, code) && Agrees(s, node, code) && FlightsCurrent(s, code)
  }

  /** The same, except that a writer at work may still have to put the node right. */
  ghost predicate Good(s: State, node: string, code: string) {
    Coherent(s, node, code) && FlightsCurrent(s, code)
  }

  // ---------------------------------------------------------------- being told something wrong

  /** Lookups of `code` go to its node. */
  predicate OnNode(s: State, step: Step, node: string, code: string) {
    (step.Probe? || step.Recheck?) && About(s, step.id, code) ==> step.node == node
  }

  /** `steps` leads from `s` to `end` with all lookups on the node, without a race and without changing the row. */
  ghost predicate Quietly(ttl: Duration, s: State, steps: seq<Step>, end: State, node: string, code: string)
    decreases |steps|
  {
    if steps == [] then s == end
    else Quiet(ttl, s, steps[0], node, code) && Quietly(ttl, Apply(ttl, s, steps[0]), steps[1..], end, node, code)
  }

  ghost predicate Quiet(ttl: Duration, s: State, step: Step, node: string, code: string) {
    && Enabled(s, step) && RaceFree(s, step, node, code) && OnNode(s, step, node, code)
    && Lookup(Apply(ttl, s, step).db, code) == Lookup(s.db, code)
  }

  /** Request `id` has been told something the database does not hold. */
  predicate ToldWrong(s: State, id: nat, code: string) {
    && id in s.requests && s.requests[id].Done? && s.requests[id].code == code
    && s.requests[id].reply.Content? && s.requests[id].reply.content != Lookup(s.db, code)
  }

  /** A request that has not started in `s` is told something wrong. */
  ghost predicate NewcomerToldWrong(ttl: Duration, s: State, node: string, code: string) {
    exists steps: seq<Step>, end: State, id: nat ::
      id !in s.requests && Quietly(ttl, s, steps, end, node, code) && ToldWrong(end, id, code)
  }

  /** Without any further write to the row, all writers can be done and a Get that starts only then is told
      something the database does not hold. */
  ghost predicate CanServeStale(ttl: Duration, s: State, node: string, code: string) {
    exists steps: seq<Step>, mid: State ::
      Quietly(ttl, s, steps, mid, node, code) && Settled(mid, code) && NewcomerToldWrong(ttl, mid, node, code)
  }

  // ---------------------------------------------------------------- leaders

  lemma LedByReader(ttl: Duration, s: State, step: Step, code: string)
    requires WellLed(s, code) && Enabled(s, step) && ReaderStep(step) && code in Apply(ttl, s, step).flights
    ensures var s' := Apply(ttl, s, step);
            s'.flights[code] in s'.requests && Leading(s'.requests[s'.flights[code]], code)
  {
    if !step.Finish? && !step.Join? {
      ReaderMove(ttl, s, step);
    }
  }

  lemma WellLedStep(ttl: Duration, s: State, step: Step, code: string)
    requires WellLed(s, code) && Enabled(s, step)
    ensures WellLed(Apply(ttl, s, step), code)
  {
    LeaderStep(ttl, s, step, code);
    if !ReaderStep(step) {
      WriterStepFrame(ttl, s, step);
    } else if code in Apply(ttl, s, step).flights {
      LedByReader(ttl, s, step, code);
    }
  }

  // ---------------------------------------------------------------- one step

  /** The steps that change the row. */
  predicate Changes(s: State, step: Step, code: string)
    requires Enabled(s, step)
  {
    match step
    case InsertDb(id, ok) => About(s, id, code) && ok && code !in s.db
    case DeleteDb(id, ok) => About(s, id, code) && ok && code in s.db
    case OutsideWrite(db) => Lookup(db, code) != Lookup(s.db, code)
    case _ => false
  }

  lemma ChangesIff(ttl: Duration, s: State, step: Step, code: string)
    requires Enabled(s, step)
    ensures Changes(s, step, code) <==> Lookup(Apply(ttl, s, step).db, code) != Lookup(s.db, code)
  {
    if ReaderStep(step) {
      ReaderStepFrame(ttl, s, step);
    }
  }

  /** A flight's re-check of `code` finds nothing, or the truth. */
  predicate FindsTruth(s: State, step: Step, code: string) {
    step.Recheck? && About(s, step.id, code) ==>
      var hit := CacheGet(s, step.node, code, step.ok);
      hit.Some? ==> hit.value == Lookup(s.db, code)
  }

  lemma ReaderStepFlights(ttl: Duration, s: State, step: Step, node: string, code: string)
    requires Current(s, node, code) && FlightsCurrent(s, code) && Enabled(s, step) && ReaderStep(step)
    ensures FlightsCurrent(Apply(ttl, s, step), code) <==> FindsTruth(s, step, code)
  {
    if !step.Finish? {
      ReaderMove(ttl, s, step);
    }
    if step.Rewrite? && About(s, step.id, code) {
      assert Held(s.requests[step.id], code).Some?;
    }
    if FindsTruth(s, step, code) {
    } else {
      assert Carries(Apply(ttl, s, step).requests[step.id], code);
    }
  }

  lemma OtherStepFlights(ttl: Duration, s: State, step: Step, code: string)
    requires FlightsCurrent(s, code) && Enabled(s, step) && !ReaderStep(step)
    ensures FlightsCurrent(Apply(ttl, s, step), code) <==> (Changes(s, step, code) ==> NoAnswer(s, code))
  {
    var s' := Apply(ttl, s, step);
    WriterStepFrame(ttl, s, step);
    ChangesIff(ttl, s, step, code);
    if !NoAnswer(s, code) {
      var id :| id in s.requests && Carries(s.requests[id], code);
      assert s'.requests[id] == s.requests[id];
    }
  }

  /** Flights stay current exactly when the row does not change while one carries an answer, and no re-check
      picks up an untruth. */
  lemma FlightsStepIff(ttl: Duration, s: State, step: Step, node: string, code: string)
    requires Current(s, node, code) && FlightsCurrent(s, code) && Enabled(s, step)
    ensures FlightsCurrent(Apply(ttl, s, step), code) <==>
            (Changes(s, step, code) ==> NoAnswer(s, code)) && FindsTruth(s, step, code)
  {
    if ReaderStep(step) {
      ReaderStepFlights(ttl, s, step, node, code);
    } else {
      OtherStepFlights(ttl, s, step, code);
    }
  }

  /** While the row stays, the node goes on telling the truth. */
  lemma AgreesStep(ttl: Duration, s: State, step: Step, node: string, code: string)
    requires Current(s, node, code) && Agrees(s, node, code) && Enabled(s, step) && !Changes(s, step, code)
    ensures Agrees(Apply(ttl, s, step), node, code)
  {
    if step.Rewrite? {
      RewriteAgrees(ttl, s, step, node, code);
    } else if step.CacheNew? || step.Invalidate? {
      RepairAgrees(ttl, s, step, node, code);
    } else if WorldStep(step) {
    } else {
      ChangesIff(ttl, s, step, code);
    }
  }

  lemma RepairAgrees(ttl: Duration, s: State, step: Step, node: string, code: string)
    requires Current(s, node, code) && Agrees(s, node, code) && Enabled(s, step)
    requires step.CacheNew? || step.Invalidate?
    ensures Agrees(Apply(ttl, s, step), node, code)
  {
    if step.node == node && step.outcome == Landed {
      if About(s, step.id, code) {
        RepairLands(ttl, s, step, node, code);
      }
    } else {
      UnrepairedStays(ttl, s, step, node, code);
    }
  }

  // ---------------------------------------------------------------- exact conditions on a step

  /** Also no flight carries an answer when the row changes, and no re-check hits an entry that a writer at
      work has yet to repair. */
  ghost predicate Safe(s: State, step: Step, node: string, code: string)
    requires Enabled(s, step)
  {
    && RaceFree(s, step, node, code)
    && (Changes(s, step, code) ==> NoAnswer(s, code))
    && FindsTruth(s, step, code)
  }

  lemma GoodStepIff(ttl: Duration, s: State, step: Step, node: string, code: string)
    requires Good(s, node, code) && Enabled(s, step)
    ensures Good(Apply(ttl, s, step), node, code) <==> Safe(s, step, node, code)
  {
    CoherentStepIff(ttl, s, step, node, code);
    FlightsStepIff(ttl, s, step, node, code);
  }

  /** The row changes only while it is not cached, nobody holds a value of it and no flight carries one. */
  ghost predicate Clear(s: State, step: Step, node: string, code: string)
    requires Enabled(s, step)
  {
    && (Changes(s, step, code) ==> NoHolder(s, node, code) && NoAnswer(s, code) && !Hot(s, node, code))
    && FindsTruth(s, step, code)
  }

  lemma TruthfulStepIff(ttl: Duration, s: State, step: Step, node: string, code: string)
    requires Truthful(s, node, code) && Enabled(s, step)
    ensures Truthful(Apply(ttl, s, step), node, code) <==> Clear(s, step, node, code)
  {
    FlightsStepIff(ttl, s, step, node, code);
    if Changes(s, step, code) {
      RowChangeTruthful(ttl, s, step, node, code);
    } else {
      AgreesStep(ttl, s, step, node, code);
      CoherentStepIff(ttl, s, step, node, code);
    }
  }

  lemma RowChangeTruthful(ttl: Duration, s: State, step: Step, node: string, code: string)
    requires Truthful(s, node, code) && Enabled(s, step) && Changes(s, step, code)
    ensures var s' := Apply(ttl, s, step);
            Current(s', node, code) && Agrees(s', node, code) <==> NoHolder(s, node, code) && !Hot(s, node, code)
  {
    var s' := Apply(ttl, s, step);
    ChangesIff(ttl, s, step, code);
    assert CacheGet(s', node, code, true) == CacheGet(s, node, code, true);
    assert Agrees(s', node, code) <==> !Hot(s, node, code);
    if !NoHolder(s, node, code) {
      HoldersStay(ttl, s, step, node, code);
      OverlapLeavesOld(s, s', node, code);
    } else if !Hot(s, node, code) {
      CoherentStepIff(ttl, s, step, node, code);
    }
  }

  lemma HoldersStay(ttl: Duration, s: State, step: Step, node: string, code: string)
    requires Enabled(s, step) && Changes(s, step, code)
    ensures var s' := Apply(ttl, s, step);
            && s'.late == s.late
            && forall id :: id in s.requests && Held(s.requests[id], code).Some? ==>
                 id in s'.requests && s'.requests[id] == s.requests[id]
  {
    if WorldStep(step) {
      WorldStepFrame(ttl, s, step);
    } else {
      MoveFrame(ttl, s, step);
    }
  }

  // ---------------------------------------------------------------- the truth stays the truth

  lemma QuietStepTruthful(ttl: Duration, s: State, step: Step, node: string, code: string)
    requires Truthful(s, node, code) && Quiet(ttl, s, step, node, code)
    ensures Truthful(Apply(ttl, s, step), node, code)
  {
    ChangesIff(ttl, s, step, code);
    if step.Recheck? && About(s, step.id, code) {
      assert CacheGet(s, node, code, step.ok).Some? ==>
               CacheGet(s, node, code, step.ok) == CacheGet(s, node, code, true);
    }
    TruthfulStepIff(ttl, s, step, node, code);
  }

  lemma DoneStays(ttl: Duration, s: State, step: Step, id: nat)
    requires Enabled(s, step) && id in s.requests && s.requests[id].Done?
    ensures id in Apply(ttl, s, step).requests && Apply(ttl, s, step).requests[id] == s.requests[id]
  {
    if WorldStep(step) {
      WorldStepFrame(ttl, s, step);
    } else if !ReaderStep(step) {
      MoveFrame(ttl, s, step);
    } else if !step.Finish? {
      ReaderMove(ttl, s, step);
    }
  }

  lemma ToldRight(ttl: Duration, s: State, step: Step, node: string, code: string, id: nat)
    requires Truthful(s, node, code) && Quiet(ttl, s, step, node, code) && !ToldWrong(s, id, code)
    ensures !ToldWrong(Apply(ttl, s, step), id, code)
  {
    var s' := Apply(ttl, s, step);
    if id in s.requests && s.requests[id].Done? {
      DoneStays(ttl, s, step, id);
    } else if id in s'.requests && s'.requests[id].Done? && s'.requests[id].reply.Content? {
      CacheStaleness.AnsweredBy(ttl, s, step, id);
      if step.Probe? && s'.requests[id].code == code {
        ProbedOnNode(ttl, s, step, node, code, id);
      } else if step.Finish? && s'.requests[id].code == code {
        assert Carries(s.requests[step.id], code);
      }
    }
  }

  lemma ProbedOnNode(ttl: Duration, s: State, step: Step, node: string, code: string, id: nat)
    requires Quiet(ttl, s, step, node, code) && step.Probe? && CacheStaleness.Answers(ttl, s, step, id)
    requires Apply(ttl, s, step).requests[id].code == code
    ensures step.node == node
  {
    ReaderMove(ttl, s, step);
    assert id == step.id;
  }

  lemma {:induction false} NeverToldWrong(ttl: Duration, s: State, steps: seq<Step>, end: State, node: string,
                                          code: string, id: nat)
    requires Truthful(s, node, code) && Quietly(ttl, s, steps, end, node, code) && !ToldWrong(s, id, code)
    ensures Truthful(end, node, code) && !ToldWrong(end, id, code)
    decreases |steps|
  {
    if steps != [] {
      QuietStepTruthful(ttl, s, steps[0], node, code);
      ToldRight(ttl, s, steps[0], node, code, id);
      NeverToldWrong(ttl, Apply(ttl, s, steps[0]), steps[1..], end, node, code, id);
    }
  }

  // ---------------------------------------------------------------- an untruth gets out

  lemma StaleBeforehand(ttl: Duration, s: State, step: Step, node: string, code: string)
    requires Quiet(ttl, s, step, node, code) && CanServeStale(ttl, Apply(ttl, s, step), node, code)
    ensures CanServeStale(ttl, s, node, code)
  {
    var steps: seq<Step>, mid: State :|
      Quietly(ttl, Apply(ttl, s, step), steps, mid, node, code) && Settled(mid, code)
      && NewcomerToldWrong(ttl, mid, node, code);
    QuietThen(ttl, s, step, steps, mid, node, code);
  }

  lemma QuietThen(ttl: Duration, s: State, step: Step, rest: seq<Step>, end: State, node: string, code: string)
    requires Quiet(ttl, s, step, node, code) && Quietly(ttl, Apply(ttl, s, step), rest, end, node, code)
    ensures Quietly(ttl, s, [step] + rest, end, node, code)
  {
    assert ([step] + rest)[1..] == rest;
  }

  lemma {:induction false} QuietlyIsPath(ttl: Duration, s: State, steps: seq<Step>, end: State, node: string,
                                         code: string)
    requires Quietly(ttl, s, steps, end, node, code)
    ensures Path(ttl, s, steps, end)
    decreases |steps|
  {
    if steps != [] {
      QuietlyIsPath(ttl, Apply(ttl, s, steps[0]), steps[1..], end, node, code);
    }
  }

  /** There is always another request. */
  lemma {:induction false} Fresh(ids: set<nat>) returns (id: nat)
    ensures forall i :: i in ids ==> i < id
    decreases |ids|
  {
    if ids == {} {
      id := 0;
    } else {
      var i :| i in ids;
      var rest := Fresh(ids - {i});
      id := if i < rest then rest else i + 1;
      assert forall j :: j in ids ==> j == i || j in ids - {i};
    }
  }

  /** A Get that misses while a flight is about to end. */
  function JoinSteps(id: nat, leader: nat, node: string, code: string): seq<Step> {
    [Begin(id, GetStart(code))] + ([Probe(id, node, true)] + WaitSteps(id, leader))
  }

  function WaitSteps(id: nat, leader: nat): seq<Step> {
    [Join(id)] + ([Finish(leader)] + [])
  }

  lemma {:induction false} Waits(ttl: Duration, s: State, leader: nat, id: nat, node: string, code: string)
      returns (end: State)
    requires leader in s.requests && Carries(s.requests[leader], code) && code in s.flights
    requires id in s.requests && s.requests[id] == GetJoin(code)
    ensures Quietly(ttl, s, WaitSteps(id, leader), end, node, code)
    ensures end.db == s.db && id in end.requests
    ensures end.requests[id] == Done(code, s.requests[leader].reply, s.clock)
  {
    var s1 := Goto(s, id, GetWait(code));
    end := Apply(ttl, s1, Finish(leader));
    QuietThen(ttl, s1, Finish(leader), [], end, node, code);
    QuietThen(ttl, s, Join(id), [Finish(leader)] + [], end, node, code);
  }

  /** When the code is not cached, a newcomer joins the flight and shares its answer. */
  lemma {:induction false} Joins(ttl: Duration, s: State, leader: nat, id: nat, node: string, code: string)
      returns (end: State)
    requires leader in s.requests && Carries(s.requests[leader], code) && code in s.flights && id !in s.requests
    requires CacheGet(s, node, code, true).None?
    ensures Quietly(ttl, s, JoinSteps(id, leader, node, code), end, node, code)
    ensures end.db == s.db && id in end.requests
    ensures end.requests[id] == Done(code, s.requests[leader].reply, s.clock)
  {
    var s1, s2 := Goto(s, id, GetStart(code)), Goto(s, id, GetJoin(code));
    assert CacheGet(s1, node, code, true).None?;
    assert Goto(s1, id, GetJoin(code)) == s2;
    end := Waits(ttl, s2, leader, id, node, code);
    QuietThen(ttl, s1, Probe(id, node, true), WaitSteps(id, leader), end, node, code);
    QuietThen(ttl, s, Begin(id, GetStart(code)), [Probe(id, node, true)] + WaitSteps(id, leader), end, node, code);
  }

  /** Once the entry has expired, a newcomer shares the answer of a flight that still carries one. */
  lemma NewcomerShares(ttl: Duration, s: State, leader: nat, node: string, code: string)
    requires WellLed(s, code) && leader in s.requests && Carries(s.requests[leader], code)
    requires s.requests[leader].reply.content != Lookup(s.db, code)
    ensures NewcomerToldWrong(ttl, s, node, code)
  {
    var id := Fresh(s.requests.Keys);
    var ms := if (node, code) in s.cache then s.cache[(node, code)].expiresAt else 0;
    var s1 := Apply(ttl, s, Tick(ms));
    assert Leading(s.requests[leader], code);
    var end := Joins(ttl, s1, leader, id, node, code);
    QuietThen(ttl, s, Tick(ms), JoinSteps(id, leader, node, code), end, node, code);
    assert ToldWrong(end, id, code);
  }

  /** All writers can finish while a flight goes on carrying its answer. */
  lemma {:induction false} FlightServes(ttl: Duration, s: State, leader: nat, node: string, code: string)
    requires WellLed(s, code) && leader in s.requests && Carries(s.requests[leader], code)
    requires s.requests[leader].reply.content != Lookup(s.db, code)
    ensures CanServeStale(ttl, s, node, code)
    decreases |Fixers(s, code)|
  {
    if id :| id in Fixers(s, code) {
      var step := Fix(s, id, node);
      FixDone(ttl, s, id, node, code);
      WellLedStep(ttl, s, step, code);
      assert |Fixers(Apply(ttl, s, step), code)| < |Fixers(s, code)|;
      FlightServes(ttl, Apply(ttl, s, step), leader, node, code);
      StaleBeforehand(ttl, s, step, node, code);
    } else {
      assert forall id :: id in s.requests && Fixes(s.requests[id], code) ==> id in Fixers(s, code);
      NewcomerShares(ttl, s, leader, node, code);
      assert Quietly(ttl, s, [], s, node, code);
    }
  }

  /** A leader's re-check picks up the entry, whoever is about to repair it. */
  lemma RecheckServes(ttl: Duration, s: State, id: nat, node: string, code: string)
    requires WellLed(s, code) && !Agrees(s, node, code) && id in s.requests && s.requests[id] == GetRecheck(code)
    ensures CanServeStale(ttl, s, node, code)
  {
    var step := Recheck(id, node, true);
    WellLedStep(ttl, s, step, code);
    FlightServes(ttl, Apply(ttl, s, step), id, node, code);
    StaleBeforehand(ttl, s, step, node, code);
  }

  lemma JoinServes(ttl: Duration, s: State, id: nat, node: string, code: string)
    requires WellLed(s, code) && !Agrees(s, node, code) && code !in s.flights
    requires id in s.requests && s.requests[id] == GetJoin(code)
    ensures CanServeStale(ttl, s, node, code)
  {
    WellLedStep(ttl, s, Join(id), code);
    RecheckServes(ttl, Apply(ttl, s, Join(id)), id, node, code);
    StaleBeforehand(ttl, s, Join(id), node, code);
  }

  /** With no flight under way, a Get whose first lookup fails leads one. */
  lemma NewFlightServes(ttl: Duration, s: State, node: string, code: string)
    requires WellLed(s, code) && !Agrees(s, node, code) && code !in s.flights
    ensures CanServeStale(ttl, s, node, code)
  {
    var id := Fresh(s.requests.Keys);
    var s1 := Apply(ttl, s, Begin(id, GetStart(code)));
    WellLedStep(ttl, s, Begin(id, GetStart(code)), code);
    WellLedStep(ttl, s1, Probe(id, node, false), code);
    JoinServes(ttl, Apply(ttl, s1, Probe(id, node, false)), id, node, code);
    StaleBeforehand(ttl, s1, Probe(id, node, false), node, code);
    StaleBeforehand(ttl, s, Begin(id, GetStart(code)), node, code);
  }

  /** A flight that is over makes way for another. */
  lemma NextFlightServes(ttl: Duration, s: State, id: nat, node: string, code: string)
    requires WellLed(s, code) && !Agrees(s, node, code)
    requires id in s.requests && s.requests[id].GetFinish? && s.requests[id].code == code
    ensures CanServeStale(ttl, s, node, code)
  {
    WellLedStep(ttl, s, Finish(id), code);
    NewFlightServes(ttl, Apply(ttl, s, Finish(id)), node, code);
    StaleBeforehand(ttl, s, Finish(id), node, code);
  }

  lemma EntryServes(ttl: Duration, s: State, node: string, code: string)
    requires WellLed(s, code) && !Agrees(s, node, code)
    ensures CanServeStale(ttl, s, node, code)
  {
    if code !in s.flights {
      NewFlightServes(ttl, s, node, code);
    } else {
      var id := s.flights[code];
      match s.requests[id]
      case GetRecheck(_) => RecheckServes(ttl, s, id, node, code);
      case GetFinish(_, _, _) => NextFlightServes(ttl, s, id, node, code);
      case GetRead(_) => LeaderGivesUp(ttl, s, id, ReadDb(id, false), node, code);
      case GetWrite(_, _, _) => LeaderGivesUp(ttl, s, id, Rewrite(id, node, Lost), node, code);
    }
  }

  /** A leader whose database read or cache write fails leaves the entry as it is. */
  lemma LeaderGivesUp(ttl: Duration, s: State, id: nat, step: Step, node: string, code: string)
    requires WellLed(s, code) && !Agrees(s, node, code) && Enabled(s, step) && About(s, id, code)
    requires step == ReadDb(id, false) || step == Rewrite(id, node, Lost)
    ensures CanServeStale(ttl, s, node, code)
  {
    WellLedStep(ttl, s, step, code);
    NextFlightServes(ttl, Apply(ttl, s, step), id, node, code);
    StaleBeforehand(ttl, s, step, node, code);
  }

  lemma HolderServes(ttl: Duration, s: State, holder: nat, node: string, code: string)
    requires WellLed(s, code) && holder in s.requests && Held(s.requests[holder], code).Some?
    requires Held(s.requests[holder], code).value != Lookup(s.db, code)
    ensures CanServeStale(ttl, s, node, code)
  {
    var step := if s.requests[holder].GetWrite? then Rewrite(holder, node, Landed) else CacheNew(holder, node, Landed);
    WellLedStep(ttl, s, step, code);
    EntryServes(ttl, Apply(ttl, s, step), node, code);
    StaleBeforehand(ttl, s, step, node, code);
  }

  lemma LateServes(ttl: Duration, s: State, l: Late, node: string, code: string)
    requires WellLed(s, code) && l in s.late && LateFor(l, node, code) && l.content != Lookup(s.db, code)
    ensures CanServeStale(ttl, s, node, code)
  {
    WellLedStep(ttl, s, LandLate(l), code);
    EntryServes(ttl, Apply(ttl, s, LandLate(l)), node, code);
    StaleBeforehand(ttl, s, LandLate(l), node, code);
  }

  lemma UntruthServes(ttl: Duration, s: State, node: string, code: string)
    requires WellLed(s, code) && !Truthful(s, node, code)
    ensures CanServeStale(ttl, s, node, code)
  {
    if !Agrees(s, node, code) {
      EntryServes(ttl, s, node, code);
    } else if !FlightsCurrent(s, code) {
      var id :| id in s.requests && Carries(s.requests[id], code)
                && s.requests[id].reply.content != Lookup(s.db, code);
      FlightServes(ttl, s, id, node, code);
    } else if l :| l in s.late && LateFor(l, node, code) && l.content != Lookup(s.db, code) {
      LateServes(ttl, s, l, node, code);
    } else {
      var id :| id in s.requests && Held(s.requests[id], code).Some?
                && Held(s.requests[id], code).value != Lookup(s.db, code);
      HolderServes(ttl, s, id, node, code);
    }
  }

  // ---------------------------------------------------------------- exact conditions

  /** In every state: a Get that starts after all writers are done can be told something wrong exactly when
      the node, a holder or a flight does not say what the database says. */
  lemma ServesStaleIff(ttl: Duration, s: State, node: string, code: string)
    requires WellLed(s, code)
    ensures CanServeStale(ttl, s, node, code) <==> !Truthful(s, node, code)
  {
    if !Truthful(s, node, code) {
      UntruthServes(ttl, s, node, code);
    } else if CanServeStale(ttl, s, node, code) {
      var before: seq<Step>, mid: State :|
        Quietly(ttl, s, before, mid, node, code) && Settled(mid, code) && NewcomerToldWrong(ttl, mid, node, code);
      var steps: seq<Step>, end: State, id: nat :|
        id !in mid.requests && Quietly(ttl, mid, steps, end, node, code) && ToldWrong(end, id, code);
      var stranger := Fresh(s.requests.Keys);
      NeverToldWrong(ttl, s, before, mid, node, code, stranger);
      NeverToldWrong(ttl, mid, steps, end, node, code, id);
    }
  }

  /** When no writer is at work, a new Get can be told something wrong exactly when coherence is broken or a
      flight carries something else than the row. */
  lemma SettledServesStaleIff(ttl: Duration, s: State, node: string, code: string)
    requires WellLed(s, code) && Settled(s, code)
    ensures CanServeStale(ttl, s, node, code) <==> !Good(s, node, code)
  {
    ServesStaleIff(ttl, s, node, code);
  }

  /** Changing the row can lead to a wrong answer after all writers are done exactly when the row is cached,
      or someone holds a value of it, or a flight carries one. */
  lemma WriteServesStaleIff(ttl: Duration, s: State, step: Step, node: string, code: string)
    requires WellLed(s, code) && Truthful(s, node, code) && Enabled(s, step) && Changes(s, step, code)
    ensures CanServeStale(ttl, Apply(ttl, s, step), node, code) <==>
            !(NoHolder(s, node, code) && NoAnswer(s, code) && !Hot(s, node, code))
  {
    WellLedStep(ttl, s, step, code);
    ServesStaleIff(ttl, Apply(ttl, s, step), node, code);
    TruthfulStepIff(ttl, s, step, node, code);
  }

  // ---------------------------------------------------------------- whole runs

  lemma {:induction false} RunGood(ttl: Duration, states: seq<State>, steps: seq<Step>, node: string, code: string,
                                   n: nat)
    requires Execution(ttl, states, steps) && n <= |steps|
    requires Good(states[0], node, code) && WellLed(states[0], code)
    requires forall i :: 0 <= i < n ==> Safe(states[i], steps[i], node, code)
    ensures Good(states[n], node, code) && WellLed(states[n], code)
  {
    if n > 0 {
      RunGood(ttl, states, steps, node, code, n - 1);
      GoodStepIff(ttl, states[n - 1], steps[n - 1], node, code);
      WellLedStep(ttl, states[n - 1], steps[n - 1], code);
    }
  }

  /** In every run that has been safe so far: whenever no writer is at work, a new Get can be told something
      wrong exactly when the last step was unsafe; and after an unsafe step it can in any case. */
  lemma UnsafeStepIff(ttl: Duration, states: seq<State>, steps: seq<Step>, node: string, code: string, n: nat)
    requires Execution(ttl, states, steps) && n < |steps|
    requires Good(states[0], node, code) && WellLed(states[0], code)
    requires forall i :: 0 <= i < n ==> Safe(states[i], steps[i], node, code)
    ensures Settled(states[n + 1], code) ==>
              (CanServeStale(ttl, states[n + 1], node, code) <==> !Safe(states[n], steps[n], node, code))
    ensures !Safe(states[n], steps[n], node, code) ==> CanServeStale(ttl, states[n + 1], node, code)
  {
    RunGood(ttl, states, steps, node, code, n);
    GoodStepIff(ttl, states[n], steps[n], node, code);
    WellLedStep(ttl, states[n], steps[n], code);
    ServesStaleIff(ttl, states[n + 1], node, code);
  }

  lemma {:induction false} RunTruthful(ttl: Duration, states: seq<State>, steps: seq<Step>, node: string,
                                       code: string, n: nat)
    requires Execution(ttl, states, steps) && n <= |steps|
    requires Truthful(states[0], node, code) && WellLed(states[0], code)
    ensures WellLed(states[n], code)
    ensures (forall i :: 0 <= i < n ==> Clear(states[i], steps[i], node, code)) ==> Truthful(states[n], node, code)
  {
    if n > 0 {
      RunTruthful(ttl, states, steps, node, code, n - 1);
      WellLedStep(ttl, states[n - 1], steps[n - 1], code);
      if forall i :: 0 <= i < n ==> Clear(states[i], steps[i], node, code) {
        TruthfulStepIff(ttl, states[n - 1], steps[n - 1], node, code);
      }
    }
  }

  /** Every step of a run is clear exactly when no state of it can lead to a wrong answer. */
  lemma ClearRunIff(ttl: Duration, states: seq<State>, steps: seq<Step>, node: string, code: string)
    requires Execution(ttl, states, steps)
    requires Truthful(states[0], node, code) && WellLed(states[0], code)
    ensures (forall i :: 0 <= i < |steps| ==> Clear(states[i], steps[i], node, code)) <==>
            (forall i :: 0 <= i < |states| ==> !CanServeStale(ttl, states[i], node, code))
  {
    forall i | 0 <= i < |states|
      ensures CanServeStale(ttl, states[i], node, code) <==> !Truthful(states[i], node, code)
    {
      RunTruthful(ttl, states, steps, node, code, i);
      ServesStaleIff(ttl, states[i], node, code);
    }
    if forall i :: 0 <= i < |steps| ==> Clear(states[i], steps[i], node, code) {
      forall i | 0 <= i < |states|
        ensures Truthful(states[i], node, code)
      {
        RunTruthful(ttl, states, steps, node, code, i);
      }
    } else {
      var i :| 0 <= i < |steps| && !Clear(states[i], steps[i], node, code);
      if Truthful(states[i], node, code) {
        TruthfulStepIff(ttl, states[i], steps[i], node, code);
        assert CanServeStale(ttl, states[i + 1], node, code);
      }
    }
  }
}
