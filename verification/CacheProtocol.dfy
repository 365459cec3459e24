/**
 The cache-aside protocol as a step system. Any number of Get, Create and Delete calls are in flight;
 each is split at its database and cache calls, so that the calls of different requests interleave.
 Cache calls may miss, fail, or land late; the node a call goes to is arbitrary, which covers every
 ring and every change of the ring; the database may also be changed from outside.
 */
module CacheProtocol {
  import opened Options
  import opened UrlModel

  /** A live time of zero would mean "never expires", so it is positive. */
  type Duration = t: nat | t > 0 witness 1

  function Ttl(ttl: Duration, content: Option<URL>): (t: nat)
    ensures t > 0
    ensures content == None ==> t == 60000
    ensures content.Some? ==> t == ttl
  {
    if content.None? then SENTINEL_TTL else ttl
  }

  datatype Entry = Entry(what: Cached, expiresAt: nat)

  datatype Reply = Content(content: Option<URL>) | Conflict | NotFound | Ok | DbError

  /** Where a request is. `readAt` is the time of its database step, kept to measure delays;
      `at` is the time at which a flight obtained its answer, or at which a request returned. */
  datatype Request =
    | GetStart(code: string)
    | GetJoin(code: string)
    | GetWait(code: string)
    | GetRecheck(code: string)
    | GetRead(code: string)
    | GetWrite(code: string, content: Option<URL>, readAt: nat)
    | GetFinish(code: string, reply: Reply, at: nat)
    | CreateStart(url: URL)
    | CreateWrite(url: URL, readAt: nat)
    | DeleteStart(code: string)
    | DeleteCache(code: string)
    | Done(code: string, reply: Reply, at: nat)

  /** A cache write whose call gave up but which may still reach its node, even more than once. */
  datatype Late =
    | LateSet(node: string, code: string, content: Option<URL>, readAt: nat)
    | LateDel(node: string, code: string)

  datatype State = State(
    clock: nat,
    db: Database,
    cache: map<(string, string), Entry>,
    requests: map<nat, Request>,
    flights: map<string, nat>,
    late: set<Late>)

  datatype Outcome = Landed | Lost | Delayed

  datatype Step =
    | Tick(ms: nat)
    | Begin(id: nat, request: Request)
    | Probe(id: nat, node: string, ok: bool)
    | Join(id: nat)
    | Recheck(id: nat, node: string, ok: bool)
    | ReadDb(id: nat, ok: bool)
    | Rewrite(id: nat, node: string, outcome: Outcome)
    | Finish(id: nat)
    | InsertDb(id: nat, ok: bool)
    | CacheNew(id: nat, node: string, outcome: Outcome)
    | DeleteDb(id: nat, ok: bool)
    | Invalidate(id: nat, node: string, outcome: Outcome)
    | LandLate(what: Late)
    | Evict(node: string, code: string)
    | Corrupt(node: string, code: string, expiresAt: nat)
    | OutsideWrite(db: Database)

  predicate Live(s: State, node: string, code: string) {
    (node, code) in s.cache && s.cache[(node, code)].expiresAt > s.clock
  }

  /** A cache read: the content a live, decodable entry stands for, or a miss. */
  function CacheGet(s: State, node: string, code: string, ok: bool): Option<Option<URL>> {
    if ok && Live(s, node, code) && s.cache[(node, code)].what != Garbage
    then Some(FromCache(s.cache[(node, code)].what)) else None
  }

  function Put(ttl: Duration, s: State, node: string, code: string, content: Option<URL>): State {
    s.(cache := s.cache[(node, code) := Entry(ToCache(content), s.clock + Ttl(ttl, content))])
  }

  function Del(s: State, node: string, code: string): State {
    s.(cache := s.cache - {(node, code)})
  }

  function Set(ttl: Duration, s: State, node: string, code: string, content: Option<URL>, readAt: nat,
               o: Outcome): State
  {
    match o
    case Landed => Put(ttl, s, node, code, content)
    case Lost => s
    case Delayed => s.(late := s.late + {LateSet(node, code, content, readAt)})
  }

  function Drop(s: State, node: string, code: string, o: Outcome): State {
    match o
    case Landed => Del(s, node, code)
    case Lost => s
    case Delayed => s.(late := s.late + {LateDel(node, code)})
  }

  function Goto(s: State, id: nat, r: Request): State {
    s.(requests := s.requests[id := r])
  }

  /** A flight ends: its leader and everyone waiting on it get the same reply. */
  function Deliver(requests: map<nat, Request>, leader: nat, code: string, reply: Reply, at: nat): map<nat, Request> {
    map id | id in requests ::
      if id == leader || requests[id] == GetWait(code) then Done(code, reply, at) else requests[id]
  }

  predicate At(s: State, id: nat) {
    id in s.requests
  }

  predicate Enabled(s: State, step: Step) {
    match step
    case Tick(_) => true
    case Begin(id, r) => !At(s, id) && (r.GetStart? || r.CreateStart? || r.DeleteStart?)
    case Probe(id, _, _) => At(s, id) && s.requests[id].GetStart?
    case Join(id) => At(s, id) && s.requests[id].GetJoin?
    case Recheck(id, _, _) => At(s, id) && s.requests[id].GetRecheck?
    case ReadDb(id, _) => At(s, id) && s.requests[id].GetRead?
    case Rewrite(id, _, _) => At(s, id) && s.requests[id].GetWrite?
    case Finish(id) => At(s, id) && s.requests[id].GetFinish?
    case InsertDb(id, _) => At(s, id) && s.requests[id].CreateStart?
    case CacheNew(id, _, _) => At(s, id) && s.requests[id].CreateWrite?
    case DeleteDb(id, _) => At(s, id) && s.requests[id].DeleteStart?
    case Invalidate(id, _, _) => At(s, id) && s.requests[id].DeleteCache?
    case LandLate(what) => what in s.late
    case Evict(_, _) => true
    case Corrupt(_, _, _) => true
    case OutsideWrite(_) => true
  }

  // ---------------------------------------------------------------- steps

  predicate ReaderStep(step: Step) {
    step.Probe? || step.Join? || step.Recheck? || step.ReadDb? || step.Rewrite? || step.Finish?
  }

  /** Steps of time, the cache nodes and outside writers. */
  predicate WorldStep(step: Step) {
    step.Tick? || step.LandLate? || step.Evict? || step.Corrupt? || step.OutsideWrite?
  }

  /** The steps of a Get. */
  function ApplyReader(ttl: Duration, s: State, step: Step): State
    requires Enabled(s, step) && ReaderStep(step)
  {
    match step
    case Probe(id, node, ok) =>
      var code := s.requests[id].code;
      (match CacheGet(s, node, code, ok)
       case Some(hit) => Goto(s, id, Done(code, Content(hit), s.clock))
       case None => Goto(s, id, GetJoin(code)))
    case Join(id) =>
      var code := s.requests[id].code;
      if code in s.flights then Goto(s, id, GetWait(code))
      else Goto(s, id, GetRecheck(code)).(flights := s.flights[code := id])
    case Recheck(id, node, ok) =>
      var code := s.requests[id].code;
      (match CacheGet(s, node, code, ok)
       case Some(hit) => Goto(s, id, GetFinish(code, Content(hit), s.clock))
       case None => Goto(s, id, GetRead(code)))
    case ReadDb(id, ok) =>
      var code := s.requests[id].code;
      if ok then Goto(s, id, GetWrite(code, Lookup(s.db, code), s.clock))
      else Goto(s, id, GetFinish(code, DbError, s.clock))
    case Rewrite(id, node, outcome) =>
      var r := s.requests[id];
      Goto(Set(ttl, s, node, r.code, r.content, r.readAt, outcome), id,
           GetFinish(r.code, Content(r.content), r.readAt))
    case Finish(id) =>
      var r := s.requests[id];
      s.(requests := Deliver(s.requests, id, r.code, r.reply, s.clock), flights := s.flights - {r.code})
  }

  /** The start of a request, and the steps of Create and Delete. */
  function ApplyWriter(ttl: Duration, s: State, step: Step): State
    requires Enabled(s, step) && !ReaderStep(step) && !WorldStep(step)
  {
    match step
    case Begin(id, r) => Goto(s, id, r)
    case InsertDb(id, ok) =>
      var url := s.requests[id].url;
      if !ok then Goto(s, id, Done(url.shortCode, DbError, s.clock))
      else if url.shortCode in s.db then Goto(s, id, Done(url.shortCode, Conflict, s.clock))
      else Goto(s, id, CreateWrite(url, s.clock)).(db := s.db[url.shortCode := url])
    case CacheNew(id, node, outcome) =>
      var r := s.requests[id];
      Goto(Set(ttl, s, node, r.url.shortCode, Some(r.url), r.readAt, outcome), id, Done(r.url.shortCode, Ok, s.clock))
    case DeleteDb(id, ok) =>
      var code := s.requests[id].code;
      if !ok then Goto(s, id, Done(code, DbError, s.clock))
      else if code !in s.db then Goto(s, id, Done(code, NotFound, s.clock))
      else Goto(s, id, DeleteCache(code)).(db := s.db - {code})
    case Invalidate(id, node, outcome) =>
      var code := s.requests[id].code;
      Goto(Drop(s, node, code, outcome), id, Done(code, Ok, s.clock))
  }

  function ApplyWorld(ttl: Duration, s: State, step: Step): State
    requires Enabled(s, step) && WorldStep(step)
  {
    match step
    case Tick(ms) => s.(clock := s.clock + ms)
    case LandLate(what) =>
      (match what
       case LateSet(node, code, content, _) => Put(ttl, s, node, code, content)
       case LateDel(node, code) => Del(s, node, code))
    case Evict(node, code) => Del(s, node, code)
    case Corrupt(node, code, expiresAt) =>
      s.(cache := s.cache[(node, code) := Entry(Garbage, expiresAt)])
    case OutsideWrite(db) => s.(db := db)
  }

  function Apply(ttl: Duration, s: State, step: Step): State
    requires Enabled(s, step)
  {
    if ReaderStep(step) then ApplyReader(ttl, s, step)
    else if WorldStep(step) then ApplyWorld(ttl, s, step)
    else ApplyWriter(ttl, s, step)
  }

  function CodeOf(r: Request): string {
    if r.CreateStart? || r.CreateWrite? then r.url.shortCode else r.code
  }

  // ---------------------------------------------------------------- runs

  /** Nothing in flight, nothing cached; the database is arbitrary. */
  predicate Initial(s: State) {
    s.cache == map[] && s.requests == map[] && s.flights == map[] && s.late == {}
  }

  /** A sequence of states in which each follows from the one before by the given step. */
  ghost predicate Execution(ttl: Duration, states: seq<State>, steps: seq<Step>) {
    && |states| == |steps| + 1
    && forall i :: 0 <= i < |steps| ==> Enabled(states[i], steps[i]) && states[i + 1] == Apply(ttl, states[i], steps[i])
  }

  ghost predicate Run(ttl: Duration, states: seq<State>, steps: seq<Step>) {
    Execution(ttl, states, steps) && Initial(states[0])
  }

  /** `steps` leads from `s` to `end`. */
  predicate Path(ttl: Duration, s: State, steps: seq<Step>, end: State)
    decreases |steps|
  {
    if steps == [] then s == end
    else Enabled(s, steps[0]) && Path(ttl, Apply(ttl, s, steps[0]), steps[1..], end)
  }

  lemma Then(ttl: Duration, s: State, step: Step, next: State, rest: seq<Step>, end: State)
    requires Enabled(s, step) && Apply(ttl, s, step) == next && Path(ttl, next, rest, end)
    ensures Path(ttl, s, [step] + rest, end)
  {
    assert ([step] + rest)[1..] == rest;
  }

  /** A Get that starts while the entry is live is told what the entry says. */
  lemma {:induction false} HitAtOnce(ttl: Duration, s: State, id: nat, node: string, code: string, ok: bool)
      returns (end: State)
    requires id !in s.requests && CacheGet(s, node, code, ok).Some?
    ensures Path(ttl, s, [Begin(id, GetStart(code))] + ([Probe(id, node, ok)] + []), end)
    ensures end == Goto(s, id, Done(code, Content(CacheGet(s, node, code, ok).value), s.clock))
  {
    var s1 := Goto(s, id, GetStart(code));
    var hit := CacheGet(s, node, code, ok);
    end := Goto(s, id, Done(code, Content(hit.value), s.clock));
    assert CacheGet(s1, node, code, ok) == hit;
    Then(ttl, s1, Probe(id, node, ok), end, [], end);
    Then(ttl, s, Begin(id, GetStart(code)), s1, [Probe(id, node, ok)] + [], end);
  }

  /** Request `id` leads the flight of `code`. */
  function Led(s: State, id: nat, code: string, at: Request): State {
    Goto(s, id, at).(flights := s.flights[code := id])
  }

  /** A Get that misses and finds no flight leads one. */
  lemma {:induction false} Enters(ttl: Duration, s: State, id: nat, node: string, code: string, ok: bool,
                                  rest: seq<Step>, end: State)
    requires id !in s.requests && code !in s.flights && CacheGet(s, node, code, ok).None?
    requires Path(ttl, Led(s, id, code, GetRecheck(code)), rest, end)
    ensures Path(ttl, s, [Begin(id, GetStart(code))] + ([Probe(id, node, ok)] + ([Join(id)] + rest)), end)
  {
    var s2 := Goto(s, id, GetJoin(code));
    assert Goto(s2, id, GetRecheck(code)) == Goto(s, id, GetRecheck(code));
    Then(ttl, s2, Join(id), Led(s, id, code, GetRecheck(code)), rest, end);
    Misses(ttl, s, id, node, code, ok, [Join(id)] + rest, end);
  }

  lemma {:induction false} Misses(ttl: Duration, s: State, id: nat, node: string, code: string, ok: bool,
                                  rest: seq<Step>, end: State)
    requires id !in s.requests && CacheGet(s, node, code, ok).None?
    requires Path(ttl, Goto(s, id, GetJoin(code)), rest, end)
    ensures Path(ttl, s, [Begin(id, GetStart(code))] + ([Probe(id, node, ok)] + rest), end)
  {
    var s1, s2 := Goto(s, id, GetStart(code)), Goto(s, id, GetJoin(code));
    assert CacheGet(s1, node, code, ok).None?;
    assert Goto(s1, id, GetJoin(code)) == s2;
    Then(ttl, s1, Probe(id, node, ok), s2, rest, end);
    Then(ttl, s, Begin(id, GetStart(code)), s1, [Probe(id, node, ok)] + rest, end);
  }

  /** The age, at this step, of the database value that a cache write installs. */
  predicate WritesWithin(gap: nat, s: State, step: Step)
    requires Enabled(s, step)
  {
    match step
    case Rewrite(id, _, Landed) => s.clock <= s.requests[id].readAt + gap
    case CacheNew(id, _, Landed) => s.clock <= s.requests[id].readAt + gap
    case LandLate(LateSet(_, _, _, readAt)) => s.clock <= readAt + gap
    case _ => true
  }
}
