/** An undisturbed request of the step system does what the repository's method does in one go. */
module CacheRefinement {
  import opened Options
  import opened UrlModel
  import opened CacheProtocol
  import R = Repository

  // ---------------------------------------------------------------- the repository's view of a state

  /** The repository's cache holds what the node holds. */
  ghost predicate SameSlots(cache: map<(string, string), Entry>, slots: map<string, R.Slot>, node: string) {
    forall code :: if code in slots
      then (node, code) in cache
           && slots[code] == R.Slot(cache[(node, code)].what, Some(cache[(node, code)].expiresAt))
      else (node, code) !in cache
  }

  ghost predicate Views(store: R.Store, s: State, node: string) {
    store.db == s.db && SameSlots(s.cache, store.cache, node)
  }

  function Cached(ttl: Duration): R.Config {
    R.Config(ttl, true)
  }

  function Written(ok: bool): Outcome {
    if ok then Landed else Lost
  }

  function GetReply(r: Result<URL, R.Error>): Reply {
    match r
    case Success(url) => Content(Some(url))
    case Failure(ErrNotFound) => Content(None)
    case Failure(_) => DbError
  }

  function WriteReply(r: Result<(), R.Error>): Reply {
    match r
    case Success(_) => Ok
    case Failure(ErrNotFound) => NotFound
    case Failure(ErrCodeConflict) => Conflict
    case Failure(ErrDb) => DbError
  }

  lemma ProbesAlike(ttl: Duration, store: R.Store, s: State, node: string, code: string, ok: bool)
    requires Views(store, s, node)
    ensures R.Probe(Cached(ttl), store.cache, code, s.clock, ok) == CacheGet(s, node, code, ok)
  {
    assert code in store.cache <==> (node, code) in s.cache;
  }

  lemma SetsAlike(ttl: Duration, store: R.Store, s: State, node: string, code: string, content: Option<URL>,
                  readAt: nat, ok: bool)
    requires SameSlots(s.cache, store.cache, node)
    ensures SameSlots(Set(ttl, s, node, code, content, readAt, Written(ok)).cache,
                      R.CacheSet(Cached(ttl), store.cache, code, content, s.clock, ok), node)
  {
  }

  lemma DropsAlike(ttl: Duration, store: R.Store, s: State, node: string, code: string, ok: bool)
    requires SameSlots(s.cache, store.cache, node)
    ensures SameSlots(Drop(s, node, code, Written(ok)).cache, R.CacheDel(Cached(ttl), store.cache, code, ok), node)
  {
  }

  /** Database read and cache fill, seen from both sides. */
  lemma RefillsAlike(ttl: Duration, store: R.Store, s: State, node: string, code: string, f: R.Faults)
    requires Views(store, s, node)
    ensures var (r, store') := R.Refill(Cached(ttl), store, code, s.clock, f);
            && GetReply(r) == (if f.db then Content(Lookup(s.db, code)) else DbError)
            && Views(store',
                     if f.db then Set(ttl, s, node, code, Lookup(s.db, code), s.clock, Written(f.write)) else s, node)
  {
    SetsAlike(ttl, store, s, node, code, Lookup(s.db, code), s.clock, f.write);
  }

  // ---------------------------------------------------------------- Get

  /** The flight's leader is answered, and the flight is over. */
  ghost predicate Answered(s: State, end: State, id: nat, code: string, reply: Reply) {
    && end.clock == s.clock && end.db == s.db && end.cache == s.cache && end.late == s.late
    && end.flights == s.flights - {code}
    && id in end.requests && end.requests[id] == Done(code, reply, s.clock)
  }

  lemma Ends(ttl: Duration, s: State, id: nat, code: string, reply: Reply, at: nat) returns (end: State)
    requires id in s.requests && s.requests[id] == GetFinish(code, reply, at)
    ensures Path(ttl, s, [Finish(id)] + [], end) && Answered(s, end, id, code, reply)
  {
    end := Apply(ttl, s, Finish(id));
    Then(ttl, s, Finish(id), end, [], end);
  }

  /** The steps of a flight, given what its re-check and its database read find. */
  function FlightSteps(id: nat, node: string, f: R.Faults, hit: bool): seq<Step> {
    [Recheck(id, node, f.recheck)] +
    if hit then [Finish(id)] + []
    else [ReadDb(id, f.db)] +
         if f.db then [Rewrite(id, node, Written(f.write))] + ([Finish(id)] + []) else [Finish(id)] + []
  }

  lemma {:induction false} FlightHits(ttl: Duration, s: State, id: nat, node: string, code: string, f: R.Faults)
      returns (end: State)
    requires id in s.requests && s.requests[id] == GetRecheck(code) && CacheGet(s, node, code, f.recheck).Some?
    ensures Path(ttl, s, FlightSteps(id, node, f, true), end)
    ensures Answered(s, end, id, code, Content(CacheGet(s, node, code, f.recheck).value))
  {
    var reply := Content(CacheGet(s, node, code, f.recheck).value);
    var s1 := Goto(s, id, GetFinish(code, reply, s.clock));
    end := Ends(ttl, s1, id, code, reply, s.clock);
    Then(ttl, s, Recheck(id, node, f.recheck), s1, [Finish(id)] + [], end);
  }

  lemma {:induction false} FlightFails(ttl: Duration, s: State, id: nat, node: string, code: string, f: R.Faults)
      returns (end: State)
    requires id in s.requests && s.requests[id] == GetRecheck(code) && CacheGet(s, node, code, f.recheck).None?
    requires !f.db
    ensures Path(ttl, s, FlightSteps(id, node, f, false), end)
    ensures Answered(s, end, id, code, DbError)
  {
    var s1, s2 := Goto(s, id, GetRead(code)), Goto(s, id, GetFinish(code, DbError, s.clock));
    end := Ends(ttl, s2, id, code, DbError, s.clock);
    assert Goto(s1, id, GetFinish(code, DbError, s.clock)) == s2;
    Then(ttl, s1, ReadDb(id, false), s2, [Finish(id)] + [], end);
    Then(ttl, s, Recheck(id, node, f.recheck), s1, [ReadDb(id, false)] + ([Finish(id)] + []), end);
  }

  /** The leader has read the row: it fills the cache and hands the row on. */
  lemma {:induction false} Fills(ttl: Duration, s: State, id: nat, node: string, ok: bool) returns (end: State)
    requires id in s.requests && s.requests[id].GetWrite?
    ensures Path(ttl, s, [Rewrite(id, node, Written(ok))] + ([Finish(id)] + []), end)
    ensures var r := s.requests[id];
            Answered(Set(ttl, s, node, r.code, r.content, r.readAt, Written(ok)), end, id, r.code, Content(r.content))
  {
    var r := s.requests[id];
    var s1 := Goto(Set(ttl, s, node, r.code, r.content, r.readAt, Written(ok)), id,
                   GetFinish(r.code, Content(r.content), r.readAt));
    end := Ends(ttl, s1, id, r.code, Content(r.content), r.readAt);
    Then(ttl, s, Rewrite(id, node, Written(ok)), s1, [Finish(id)] + [], end);
  }

  lemma {:induction false} FlightFills(ttl: Duration, s: State, id: nat, node: string, code: string, f: R.Faults)
      returns (end: State)
    requires id in s.requests && s.requests[id] == GetRecheck(code) && CacheGet(s, node, code, f.recheck).None?
    requires f.db
    ensures Path(ttl, s, FlightSteps(id, node, f, false), end)
    ensures Answered(Set(ttl, s, node, code, Lookup(s.db, code), s.clock, Written(f.write)), end, id, code,
                     Content(Lookup(s.db, code)))
  {
    var row := Lookup(s.db, code);
    var s1, s2 := Goto(s, id, GetRead(code)), Goto(s, id, GetWrite(code, row, s.clock));
    var rest := [Rewrite(id, node, Written(f.write))] + ([Finish(id)] + []);
    end := Fills(ttl, s2, id, node, f.write);
    assert Goto(s1, id, GetWrite(code, row, s.clock)) == s2;
    Then(ttl, s1, ReadDb(id, true), s2, rest, end);
    Then(ttl, s, Recheck(id, node, f.recheck), s1, [ReadDb(id, true)] + rest, end);
  }

  function GetSteps(s: State, id: nat, node: string, code: string, f: R.Faults): seq<Step> {
    [Begin(id, GetStart(code))] + ([Probe(id, node, f.probe)] +
    if CacheGet(s, node, code, f.probe).Some? then []
    else [Join(id)] + FlightSteps(id, node, f, CacheGet(s, node, code, f.recheck).Some?))
  }

  /** Under every pattern of faults, an undisturbed Get answers, and leaves the cache, as the method does. */
  lemma {:induction false} GetIsRefined(ttl: Duration, store: R.Store, s: State, id: nat, node: string, code: string,
                                        f: R.Faults) returns (end: State)
    requires Views(store, s, node)
    requires id !in s.requests && code !in s.flights
    ensures Path(ttl, s, GetSteps(s, id, node, code, f), end)
    ensures var (r, store') := R.Get(Cached(ttl), store, code, s.clock, f);
            && Views(store', end, node)
            && id in end.requests && end.requests[id] == Done(code, GetReply(r), s.clock)
            && end.flights == s.flights
  {
    ProbesAlike(ttl, store, s, node, code, f.probe);
    ProbesAlike(ttl, store, s, node, code, f.recheck);
    var hit := CacheGet(s, node, code, f.probe);
    if hit.Some? {
      end := HitAtOnce(ttl, s, id, node, code, f.probe);
    } else {
      end := FlightIsRefined(ttl, store, s, id, node, code, f);
      Enters(ttl, s, id, node, code, f.probe, FlightSteps(id, node, f, CacheGet(s, node, code, f.recheck).Some?), end);
    }
  }

  lemma {:induction false} FlightIsRefined(ttl: Duration, store: R.Store, s: State, id: nat, node: string,
                                           code: string, f: R.Faults) returns (end: State)
    requires Views(store, s, node)
    requires id !in s.requests && code !in s.flights && CacheGet(s, node, code, f.probe).None?
    ensures Path(ttl, Led(s, id, code, GetRecheck(code)),
                 FlightSteps(id, node, f, CacheGet(s, node, code, f.recheck).Some?), end)
    ensures var (r, store') := R.Get(Cached(ttl), store, code, s.clock, f);
            && Views(store', end, node)
            && id in end.requests && end.requests[id] == Done(code, GetReply(r), s.clock)
            && end.flights == s.flights
  {
    var s1 := Led(s, id, code, GetRecheck(code));
    ProbesAlike(ttl, store, s, node, code, f.probe);
    ProbesAlike(ttl, store, s, node, code, f.recheck);
    assert CacheGet(s1, node, code, f.recheck) == CacheGet(s, node, code, f.recheck);
    assert s1.flights - {code} == s.flights;
    if CacheGet(s, node, code, f.recheck).Some? {
      end := FlightHits(ttl, s1, id, node, code, f);
    } else if f.db {
      end := FlightFills(ttl, s1, id, node, code, f);
      RefillsAlike(ttl, store, s1, node, code, f);
    } else {
      end := FlightFails(ttl, s1, id, node, code, f);
      RefillsAlike(ttl, store, s1, node, code, f);
    }
  }

  // ---------------------------------------------------------------- Create and Delete

  function CreateSteps(s: State, id: nat, node: string, url: URL, f: R.Faults): seq<Step> {
    [Begin(id, CreateStart(url))] + ([InsertDb(id, f.db)] +
    if f.db && url.shortCode !in s.db then [CacheNew(id, node, Written(f.write))] + [] else [])
  }

  lemma {:induction false} CreateIsRefined(ttl: Duration, store: R.Store, s: State, id: nat, node: string, url: URL,
                                           f: R.Faults) returns (end: State)
    requires Views(store, s, node)
    requires id !in s.requests
    ensures Path(ttl, s, CreateSteps(s, id, node, url, f), end)
    ensures var (r, store') := R.Create(Cached(ttl), store, url, s.clock, f);
            && Views(store', end, node)
            && id in end.requests && end.requests[id] == Done(url.shortCode, WriteReply(r), s.clock)
            && end.flights == s.flights
  {
    var code := url.shortCode;
    var s1 := Goto(s, id, CreateStart(url));
    var s2 := Apply(ttl, s1, InsertDb(id, f.db));
    if f.db && code !in s.db {
      SetsAlike(ttl, store, s2, node, code, Some(url), s.clock, f.write);
      end := Apply(ttl, s2, CacheNew(id, node, Written(f.write)));
      Then(ttl, s2, CacheNew(id, node, Written(f.write)), end, [], end);
    } else {
      end := s2;
    }
    var rest := if f.db && code !in s.db then [CacheNew(id, node, Written(f.write))] + [] else [];
    Then(ttl, s1, InsertDb(id, f.db), s2, rest, end);
    Then(ttl, s, Begin(id, CreateStart(url)), s1, [InsertDb(id, f.db)] + rest, end);
  }

  function DeleteSteps(s: State, id: nat, node: string, code: string, f: R.Faults): seq<Step> {
    [Begin(id, DeleteStart(code))] + ([DeleteDb(id, f.db)] +
    if f.db && code in s.db then [Invalidate(id, node, Written(f.write))] + [] else [])
  }

  lemma {:induction false} DeleteIsRefined(ttl: Duration, store: R.Store, s: State, id: nat, node: string,
                                           code: string, f: R.Faults) returns (end: State)
    requires Views(store, s, node)
    requires id !in s.requests
    ensures Path(ttl, s, DeleteSteps(s, id, node, code, f), end)
    ensures var (r, store') := R.Delete(Cached(ttl), store, code, f);
            && Views(store', end, node)
            && id in end.requests && end.requests[id] == Done(code, WriteReply(r), s.clock)
            && end.flights == s.flights
  {
    var s1 := Goto(s, id, DeleteStart(code));
    var s2 := Apply(ttl, s1, DeleteDb(id, f.db));
    if f.db && code in s.db {
      DropsAlike(ttl, store, s2, node, code, f.write);
      end := Apply(ttl, s2, Invalidate(id, node, Written(f.write)));
      Then(ttl, s2, Invalidate(id, node, Written(f.write)), end, [], end);
    } else {
      end := s2;
    }
    var rest := if f.db && code in s.db then [Invalidate(id, node, Written(f.write))] + [] else [];
    Then(ttl, s1, DeleteDb(id, f.db), s2, rest, end);
    Then(ttl, s, Begin(id, DeleteStart(code)), s1, [DeleteDb(id, f.db)] + rest, end);
  }
}
