/**
 Runs that the staleness bound allows. Without any cache fault, a deleted URL is served again and a fresh
 URL is reported missing, each by a Get that starts after the writer has returned.
 */
module CacheRaceExample {
  import opened Options
  import opened UrlModel
  import opened CacheProtocol
  import opened CacheCoherence
  import opened CacheAnswers

  /** Only `content` is in the database, under `code`. */
  function Rows(code: string, content: Option<URL>): Database {
    if content.Some? then map[code := content.value] else map[]
  }

  function Start(code: string, content: Option<URL>): State {
    State(0, Rows(code, content), map[], map[], map[], {})
  }

  /** Get 1 has read `content` and is about to cache it. */
  function Read(code: string, content: Option<URL>): State {
    Start(code, content).(flights := map[code := 1], requests := map[1 := GetWrite(code, content, 0)])
  }

  function ReadSteps(node: string, code: string): seq<Step> {
    [Begin(1, GetStart(code))] +
    ([Probe(1, node, true)] + ([Join(1)] + ([Recheck(1, node, true)] + ([ReadDb(1, true)] + []))))
  }

  lemma {:induction false} FlightReads(ttl: Duration, code: string, content: Option<URL>, node: string)
    ensures Path(ttl, Led(Start(code, content), 1, code, GetRecheck(code)),
                 [Recheck(1, node, true)] + ([ReadDb(1, true)] + []), Read(code, content))
  {
    var s0, end := Start(code, content), Read(code, content);
    var s1, s2 := Led(s0, 1, code, GetRecheck(code)), Led(s0, 1, code, GetRead(code));
    assert Lookup(s0.db, code) == content;
    Then(ttl, s2, ReadDb(1, true), end, [], end);
    Then(ttl, s1, Recheck(1, node, true), s2, [ReadDb(1, true)] + [], end);
  }

  lemma GetReads(ttl: Duration, code: string, content: Option<URL>, node: string)
    ensures Path(ttl, Start(code, content), ReadSteps(node, code), Read(code, content))
  {
    FlightReads(ttl, code, content, node);
    Enters(ttl, Start(code, content), 1, node, code, true, [Recheck(1, node, true)] + ([ReadDb(1, true)] + []),
           Read(code, content));
  }

  /** Writer 2 has come and gone: the database holds `content'` and the cache is up to date. */
  function Written(ttl: Duration, code: string, content: Option<URL>, content': Option<URL>, node: string): State {
    Read(code, content).(
      db := Rows(code, content'),
      cache := if content'.Some? then map[(node, code) := Entry(ToCache(content'), ttl)] else map[],
      requests := map[1 := GetWrite(code, content, 0), 2 := Done(code, Ok, 0)])
  }

  function DeleteSteps(node: string, code: string): seq<Step> {
    [Begin(2, DeleteStart(code))] + ([DeleteDb(2, true)] + ([Invalidate(2, node, Landed)] + []))
  }

  /** Delete 2 has removed the row and has yet to invalidate the entry. */
  function Unlisted(s: State, code: string): State {
    Goto(s.(db := s.db - {code}), 2, DeleteCache(code))
  }

  /** Delete 2 has returned. */
  function Removed(s: State, node: string, code: string): State {
    Goto(Del(s, node, code).(db := s.db - {code}), 2, Done(code, Ok, s.clock))
  }

  lemma {:induction false} RowRemoved(ttl: Duration, s: State, rest: seq<Step>, end: State, code: string)
    requires 2 !in s.requests && code in s.db && Path(ttl, Unlisted(s, code), rest, end)
    ensures Path(ttl, s, [Begin(2, DeleteStart(code))] + ([DeleteDb(2, true)] + rest), end)
  {
    var s1 := Goto(s, 2, DeleteStart(code));
    assert Goto(s1, 2, DeleteCache(code)) == Goto(s, 2, DeleteCache(code));
    Then(ttl, s1, DeleteDb(2, true), Unlisted(s, code), rest, end);
    Then(ttl, s, Begin(2, DeleteStart(code)), s1, [DeleteDb(2, true)] + rest, end);
  }

  lemma {:induction false} Deletes(ttl: Duration, s: State, node: string, code: string)
    requires 2 !in s.requests && code in s.db
    ensures Path(ttl, s, DeleteSteps(node, code), Removed(s, node, code))
  {
    var s2, end := Unlisted(s, code), Removed(s, node, code);
    assert Goto(Del(s2, node, code), 2, Done(code, Ok, s.clock)) == end;
    Then(ttl, s2, Invalidate(2, node, Landed), end, [], end);
    RowRemoved(ttl, s, [Invalidate(2, node, Landed)] + [], end, code);
  }

  lemma DeleteCompletes(ttl: Duration, url: URL, node: string)
    ensures var code := url.shortCode;
            Path(ttl, Read(code, Some(url)), DeleteSteps(node, code), Written(ttl, code, Some(url), None, node))
  {
    var code := url.shortCode;
    Deletes(ttl, Read(code, Some(url)), node, code);
    assert Removed(Read(code, Some(url)), node, code) == Written(ttl, code, Some(url), None, node);
  }

  /** The database is written; writer 2 still has to bring the cache up to date. */
  function Writing(code: string, content: Option<URL>, content': Option<URL>, at: Request): State {
    var s := Read(code, content);
    s.(db := Rows(code, content'), requests := s.requests[2 := at])
  }

  function CreateSteps(node: string, url: URL): seq<Step> {
    [Begin(2, CreateStart(url))] + ([InsertDb(2, true)] + ([CacheNew(2, node, Landed)] + []))
  }

  lemma NewRowCached(ttl: Duration, url: URL, node: string)
    ensures var code := url.shortCode;
            var s := Writing(code, None, Some(url), CreateWrite(url, 0));
            Enabled(s, CacheNew(2, node, Landed)) &&
            Apply(ttl, s, CacheNew(2, node, Landed)) == Written(ttl, code, None, Some(url), node)
  {
  }

  lemma {:induction false} CreateCompletes(ttl: Duration, url: URL, node: string)
    ensures var code := url.shortCode;
            Path(ttl, Read(code, None), CreateSteps(node, url), Written(ttl, code, None, Some(url), node))
  {
    var code := url.shortCode;
    var s0, s2 := Read(code, None), Writing(code, None, Some(url), CreateWrite(url, 0));
    var s1, end := s0.(requests := s0.requests[2 := CreateStart(url)]), Written(ttl, code, None, Some(url), node);
    NewRowCached(ttl, url, node);
    Then(ttl, s2, CacheNew(2, node, Landed), end, [], end);
    Then(ttl, s1, InsertDb(2, true), s2, [CacheNew(2, node, Landed)] + [], end);
    Then(ttl, s0, Begin(2, CreateStart(url)), s1, [InsertDb(2, true)] + ([CacheNew(2, node, Landed)] + []), end);
  }

  /** Get 1 caches what it read; `ms` later, Get 3 starts and asks the cache. */
  function LaterSteps(node: string, code: string, ms: nat): seq<Step> {
    [Rewrite(1, node, Landed)] + ([Tick(ms)] + ([Begin(3, GetStart(code))] + ([Probe(3, node, true)] + [])))
  }

  lemma {:induction false} LaterGetIsStale(ttl: Duration, code: string, content: Option<URL>, content': Option<URL>,
                                           node: string, ms: nat) returns (end: State)
    requires ms < Ttl(ttl, content)
    ensures Path(ttl, Written(ttl, code, content, content', node), LaterSteps(node, code, ms), end)
    ensures end.db == Rows(code, content')
    ensures 3 in end.requests && end.requests[3] == Done(code, Content(content), ms)
  {
    var s0 := Written(ttl, code, content, content', node);
    var s1 := Goto(Put(ttl, s0, node, code, content), 1, GetFinish(code, Content(content), 0));
    var s2 := s1.(clock := ms);
    end := HitAtOnce(ttl, s2, 3, node, code, true);
    var rest := [Begin(3, GetStart(code))] + ([Probe(3, node, true)] + []);
    Then(ttl, s1, Tick(ms), s2, rest, end);
    Then(ttl, s0, Rewrite(1, node, Landed), s1, [Tick(ms)] + rest, end);
  }

  /** For every URL: a Get overlaps a Delete that completes without any fault, and throughout the time to
      live a Get that starts after the Delete returned still answers with the deleted URL. */
  lemma DeletedUrlIsServed(ttl: Duration, url: URL, node: string, ms: nat) returns (end: State)
    requires ms < ttl
    ensures var code := url.shortCode;
            var deleted := Written(ttl, code, Some(url), None, node);
            && Initial(Start(code, Some(url)))
            && Path(ttl, Start(code, Some(url)), ReadSteps(node, code), Read(code, Some(url)))
            && Path(ttl, Read(code, Some(url)), DeleteSteps(node, code), deleted)
            && deleted.requests[2] == Done(code, Ok, 0) && 3 !in deleted.requests
            && Path(ttl, deleted, LaterSteps(node, code, ms), end)
            && Lookup(end.db, code) == None
            && 3 in end.requests && end.requests[3] == Done(code, Content(Some(url)), ms)
  {
    var code := url.shortCode;
    GetReads(ttl, code, Some(url), node);
    DeleteCompletes(ttl, url, node);
    end := LaterGetIsStale(ttl, code, Some(url), None, node, ms);
  }

  /** For every URL: a Get of a free code overlaps the Create that takes it, without any fault, and for a
      minute a Get that starts after the Create returned still reports the new URL missing. */
  lemma FreshUrlIsMissing(ttl: Duration, url: URL, node: string, ms: nat) returns (end: State)
    requires ms < SENTINEL_TTL
    ensures var code := url.shortCode;
            var created := Written(ttl, code, None, Some(url), node);
            && Initial(Start(code, None))
            && Path(ttl, Start(code, None), ReadSteps(node, code), Read(code, None))
            && Path(ttl, Read(code, None), CreateSteps(node, url), created)
            && created.requests[2] == Done(code, Ok, 0) && 3 !in created.requests
            && Path(ttl, created, LaterSteps(node, code, ms), end)
            && Lookup(end.db, code) == Some(url)
            && 3 in end.requests && end.requests[3] == Done(code, Content(None), ms)
  {
    var code := url.shortCode;
    GetReads(ttl, code, None, node);
    CreateCompletes(ttl, url, node);
    end := LaterGetIsStale(ttl, code, None, Some(url), node, ms);
  }

  // ---------------------------------------------------------------- answers shared through a flight

  /** Get 1 has filled the cache and is about to end its flight. */
  function Filled(ttl: Duration, url: URL, node: string): State {
    var code := url.shortCode;
    Goto(Put(ttl, Read(code, Some(url)), node, code, Some(url)), 1, GetFinish(code, Content(Some(url)), 0))
  }

  lemma Fills(ttl: Duration, url: URL, node: string)
    ensures Path(ttl, Read(url.shortCode, Some(url)), [Rewrite(1, node, Landed)] + [], Filled(ttl, url, node))
  {
    Then(ttl, Read(url.shortCode, Some(url)), Rewrite(1, node, Landed), Filled(ttl, url, node), [],
         Filled(ttl, url, node));
  }

  /** A flight of Get 1 still carries the URL; nothing else of it is left. */
  ghost predicate OnlyInFlight(s: State, node: string, url: URL) {
    var code := url.shortCode;
    && s.clock == 0 && Lookup(s.db, code) == None && code in s.flights && 3 !in s.requests
    && 1 in s.requests && s.requests[1] == GetFinish(code, Content(Some(url)), 0)
    && 2 in s.requests && s.requests[2] == Done(code, Ok, 0)
    && CacheGet(s, node, code, true).None? && Coherent(s, node, code) && Settled(s, code)
  }

  lemma FilledFacts(ttl: Duration, url: URL, node: string)
    ensures NoHolder(Filled(ttl, url, node), node, url.shortCode)
    ensures OnlyInFlight(Removed(Filled(ttl, url, node), node, url.shortCode), node, url)
  {
  }

  /** Get 3 starts after Delete 2 returned, misses, and joins the flight that Get 1 is about to end. */
  lemma JoinsOldFlight(ttl: Duration, s: State, node: string, url: URL) returns (end: State)
    requires OnlyInFlight(s, node, url)
    ensures Path(ttl, s, JoinSteps(3, 1, node, url.shortCode), end)
    ensures Lookup(end.db, url.shortCode) == None
    ensures 3 in end.requests && end.requests[3] == Done(url.shortCode, Content(Some(url)), 0)
  {
    end := Joins(ttl, s, 1, 3, node, url.shortCode);
    QuietlyIsPath(ttl, s, JoinSteps(3, 1, node, url.shortCode), end, node, url.shortCode);
  }

  /** For every URL, without any fault: when the Delete comes, nobody is on the way to the cache, and when it
      returns the cache is coherent; yet a Get that starts then is told the deleted URL, because it joins the
      flight of a Get that has filled the cache but not yet ended. */
  lemma DeletedUrlIsShared(ttl: Duration, url: URL, node: string) returns (end: State)
    ensures var code := url.shortCode;
            var filled := Filled(ttl, url, node);
            var removed := Removed(filled, node, code);
            && Initial(Start(code, Some(url)))
            && Path(ttl, Start(code, Some(url)), ReadSteps(node, code), Read(code, Some(url)))
            && Path(ttl, Read(code, Some(url)), [Rewrite(1, node, Landed)] + [], filled)
            && NoHolder(filled, node, code)
            && Path(ttl, filled, DeleteSteps(node, code), removed)
            && OnlyInFlight(removed, node, url)
            && Path(ttl, removed, JoinSteps(3, 1, node, code), end)
            && Lookup(end.db, code) == None
            && 3 in end.requests && end.requests[3] == Done(code, Content(Some(url)), 0)
  {
    var code := url.shortCode;
    var filled := Filled(ttl, url, node);
    GetReads(ttl, code, Some(url), node);
    Fills(ttl, url, node);
    FilledFacts(ttl, url, node);
    Deletes(ttl, filled, node, code);
    end := JoinsOldFlight(ttl, Removed(filled, node, code), node, url);
  }

  /** Get 1 has missed on the empty cache; then Create 4 has stored and cached the URL, and returned. */
  function Created(ttl: Duration, url: URL, node: string): State {
    var code := url.shortCode;
    var s := Goto(Start(code, None), 1, GetJoin(code));
    Goto(Put(ttl, s, node, code, Some(url)).(db := map[code := url]), 4, Done(code, Ok, 0))
  }

  function CreatedSteps(url: URL, node: string): seq<Step> {
    [Begin(1, GetStart(url.shortCode))] + ([Probe(1, node, true)] +
    ([Begin(4, CreateStart(url))] + ([InsertDb(4, true)] + ([CacheNew(4, node, Landed)] + []))))
  }

  lemma {:induction false} Creates(ttl: Duration, url: URL, node: string)
    ensures Path(ttl, Start(url.shortCode, None), CreatedSteps(url, node), Created(ttl, url, node))
  {
    var code := url.shortCode;
    var s0 := Start(code, None);
    var s, end := Goto(s0, 1, GetJoin(code)), Created(ttl, url, node);
    var s1, s2 := Goto(s, 4, CreateStart(url)), Goto(s, 4, CreateWrite(url, 0)).(db := map[code := url]);
    CreatedAt(ttl, url, node);
    Then(ttl, s2, CacheNew(4, node, Landed), end, [], end);
    Then(ttl, s1, InsertDb(4, true), s2, [CacheNew(4, node, Landed)] + [], end);
    Then(ttl, s, Begin(4, CreateStart(url)), s1, [InsertDb(4, true)] + ([CacheNew(4, node, Landed)] + []), end);
    assert CacheGet(s0, node, code, true).None?;
    Misses(ttl, s0, 1, node, code, true,
           [Begin(4, CreateStart(url))] + ([InsertDb(4, true)] + ([CacheNew(4, node, Landed)] + [])), end);
  }

  lemma CreatedAt(ttl: Duration, url: URL, node: string)
    ensures var code := url.shortCode;
            var s := Goto(Goto(Start(code, None), 1, GetJoin(code)), 4, CreateWrite(url, 0)).(db := map[code := url]);
            Enabled(s, CacheNew(4, node, Landed)) &&
            Apply(ttl, s, CacheNew(4, node, Landed)) == Created(ttl, url, node)
  {
  }

  /** Delete 2 has removed the row; before it invalidates the entry, Get 1 leads a flight that picks it up. */
  function PickedUp(ttl: Duration, url: URL, node: string): State {
    var code := url.shortCode;
    Led(Unlisted(Created(ttl, url, node), code), 1, code, GetFinish(code, Content(Some(url)), 0))
  }

  function PickUpSteps(url: URL, node: string): seq<Step> {
    [Begin(2, DeleteStart(url.shortCode))] + ([DeleteDb(2, true)] + ([Join(1)] + ([Recheck(1, node, true)] + [])))
  }

  lemma {:induction false} PicksUp(ttl: Duration, url: URL, node: string)
    ensures Path(ttl, Created(ttl, url, node), PickUpSteps(url, node), PickedUp(ttl, url, node))
  {
    var code := url.shortCode;
    var s0, end := Created(ttl, url, node), PickedUp(ttl, url, node);
    var s1 := Unlisted(s0, code);
    var s2 := Led(s1, 1, code, GetRecheck(code));
    assert CacheGet(s2, node, code, true) == Some(Some(url));
    assert Goto(s2, 1, GetFinish(code, Content(Some(url)), 0)) == end;
    Then(ttl, s2, Recheck(1, node, true), end, [], end);
    Then(ttl, s1, Join(1), s2, [Recheck(1, node, true)] + [], end);
    RowRemoved(ttl, s0, [Join(1)] + ([Recheck(1, node, true)] + []), end, code);
  }

  lemma PickedUpFacts(ttl: Duration, url: URL, node: string)
    ensures var code := url.shortCode;
            var removed := Goto(Del(PickedUp(ttl, url, node), node, code), 2, Done(code, Ok, 0));
            && NoHolder(Created(ttl, url, node), node, code) && NoAnswer(Created(ttl, url, node), code)
            && OnlyInFlight(removed, node, url)
  {
  }

  /** For every URL, without any fault: when the Delete comes, nobody is on the way to the cache and no flight
      carries an answer; but a flight picks the old entry up before the Delete invalidates it, and a Get that
      starts after the Delete returned joins that flight and is told the deleted URL. */
  lemma OldEntryIsShared(ttl: Duration, url: URL, node: string) returns (end: State)
    ensures var code := url.shortCode;
            var created, picked := Created(ttl, url, node), PickedUp(ttl, url, node);
            var removed := Goto(Del(picked, node, code), 2, Done(code, Ok, 0));
            && Initial(Start(code, None))
            && Path(ttl, Start(code, None), CreatedSteps(url, node), created)
            && NoHolder(created, node, code) && NoAnswer(created, code)
            && Path(ttl, created, PickUpSteps(url, node), picked)
            && Path(ttl, picked, [Invalidate(2, node, Landed)] + [], removed)
            && OnlyInFlight(removed, node, url)
            && Path(ttl, removed, JoinSteps(3, 1, node, code), end)
            && Lookup(end.db, code) == None
            && 3 in end.requests && end.requests[3] == Done(code, Content(Some(url)), 0)
  {
    var code := url.shortCode;
    var picked := PickedUp(ttl, url, node);
    var removed := Goto(Del(picked, node, code), 2, Done(code, Ok, 0));
    Creates(ttl, url, node);
    PicksUp(ttl, url, node);
    PickedUpFacts(ttl, url, node);
    Then(ttl, picked, Invalidate(2, node, Landed), removed, [], removed);
    end := JoinsOldFlight(ttl, removed, node, url);
  }
}
