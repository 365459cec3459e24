/** The URL repository with and without its Redis cache, one call at a time. */
module Repository {
  import opened Options
  import opened UrlModel

  datatype Error = ErrNotFound | ErrCodeConflict | ErrDb

  // ---------------------------------------------------------------- the plain repository

  /** `ok` is whether the database answers; a failing call has no effect. */
  function DbGet(db: Database, code: string, ok: bool): Result<URL, Error> {
    if !ok then Failure(ErrDb)
    else if code in db then Success(db[code])
    else Failure(ErrNotFound)
  }

  function DbCreate(db: Database, url: URL, ok: bool): (Result<(), Error>, Database) {
    if !ok then (Failure(ErrDb), db)
    else if url.shortCode in db then (Failure(ErrCodeConflict), db)
    else (Success(()), db[url.shortCode := url])
  }

  function DbDelete(db: Database, code: string, ok: bool): (Result<(), Error>, Database) {
    if !ok then (Failure(ErrDb), db)
    else if code !in db then (Failure(ErrNotFound), db)
    else (Success(()), db - {code})
  }

  // ---------------------------------------------------------------- the cached repository

  /** A cache slot; a time to live of zero means that it never expires. */
  datatype Slot = Slot(what: Cached, expiresAt: Option<nat>)

  /** `ttl` is the configured time to live, `cached` whether there is a cache at all. */
  datatype Config = Config(ttl: nat, cached: bool)

  datatype Store = Store(db: Database, cache: map<string, Slot>)

  /** Which of a call's cache and database calls work. Whether a failed cache write was rejected, timed
      out or was dropped by the breaker makes no difference here: it does not land. */
  datatype Faults = Faults(probe: bool, recheck: bool, write: bool, db: bool)

  const ALL_WORK := Faults(true, true, true, true)

  /** A readable entry that has not expired. */
  predicate Usable(c: Config, cache: map<string, Slot>, code: string, now: nat) {
    c.cached && code in cache && cache[code].what != Garbage &&
    match cache[code].expiresAt
    case None => true
    case Some(t) => now < t
  }

  function Expires(now: nat, ttl: nat): Option<nat> {
    if ttl == 0 then None else Some(now + ttl)
  }

  function Probe(c: Config, cache: map<string, Slot>, code: string, now: nat, ok: bool): Option<Option<URL>> {
    if c.cached && ok && code in cache && cache[code].what != Garbage
       && (cache[code].expiresAt.None? || now < cache[code].expiresAt.value)
    then Some(FromCache(cache[code].what)) else None
  }

  function CacheSet(c: Config, cache: map<string, Slot>, code: string, content: Option<URL>, now: nat,
                    ok: bool): map<string, Slot>
  {
    var ttl := if content.None? then SENTINEL_TTL else c.ttl;
    if c.cached && ok
    then cache[code := Slot(ToCache(content), if ttl == 0 then None else Some(now + ttl))]
    else cache
  }

  function CacheDel(c: Config, cache: map<string, Slot>, code: string, ok: bool): map<string, Slot> {
    if c.cached && ok then cache - {code} else cache
  }

  function Answer(content: Option<URL>): Result<URL, Error> {
    if content.Some? then Success(content.value) else Failure(ErrNotFound)
  }

  /** Database read and cache fill, after both cache lookups missed. */
  function Refill(c: Config, s: Store, code: string, now: nat, f: Faults): (Result<URL, Error>, Store) {
    match DbGet(s.db, code, f.db)
    case Success(url) => (Success(url), s.(cache := CacheSet(c, s.cache, code, Some(url), now, f.write)))
    case Failure(ErrNotFound) => (Failure(ErrNotFound), s.(cache := CacheSet(c, s.cache, code, None, now, f.write)))
    case Failure(e) => (Failure(e), s)
  }

  function Get(c: Config, s: Store, code: string, now: nat, f: Faults): (Result<URL, Error>, Store) {
    match Probe(c, s.cache, code, now, f.probe)
    case Some(content) => (Answer(content), s)
    case None =>
      match Probe(c, s.cache, code, now, f.recheck)
      case Some(content) => (Answer(content), s)
      case None => Refill(c, s, code, now, f)
  }

  function Create(c: Config, s: Store, url: URL, now: nat, f: Faults): (Result<(), Error>, Store) {
    var (r, db) := DbCreate(s.db, url, f.db);
    (r, Store(db, if r.Success? then CacheSet(c, s.cache, url.shortCode, Some(url), now, f.write) else s.cache))
  }

  function Delete(c: Config, s: Store, code: string, f: Faults): (Result<(), Error>, Store) {
    var (r, db) := DbDelete(s.db, code, f.db);
    (r, Store(db, if r.Success? then CacheDel(c, s.cache, code, f.write) else s.cache))
  }

  // ---------------------------------------------------------------- the repository object

  class CachedURLRepository {
    const config: Config
    var db: Database
    var cache: map<string, Slot>

    constructor (config: Config, db: Database)
      ensures this.config == config && this.db == db && cache == map[]
    {
      this.config := config;
      this.db := db;
      cache := map[];
    }

    ghost function State(): Store
      reads this
    {
      Store(db, cache)
    }

    /** A usable entry, found at once or by the re-check, answers; otherwise the database does, and what it holds
        is cached: a URL for the configured time, an absence for a minute. */
    method GetByCode(code: string, now: nat, f: Faults) returns (r: Result<URL, Error>)
      modifies this`cache
      ensures (Usable(config, old(cache), code, now) && (f.probe || f.recheck)) ==>
                && cache == old(cache)
                && r == match old(cache)[code].what
                        case Data(url) => Success(url)
                        case _ => Failure(ErrNotFound)
      ensures !(Usable(config, old(cache), code, now) && (f.probe || f.recheck)) ==>
                if !f.db then r == Failure(ErrDb) && cache == old(cache)
                else
                  && r == (if code in db then Success(db[code]) else Failure(ErrNotFound))
                  && cache == if !config.cached || !f.write then old(cache)
                              else if code !in db then old(cache)[code := Slot(Sentinel, Some(now + 60000))]
                              else old(cache)[code := Slot(Data(db[code]), Expires(now, config.ttl))]
      ensures (r, State()) == Get(config, old(State()), code, now, f)
    {
      if config.cached {
        var hit := CacheGet(code, now, f.probe);
        if hit.Some? {
          if hit.value.None? {
            return Failure(ErrNotFound);
          }
          return Success(hit.value.value);
        }
      }
      r := QueryFromDB(code, now, f);
    }

    method QueryFromDB(code: string, now: nat, f: Faults) returns (r: Result<URL, Error>)
      modifies this`cache
      ensures (r, State()) == match Probe(config, old(cache), code, now, f.recheck)
                              case Some(content) => (Answer(content), old(State()))
                              case None => Refill(config, old(State()), code, now, f)
    {
      if config.cached {
        var hit := CacheGet(code, now, f.recheck);
        if hit.Some? {
          r := if hit.value.None? then Failure(ErrNotFound) else Success(hit.value.value);
          return;
        }
      }
      r := DbGet(db, code, f.db);
      if r.Failure? {
        if config.cached && r.error == ErrNotFound {
          cache := CacheSet(config, cache, code, None, now, f.write);
        }
        return;
      }
      if config.cached {
        cache := CacheSet(config, cache, code, Some(r.value), now, f.write);
      }
    }

    /** A read through the breaker, then decoding: the sentinel, a URL, or nothing usable. */
    method CacheGet(code: string, now: nat, ok: bool) returns (hit: Option<Option<URL>>)
      requires config.cached
      ensures hit == Probe(config, cache, code, now, ok)
    {
      if !ok || code !in cache {
        return None;
      }
      var slot := cache[code];
      if slot.expiresAt.Some? && slot.expiresAt.value <= now {
        return None;
      }
      match slot.what
      case Sentinel => hit := Some(None);
      case Data(url) => hit := Some(Some(url));
      case Garbage => hit := None;
    }

    method CreateRow(url: URL, now: nat, f: Faults) returns (r: Result<(), Error>)
      modifies this
      ensures r == if !f.db then Failure(ErrDb)
                   else if url.shortCode in old(db) then Failure(ErrCodeConflict)
                   else Success(())
      ensures r.Failure? ==> db == old(db) && cache == old(cache)
      ensures r.Success? ==>
                && db == old(db)[url.shortCode := url]
                && cache == if config.cached && f.write
                            then old(cache)[url.shortCode := Slot(Data(url), Expires(now, config.ttl))]
                            else old(cache)
      ensures (r, State()) == Create(config, old(State()), url, now, f)
    {
      var (result, rows) := DbCreate(db, url, f.db);
      if result.Failure? {
        return result;
      }
      db := rows;
      if config.cached {
        cache := CacheSet(config, cache, url.shortCode, Some(url), now, f.write);
      }
      r := result;
    }

    method DeleteRow(code: string, f: Faults) returns (r: Result<(), Error>)
      modifies this
      ensures r == if !f.db then Failure(ErrDb)
                   else if code !in old(db) then Failure(ErrNotFound)
                   else Success(())
      ensures r.Failure? ==> db == old(db) && cache == old(cache)
      ensures r.Success? ==>
                && db == old(db) - {code}
                && cache == if config.cached && f.write then old(cache) - {code} else old(cache)
      ensures (r, State()) == Delete(config, old(State()), code, f)
    {
      var (result, rows) := DbDelete(db, code, f.db);
      if result.Failure? {
        return result;
      }
      db := rows;
      if config.cached {
        cache := CacheDel(config, cache, code, f.write);
      }
      r := result;
    }
  }

  // ---------------------------------------------------------------- agreement with the plain repository

  /** Every cached URL is the database row; every sentinel's code is absent from the database. */
  ghost predicate Coherent(s: Store) {
    forall code :: code in s.cache && s.cache[code].what != Garbage ==>
      FromCache(s.cache[code].what) == Lookup(s.db, code)
  }

  /** Whatever the cache does, a Get leaves the database alone and never makes the cache incoherent, and
      on a coherent cache with a working database it answers as the database does. */
  lemma GetRefines(c: Config, s: Store, code: string, now: nat, f: Faults)
    requires Coherent(s)
    ensures var (r, s') := Get(c, s, code, now, f);
            s'.db == s.db && Coherent(s') && (f.db ==> r == DbGet(s.db, code, true))
  {
    var (r, s') := Get(c, s, code, now, f);
    if Probe(c, s.cache, code, now, f.probe).None? && Probe(c, s.cache, code, now, f.recheck).None? {
      forall k | k in s'.cache && s'.cache[k].what != Garbage
        ensures FromCache(s'.cache[k].what) == Lookup(s.db, k)
      {
        if k != code {
          assert s'.cache[k] == s.cache[k];
        }
      }
    }
  }

  /** The cache holds something readable for `code`. */
  predicate Readable(s: Store, code: string) {
    code in s.cache && s.cache[code].what != Garbage
  }

  /** Writes have the database's result and effect under every cache fault. They keep a coherent cache
      coherent exactly when the write failed in the database, or the cache call landed, or the cache had
      nothing readable for the code. */
  lemma CreateRefines(c: Config, s: Store, url: URL, now: nat, f: Faults)
    ensures var (r, s') := Create(c, s, url, now, f);
            && (r, s'.db) == DbCreate(s.db, url, f.db)
            && (Coherent(s) ==>
                (Coherent(s') <==> r.Failure? || (c.cached && f.write) || !Readable(s, url.shortCode)))
  {
  }

  lemma DeleteRefines(c: Config, s: Store, code: string, f: Faults)
    ensures var (r, s') := Delete(c, s, code, f);
            && (r, s'.db) == DbDelete(s.db, code, f.db)
            && (Coherent(s) ==>
                (Coherent(s') <==> r.Failure? || (c.cached && f.write) || !Readable(s, code)))
  {
  }

  // ---------------------------------------------------------------- what the cache remembers, and for how long

  /** What a Get without a working database is told. */
  function Remembered(c: Config, s: Store, code: string, now: nat): Result<URL, Error> {
    Get(c, s, code, now, Faults(true, true, true, false)).0
  }

  /** A code found missing is reported missing for one minute, to the millisecond, whatever happens to the
      database meanwhile. */
  lemma AbsenceLastsAMinute(c: Config, s: Store, code: string, now: nat, f: Faults, db: Database, later: nat)
    requires c.cached && f.db && f.write && code !in s.db
    requires !Usable(c, s.cache, code, now)
    ensures var s' := Get(c, s, code, now, f).1;
            Remembered(c, s'.(db := db), code, later) ==
            if later < now + 60000 then Failure(ErrNotFound) else Failure(ErrDb)
  {
  }

  /** A URL that was read, or created, is remembered for the configured time, for ever if that is zero. */
  lemma UrlLastsTtl(c: Config, s: Store, url: URL, now: nat, f: Faults, db: Database, later: nat)
    requires c.cached && f.db && f.write
    ensures url.shortCode in s.db && s.db[url.shortCode] == url && !Usable(c, s.cache, url.shortCode, now) ==>
              Remembered(c, Get(c, s, url.shortCode, now, f).1.(db := db), url.shortCode, later) ==
              if c.ttl == 0 || later < now + c.ttl then Success(url) else Failure(ErrDb)
    ensures url.shortCode !in s.db ==>
              Remembered(c, Create(c, s, url, now, f).1.(db := db), url.shortCode, later) ==
              if c.ttl == 0 || later < now + c.ttl then Success(url) else Failure(ErrDb)
  {
  }

  /** A deleted URL is forgotten at once. */
  lemma DeletedIsForgotten(c: Config, s: Store, code: string, f: Faults, db: Database, later: nat)
    requires f.db && f.write && code in s.db
    ensures Remembered(c, Delete(c, s, code, f).1.(db := db), code, later) == Failure(ErrDb)
  {
  }

  // ---------------------------------------------------------------- degradation over whole runs

  datatype Op = GetOp(code: string) | CreateOp(url: URL) | DeleteOp(code: string)
  datatype Call = Call(op: Op, now: nat, faults: Faults)
  datatype Reply = Row(row: Result<URL, Error>) | Done(done: Result<(), Error>)

  function Serve(c: Config, s: Store, call: Call): (Reply, Store) {
    match call.op
    case GetOp(code) => var (r, s') := Get(c, s, code, call.now, call.faults); (Row(r), s')
    case CreateOp(url) => var (r, s') := Create(c, s, url, call.now, call.faults); (Done(r), s')
    case DeleteOp(code) => var (r, s') := Delete(c, s, code, call.faults); (Done(r), s')
  }

  function PlainServe(db: Database, call: Call): (Reply, Database) {
    match call.op
    case GetOp(code) => (Row(DbGet(db, code, call.faults.db)), db)
    case CreateOp(url) => var (r, db') := DbCreate(db, url, call.faults.db); (Done(r), db')
    case DeleteOp(code) => var (r, db') := DbDelete(db, code, call.faults.db); (Done(r), db')
  }

  function ServeAll(c: Config, s: Store, calls: seq<Call>): (seq<Reply>, Store)
    decreases |calls|
  {
    if calls == [] then ([], s) else
      var (r, s') := Serve(c, s, calls[0]);
      var (rs, s'') := ServeAll(c, s', calls[1..]);
      ([r] + rs, s'')
  }

  function PlainServeAll(db: Database, calls: seq<Call>): (seq<Reply>, Database)
    decreases |calls|
  {
    if calls == [] then ([], db) else
      var (r, db') := PlainServe(db, calls[0]);
      var (rs, db'') := PlainServeAll(db', calls[1..]);
      ([r] + rs, db'')
  }

  predicate CacheDown(c: Config, call: Call) {
    !c.cached || (!call.faults.probe && !call.faults.recheck && !call.faults.write)
  }

  /** With the cache down, or absent, the cached repository is the plain one on every call sequence,
      database failures included, whatever the cache held. */
  lemma {:induction false} GracefulDegradation(c: Config, s: Store, calls: seq<Call>)
    requires forall i :: 0 <= i < |calls| ==> CacheDown(c, calls[i])
    ensures ServeAll(c, s, calls).0 == PlainServeAll(s.db, calls).0
    ensures ServeAll(c, s, calls).1.db == PlainServeAll(s.db, calls).1
    decreases |calls|
  {
    if calls != [] {
      GracefulDegradation(c, Serve(c, s, calls[0]).1, calls[1..]);
    }
  }

  /** Under any mixture of cache faults, every write of a call sequence gets the reply it would get without
      a cache, and the database ends as it would. */
  lemma {:induction false} DatabaseIgnoresCache(c: Config, s: Store, calls: seq<Call>)
    ensures ServeAll(c, s, calls).1.db == PlainServeAll(s.db, calls).1
    ensures |ServeAll(c, s, calls).0| == |PlainServeAll(s.db, calls).0| == |calls|
    ensures forall i :: 0 <= i < |calls| && !calls[i].op.GetOp? ==>
              ServeAll(c, s, calls).0[i] == PlainServeAll(s.db, calls).0[i]
    decreases |calls|
  {
    if calls != [] {
      DatabaseIgnoresCache(c, Serve(c, s, calls[0]).1, calls[1..]);
    }
  }
}
