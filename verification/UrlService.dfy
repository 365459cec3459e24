/** The URL service: creating with retries, reading with an expiry check, deleting. */
module UrlService {
  import opened Options
  import opened UrlModel
  import opened Repository
  import Decimal
  import ShortCode
  import opened Arithmetic

  const DAY := 86_400_000

  datatype ServiceError = URLNotFound | URLExpired | CodeExists | ShortCodeGeneration | InvalidURL | DbFailure

  datatype Response =
    | Created(code: string, expiresAt: Option<int>)
    | Metadata(url: URL)
    | Target(original: string)
    | Deleted
    | Refused(error: ServiceError)

  datatype CreateRequest = CreateRequest(url: string, alias: string, expiresIn: int)

  /** What one insert attempt draws from outside: a fresh id, and which of its calls work. */
  datatype Attempt = Attempt(id: nat, faults: Faults)

  datatype Settings = Settings(repo: Config, generator: ShortCode.Generator, retries: int)

  function Expiry(req: CreateRequest, now: int): Option<int> {
    if req.expiresIn > 0 then Some(now + req.expiresIn * DAY) else None
  }

  function RowFor(req: CreateRequest, code: string, now: nat, attempt: Attempt): URL {
    URL(attempt.id, code, req.url, now, Expiry(req, now))
  }

  function Candidate(g: Settings, req: CreateRequest, k: nat): ShortCode.Generated {
    g.generator.Generate(req.url + Decimal.Itoa(k))
  }

  function GenerateFailure(e: ShortCode.GenerateError): ServiceError {
    match e
    case InvalidURL => InvalidURL
    case CodeTooShort => ShortCodeGeneration
  }

  /** The retry loop from attempt `k` on. */
  function CreateFrom(g: Settings, s: Store, req: CreateRequest, now: nat, attempts: nat -> Attempt,
                      k: nat): (Response, Store)
    decreases g.retries - k
  {
    if k >= g.retries then (Refused(ShortCodeGeneration), s) else
      match Candidate(g, req, k)
      case Failed(e) => (Refused(GenerateFailure(e)), s)
      case Code(code) =>
        var (r, s') := Create(g.repo, s, RowFor(req, code, now, attempts(k)), now, attempts(k).faults);
        match r
        case Success(_) => (Created(code, Expiry(req, now)), s')
        case Failure(ErrCodeConflict) => CreateFrom(g, s', req, now, attempts, k + 1)
        case Failure(_) => (Refused(DbFailure), s')
  }

  function CreateShort(g: Settings, s: Store, req: CreateRequest, now: nat,
                       attempts: nat -> Attempt): (Response, Store)
  {
    if req.alias == "" then CreateFrom(g, s, req, now, attempts, 0) else
      var (r, s') := Create(g.repo, s, RowFor(req, req.alias, now, attempts(0)), now, attempts(0).faults);
      match r
      case Success(_) => (Created(req.alias, Expiry(req, now)), s')
      case Failure(ErrCodeConflict) => (Refused(CodeExists), s')
      case Failure(_) => (Refused(DbFailure), s')
  }

  /** getAndValidateURL on the result of the repository. */
  function Validate(r: Result<URL, Error>, now: nat): Result<URL, ServiceError> {
    match r
    case Failure(ErrNotFound) => Failure(URLNotFound)
    case Failure(_) => Failure(DbFailure)
    case Success(url) => if url.expiresAt.Some? && url.expiresAt.value < now then Failure(URLExpired) else Success(url)
  }

  function DeleteReply(r: Result<(), Error>): Response {
    match r
    case Success(_) => Deleted
    case Failure(ErrNotFound) => Refused(URLNotFound)
    case Failure(_) => Refused(DbFailure)
  }

  // ---------------------------------------------------------------- the service object

  class URLService {
    const settings: Settings
    const repo: CachedURLRepository

    constructor (settings: Settings, repo: CachedURLRepository)
      requires repo.config == settings.repo
      ensures this.settings == settings && this.repo == repo
    {
      this.settings := settings;
      this.repo := repo;
    }

    /** With an alias, one insert under it; without, an insert under the first candidate that is not taken. */
    method CreateShortURL(req: CreateRequest, now: nat, attempts: nat -> Attempt) returns (response: Response)
      requires repo.config == settings.repo
      modifies repo
      ensures req.alias != "" ==>
                AliasOutcome(old(repo.db), repo.db, req, now, attempts(0), response)
      ensures req.alias == "" ==>
                exists n: nat :: RetryOutcome(settings, old(repo.db), repo.db, req, now, attempts, n, response)
      ensures (response, repo.State()) == CreateShort(settings, old(repo.State()), req, now, attempts)
    {
      CreateOutcome(settings, repo.State(), req, now, attempts);
      if req.alias != "" {
        var r := repo.CreateRow(RowFor(req, req.alias, now, attempts(0)), now, attempts(0).faults);
        if r.Failure? {
          if r.error == ErrCodeConflict {
            return Refused(CodeExists);
          }
          return Refused(DbFailure);
        }
        return Created(req.alias, Expiry(req, now));
      }
      var attempt := 0;
      while attempt < settings.retries
        invariant 0 <= attempt
        invariant CreateFrom(settings, old(repo.State()), req, now, attempts, 0)
               == CreateFrom(settings, repo.State(), req, now, attempts, attempt)
      {
        var candidate := settings.generator.Generate(req.url + Decimal.Itoa(attempt));
        if candidate.Failed? {
          return Refused(GenerateFailure(candidate.error));
        }
        var r := repo.CreateRow(RowFor(req, candidate.code, now, attempts(attempt)), now, attempts(attempt).faults);
        if r.Success? {
          return Created(candidate.code, Expiry(req, now));
        }
        if r.error != ErrCodeConflict {
          return Refused(DbFailure);
        }
        attempt := attempt + 1;
      }
      response := Refused(ShortCodeGeneration);
    }

    method GetURL(code: string, now: nat, f: Faults) returns (response: Response)
      requires repo.config == settings.repo
      modifies repo
      ensures response == match Get(settings.repo, old(repo.State()), code, now, f).0
                        case Failure(ErrNotFound) => Refused(URLNotFound)
                        case Failure(_) => Refused(DbFailure)
                        case Success(url) =>
                          if url.expiresAt.Some? && url.expiresAt.value < now then Refused(URLExpired)
                          else Metadata(url)
      ensures (response, repo.State()) == ServeGet(settings, old(repo.State()), code, now, f)
    {
      var r := repo.GetByCode(code, now, f);
      var v := Validate(r, now);
      response := if v.Failure? then Refused(v.error) else Metadata(v.value);
    }

    method Redirect(code: string, now: nat, f: Faults) returns (response: Response)
      requires repo.config == settings.repo
      modifies repo
      ensures response == match Get(settings.repo, old(repo.State()), code, now, f).0
                        case Failure(ErrNotFound) => Refused(URLNotFound)
                        case Failure(_) => Refused(DbFailure)
                        case Success(url) =>
                          if url.expiresAt.Some? && url.expiresAt.value < now then Refused(URLExpired)
                          else Target(url.originalURL)
      ensures (response, repo.State()) == ServeRedirect(settings, old(repo.State()), code, now, f)
    {
      var r := repo.GetByCode(code, now, f);
      var v := Validate(r, now);
      response := if v.Failure? then Refused(v.error) else Target(v.value.originalURL);
    }

    method DeleteURL(code: string, f: Faults) returns (response: Response)
      requires repo.config == settings.repo
      modifies repo
      ensures response == if !f.db then Refused(DbFailure)
                          else if code !in old(repo.db) then Refused(URLNotFound)
                          else Deleted
      ensures repo.db == if response == Deleted then old(repo.db) - {code} else old(repo.db)
      ensures (response, repo.State()) == ServeDelete(settings, old(repo.State()), code, f)
    {
      var r := repo.DeleteRow(code, f);
      response := DeleteReply(r);
    }
  }

  function ServeGet(g: Settings, s: Store, code: string, now: nat, f: Faults): (Response, Store) {
    var (r, s') := Get(g.repo, s, code, now, f);
    (var v := Validate(r, now); if v.Failure? then Refused(v.error) else Metadata(v.value), s')
  }

  function ServeRedirect(g: Settings, s: Store, code: string, now: nat, f: Faults): (Response, Store) {
    var (r, s') := Get(g.repo, s, code, now, f);
    (var v := Validate(r, now); if v.Failure? then Refused(v.error) else Target(v.value.originalURL), s')
  }

  function ServeDelete(g: Settings, s: Store, code: string, f: Faults): (Response, Store) {
    var (r, s') := Delete(g.repo, s, code, f);
    (DeleteReply(r), s')
  }

  // ---------------------------------------------------------------- what a create does

  /** The row a request asks for, in full: days are counted as 86400000 milliseconds each. */
  predicate RowOf(row: URL, req: CreateRequest, code: string, now: nat, id: nat) {
    && row.id == id && row.shortCode == code && row.originalURL == req.url && row.createdAt == now
    && row.expiresAt == if req.expiresIn > 0 then Some(now + req.expiresIn * 86400000) else None
  }

  /** A row was added under a free code, and the response names it. */
  predicate Added(db: Database, db': Database, req: CreateRequest, code: string, now: nat, id: nat, r: Response) {
    && code !in db && code in db' && db' == db[code := db'[code]]
    && RowOf(db'[code], req, code, now, id)
    && r == Created(code, db'[code].expiresAt)
  }

  predicate AliasOutcome(db: Database, db': Database, req: CreateRequest, now: nat, attempt: Attempt, r: Response) {
    if !attempt.faults.db then r == Refused(DbFailure) && db' == db
    else if req.alias in db then r == Refused(CodeExists) && db' == db
    else Added(db, db', req, req.alias, now, attempt.id, r)
  }

  predicate CodeTaken(db: Database, candidate: ShortCode.Generated, attempt: Attempt) {
    candidate.Code? && candidate.code in db && attempt.faults.db
  }

  ghost predicate TakenBefore(g: Settings, db: Database, req: CreateRequest, attempts: nat -> Attempt, n: nat) {
    forall k :: 0 <= k < n ==> CodeTaken(db, g.generator.Generate(req.url + Decimal.Itoa(k)), attempts(k))
  }

  /** Attempts 0 to n-1 found the codes of the URL followed by their number taken, and attempt n, if there is
      one, decided. */
  ghost predicate RetryOutcome(g: Settings, db: Database, db': Database, req: CreateRequest, now: nat,
                               attempts: nat -> Attempt, n: nat, r: Response)
  {
    && TakenBefore(g, db, req, attempts, n)
    && if n >= g.retries then (n == 0 || n == g.retries) && r == Refused(ShortCodeGeneration) && db' == db
       else match g.generator.Generate(req.url + Decimal.Itoa(n))
         case Failed(InvalidURL) => r == Refused(InvalidURL) && db' == db
         case Failed(CodeTooShort) => r == Refused(ShortCodeGeneration) && db' == db
         case Code(code) =>
           if !attempts(n).faults.db then r == Refused(DbFailure) && db' == db
           else Added(db, db', req, code, now, attempts(n).id, r)
  }

  /** An attempt that does not find its code taken decides. */
  lemma {:induction false} AttemptDecides(g: Settings, s: Store, req: CreateRequest, now: nat,
                                          attempts: nat -> Attempt, k: nat)
    requires k < g.retries && TakenBefore(g, s.db, req, attempts, k)
    requires !CodeTaken(s.db, Candidate(g, req, k), attempts(k))
    ensures var (r, s') := CreateFrom(g, s, req, now, attempts, k);
            RetryOutcome(g, s.db, s'.db, req, now, attempts, k, r)
  {
  }

  lemma {:induction false} CreateFromOutcome(g: Settings, s: Store, req: CreateRequest, now: nat,
                                             attempts: nat -> Attempt, k: nat) returns (n: nat)
    requires (k == 0 || k <= g.retries) && TakenBefore(g, s.db, req, attempts, k)
    ensures var (r, s') := CreateFrom(g, s, req, now, attempts, k);
            RetryOutcome(g, s.db, s'.db, req, now, attempts, n, r)
    decreases g.retries - k
  {
    n := k;
    if k < g.retries {
      if CodeTaken(s.db, Candidate(g, req, k), attempts(k)) {
        n := CreateFromOutcome(g, s, req, now, attempts, k + 1);
      } else {
        AttemptDecides(g, s, req, now, attempts, k);
      }
    }
  }

  lemma CreateOutcome(g: Settings, s: Store, req: CreateRequest, now: nat, attempts: nat -> Attempt)
    ensures var (r, s') := CreateShort(g, s, req, now, attempts);
            && (req.alias != "" ==> AliasOutcome(s.db, s'.db, req, now, attempts(0), r))
            && (req.alias == "" ==> exists n: nat :: RetryOutcome(g, s.db, s'.db, req, now, attempts, n, r))
  {
    if req.alias == "" {
      var n := CreateFromOutcome(g, s, req, now, attempts, 0);
      assert CreateShort(g, s, req, now, attempts) == CreateFrom(g, s, req, now, attempts, 0);
    }
  }

  /** Attempt k asks for the URL followed by k in decimal digits, so no two attempts ask for the same. */
  lemma AttemptsDiffer(url: string, i: nat, j: nat)
    ensures Decimal.AllDigits(Decimal.Itoa(i)) && Decimal.Atoi(Decimal.Itoa(i)) == i
    ensures url + Decimal.Itoa(i) == url + Decimal.Itoa(j) <==> i == j
  {
    Decimal.AtoiItoa(i);
    Decimal.AtoiItoa(j);
    if url + Decimal.Itoa(i) == url + Decimal.Itoa(j) {
      assert (url + Decimal.Itoa(i))[|url|..] == Decimal.Itoa(i);
      assert (url + Decimal.Itoa(j))[|url|..] == Decimal.Itoa(j);
    }
  }

  lemma {:induction false} CountCodes(g: Settings, req: CreateRequest, db: Database, n: nat)
      returns (codes: set<string>)
    requires forall k :: 0 <= k < n ==> Candidate(g, req, k).Code? && Candidate(g, req, k).code in db
    requires forall i, j :: 0 <= i < j < n ==> Candidate(g, req, i) != Candidate(g, req, j)
    ensures |codes| == n && codes <= db.Keys
    ensures forall c :: c in codes ==> exists k :: 0 <= k < n && Candidate(g, req, k) == ShortCode.Code(c)
  {
    codes := {};
    if n > 0 {
      codes := CountCodes(g, req, db, n - 1);
      assert Candidate(g, req, n - 1).code !in codes;
      codes := codes + {Candidate(g, req, n - 1).code};
    }
  }

  /** When nothing fails, the generator gives the attempts different codes, and there are more attempts than
      rows, a create without alias succeeds. That the codes differ is an assumption about the hash. */
  lemma EnoughAttemptsSucceed(g: Settings, s: Store, req: CreateRequest, now: nat, attempts: nat -> Attempt)
    requires req.alias == "" && g.retries > |s.db|
    requires forall k :: 0 <= k < g.retries ==>
               attempts(k).faults.db && g.generator.Generate(req.url + Decimal.Itoa(k)).Code?
    requires forall i, j :: 0 <= i < j < g.retries ==>
               g.generator.Generate(req.url + Decimal.Itoa(i)) != g.generator.Generate(req.url + Decimal.Itoa(j))
    ensures CreateShort(g, s, req, now, attempts).0.Created?
  {
    var n := CreateFromOutcome(g, s, req, now, attempts, 0);
    if n >= g.retries {
      var codes := CountCodes(g, req, s.db, n);
      assert |s.db| == |s.db.Keys|;
      SubsetSize(codes, s.db.Keys);
    }
  }

  // ---------------------------------------------------------------- create is all or nothing

  /** Success adds exactly one row, under the returned code and for the requested URL, and the code was
      free; failure leaves the database as it was. This holds under every cache and database fault. */
  lemma {:induction false} CreateFromAllOrNothing(g: Settings, s: Store, req: CreateRequest, now: nat,
                                                 attempts: nat -> Attempt, k: nat)
    ensures var (r, s') := CreateFrom(g, s, req, now, attempts, k);
            AllOrNothing(s.db, s'.db, req, r)
    decreases g.retries - k
  {
    if k < g.retries && Candidate(g, req, k).Code? {
      var code := Candidate(g, req, k).code;
      var (r, s') := Create(g.repo, s, RowFor(req, code, now, attempts(k)), now, attempts(k).faults);
      if r == Failure(ErrCodeConflict) {
        CreateFromAllOrNothing(g, s', req, now, attempts, k + 1);
      }
    }
  }

  predicate AllOrNothing(db: Database, db': Database, req: CreateRequest, r: Response) {
    if r.Created? then
      && r.code !in db && r.code in db'
      && db' == db[r.code := db'[r.code]]
      && db'[r.code].shortCode == r.code && db'[r.code].originalURL == req.url && db'[r.code].expiresAt == r.expiresAt
    else db' == db
  }

  lemma CreateAllOrNothing(g: Settings, s: Store, req: CreateRequest, now: nat, attempts: nat -> Attempt)
    ensures var (r, s') := CreateShort(g, s, req, now, attempts);
            AllOrNothing(s.db, s'.db, req, r)
  {
    if req.alias == "" {
      CreateFromAllOrNothing(g, s, req, now, attempts, 0);
    }
  }

  /** Attempt `j` finds its candidate taken. */
  predicate Taken(g: Settings, db: Database, req: CreateRequest, attempts: nat -> Attempt, j: nat) {
    Candidate(g, req, j).Code? && Candidate(g, req, j).code in db && attempts(j).faults.db
  }

  /** No candidate from attempt `k` on fails to generate. */
  predicate AllGenerate(g: Settings, req: CreateRequest, k: nat)
    decreases g.retries - k
  {
    k >= g.retries || (Candidate(g, req, k).Code? && AllGenerate(g, req, k + 1))
  }

  /** Attempts `k` up to `end` all find their candidates taken. */
  predicate AllTaken(g: Settings, db: Database, req: CreateRequest, attempts: nat -> Attempt, k: nat, end: int)
    decreases end - k
  {
    k >= end || (Taken(g, db, req, attempts, k) && AllTaken(g, db, req, attempts, k + 1, end))
  }

  /** When every candidate generates, the loop reports a generation failure exactly when every one of
      them is taken. */
  lemma {:induction false} GenerationFailsIff(g: Settings, s: Store, req: CreateRequest, now: nat,
                                              attempts: nat -> Attempt, k: nat)
    requires AllGenerate(g, req, k)
    ensures CreateFrom(g, s, req, now, attempts, k).0 == Refused(ShortCodeGeneration) <==>
            AllTaken(g, s.db, req, attempts, k, g.retries)
    decreases g.retries - k
  {
    if k < g.retries {
      var code := Candidate(g, req, k).code;
      var (r, s') := Create(g.repo, s, RowFor(req, code, now, attempts(k)), now, attempts(k).faults);
      if r == Failure(ErrCodeConflict) {
        GenerationFailsIff(g, s', req, now, attempts, k + 1);
      }
    }
  }

  /** The loop creates at attempt `n`: the first candidate that is not taken, and it is free. */
  lemma {:induction false} CreatesFirstFree(g: Settings, s: Store, req: CreateRequest, now: nat,
                                            attempts: nat -> Attempt, k: nat)
      returns (n: nat)
    requires CreateFrom(g, s, req, now, attempts, k).0.Created?
    ensures k <= n < g.retries
    ensures Candidate(g, req, n) == ShortCode.Code(CreateFrom(g, s, req, now, attempts, k).0.code)
    ensures Candidate(g, req, n).code !in s.db
    ensures AllTaken(g, s.db, req, attempts, k, n)
    decreases g.retries - k
  {
    var code := Candidate(g, req, k).code;
    var (r, s') := Create(g.repo, s, RowFor(req, code, now, attempts(k)), now, attempts(k).faults);
    if r.Success? {
      n := k;
    } else {
      n := CreatesFirstFree(g, s', req, now, attempts, k + 1);
    }
  }

  // ---------------------------------------------------------------- fault-free refinement

  datatype Call =
    | CreateCall(req: CreateRequest, ids: nat -> nat)
    | GetCall(code: string)
    | RedirectCall(code: string)
    | DeleteCall(code: string)

  datatype Timed = Timed(call: Call, now: nat)

  function Working(ids: nat -> nat): nat -> Attempt {
    (k: nat) => Attempt(ids(k), ALL_WORK)
  }

  function Serve(g: Settings, s: Store, t: Timed): (Response, Store) {
    match t.call
    case CreateCall(req, ids) => CreateShort(g, s, req, t.now, Working(ids))
    case GetCall(code) => ServeGet(g, s, code, t.now, ALL_WORK)
    case RedirectCall(code) => ServeRedirect(g, s, code, t.now, ALL_WORK)
    case DeleteCall(code) => ServeDelete(g, s, code, ALL_WORK)
  }

  /** The reference: the same service over a plain map, with no cache anywhere. */
  function PlainServe(g: Settings, db: Database, t: Timed): (Response, Database) {
    match t.call
    case CreateCall(req, ids) => PlainCreate(g, db, req, t.now, ids)
    case GetCall(code) =>
      (match PlainFetch(db, code, t.now) case Failure(e) => Refused(e) case Success(url) => Metadata(url), db)
    case RedirectCall(code) =>
      (match PlainFetch(db, code, t.now) case Failure(e) => Refused(e) case Success(url) => Target(url.originalURL), db)
    case DeleteCall(code) => if code in db then (Deleted, db - {code}) else (Refused(URLNotFound), db)
  }

  function PlainFetch(db: Database, code: string, now: nat): Result<URL, ServiceError> {
    if code !in db then Failure(URLNotFound)
    else if db[code].expiresAt.Some? && db[code].expiresAt.value < now then Failure(URLExpired)
    else Success(db[code])
  }

  function PlainInsert(db: Database, req: CreateRequest, code: string, now: nat, id: nat): (Response, Database) {
    (Created(code, Expiry(req, now)), db[code := URL(id, code, req.url, now, Expiry(req, now))])
  }

  /** The first free candidate, or the reason there is none. */
  function PlainCreateFrom(g: Settings, db: Database, req: CreateRequest, now: nat, ids: nat -> nat,
                           k: nat): (Response, Database)
    decreases g.retries - k
  {
    if k >= g.retries then (Refused(ShortCodeGeneration), db) else
      match Candidate(g, req, k)
      case Failed(e) => (Refused(GenerateFailure(e)), db)
      case Code(code) =>
        if code in db then PlainCreateFrom(g, db, req, now, ids, k + 1) else PlainInsert(db, req, code, now, ids(k))
  }

  function PlainCreate(g: Settings, db: Database, req: CreateRequest, now: nat, ids: nat -> nat): (Response, Database) {
    if req.alias == "" then PlainCreateFrom(g, db, req, now, ids, 0)
    else if req.alias in db then (Refused(CodeExists), db)
    else PlainInsert(db, req, req.alias, now, ids(0))
  }

  lemma {:induction false} CreateFromRefines(g: Settings, s: Store, req: CreateRequest, now: nat, ids: nat -> nat,
                                             k: nat)
    requires g.repo.cached && Coherent(s)
    ensures var (r, s') := CreateFrom(g, s, req, now, Working(ids), k);
            (r, s'.db) == PlainCreateFrom(g, s.db, req, now, ids, k) && Coherent(s')
    decreases g.retries - k
  {
    if k < g.retries && Candidate(g, req, k).Code? {
      var code := Candidate(g, req, k).code;
      var row := RowFor(req, code, now, Working(ids)(k));
      CreateRefines(g.repo, s, row, now, ALL_WORK);
      var (r, s') := Create(g.repo, s, row, now, ALL_WORK);
      if code in s.db {
        CreateFromRefines(g, s', req, now, ids, k + 1);
      }
    }
  }

  lemma ServeRefines(g: Settings, s: Store, t: Timed)
    requires g.repo.cached && Coherent(s)
    ensures var (r, s') := Serve(g, s, t); (r, s'.db) == PlainServe(g, s.db, t) && Coherent(s')
  {
    match t.call
    case CreateCall(req, ids) =>
      if req.alias == "" {
        CreateFromRefines(g, s, req, t.now, ids, 0);
      } else {
        CreateRefines(g.repo, s, RowFor(req, req.alias, t.now, Working(ids)(0)), t.now, ALL_WORK);
      }
    case GetCall(code) => GetRefines(g.repo, s, code, t.now, ALL_WORK);
    case RedirectCall(code) => GetRefines(g.repo, s, code, t.now, ALL_WORK);
    case DeleteCall(code) => DeleteRefines(g.repo, s, code, ALL_WORK);
  }

  function ServeAll(g: Settings, s: Store, calls: seq<Timed>): seq<Response>
    decreases |calls|
  {
    if calls == [] then [] else
      var (r, s') := Serve(g, s, calls[0]);
      [r] + ServeAll(g, s', calls[1..])
  }

  function PlainServeAll(g: Settings, db: Database, calls: seq<Timed>): seq<Response>
    decreases |calls|
  {
    if calls == [] then [] else
      var (r, db') := PlainServe(g, db, calls[0]);
      [r] + PlainServeAll(g, db', calls[1..])
  }

  /** The cache is invisible: with working caches, every sequence of service calls, at any times, gets
      the responses a plain map with an expiry check would give. */
  lemma {:induction false} CacheIsInvisible(g: Settings, s: Store, calls: seq<Timed>)
    requires g.repo.cached && Coherent(s)
    ensures ServeAll(g, s, calls) == PlainServeAll(g, s.db, calls)
    decreases |calls|
  {
    if calls != [] {
      ServeRefines(g, s, calls[0]);
      CacheIsInvisible(g, Serve(g, s, calls[0]).1, calls[1..]);
    }
  }
}
