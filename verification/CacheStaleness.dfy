/** Bounded staleness: every live cache entry, and every answer, was true not long ago. */
module CacheStaleness {
  import opened Options
  import opened UrlModel
  import opened CacheProtocol

  /** At time `t` of the history the database held `content` under `code`. */
  ghost predicate Was(history: seq<State>, code: string, content: Option<URL>, t: nat) {
    exists j :: 0 <= j < |history| && history[j].clock == t && Lookup(history[j].db, code) == content
  }

  /** The database held `content` at a time no more than `age` before `until`. */
  ghost predicate WasWithin(history: seq<State>, code: string, content: Option<URL>, age: nat, until: int) {
    exists t: nat :: Was(history, code, content, t) && until <= t + age
  }

  ghost predicate EntryOk(ttl: Duration, gap: nat, history: seq<State>, code: string, e: Entry) {
    e.what != Garbage ==>
      WasWithin(history, code, FromCache(e.what), Ttl(ttl, FromCache(e.what)) + gap, e.expiresAt)
  }

  ghost predicate RequestOk(ttl: Duration, gap: nat, history: seq<State>, r: Request) {
    match r
    case GetWrite(code, content, readAt) => Was(history, code, content, readAt)
    case CreateWrite(url, readAt) => Was(history, url.shortCode, Some(url), readAt)
    case GetFinish(code, Content(content), at) => WasWithin(history, code, content, Ttl(ttl, content) + gap, at)
    case _ => true
  }

  ghost predicate LateOk(history: seq<State>, l: Late) {
    l.LateSet? ==> Was(history, l.code, l.content, l.readAt)
  }

  ghost predicate CacheOk(ttl: Duration, gap: nat, history: seq<State>, cache: map<(string, string), Entry>) {
    forall k :: k in cache ==> EntryOk(ttl, gap, history, k.1, cache[k])
  }

  ghost predicate RequestsOk(ttl: Duration, gap: nat, history: seq<State>, requests: map<nat, Request>) {
    forall id :: id in requests ==> RequestOk(ttl, gap, history, requests[id])
  }

  ghost predicate Inv(ttl: Duration, gap: nat, history: seq<State>, s: State) {
    && CacheOk(ttl, gap, history, s.cache)
    && RequestsOk(ttl, gap, history, s.requests)
    && (forall l :: l in s.late ==> LateOk(history, l))
  }

  /** What was true stays on record. */
  lemma WasGrows(history: seq<State>, s: State, code: string, content: Option<URL>, t: nat)
    requires Was(history, code, content, t)
    ensures Was(history + [s], code, content, t)
  {
    var j :| 0 <= j < |history| && history[j].clock == t && Lookup(history[j].db, code) == content;
    assert (history + [s])[j] == history[j];
  }

  lemma WasWithinGrows(history: seq<State>, s: State, code: string, content: Option<URL>, age: nat, until: int)
    requires WasWithin(history, code, content, age, until)
    ensures WasWithin(history + [s], code, content, age, until)
  {
    var t: nat :| Was(history, code, content, t) && until <= t + age;
    WasGrows(history, s, code, content, t);
  }

  lemma RequestGrows(ttl: Duration, gap: nat, history: seq<State>, s: State, r: Request)
    requires RequestOk(ttl, gap, history, r)
    ensures RequestOk(ttl, gap, history + [s], r)
  {
    match r
    case GetWrite(code, content, readAt) => WasGrows(history, s, code, content, readAt);
    case CreateWrite(url, readAt) => WasGrows(history, s, url.shortCode, Some(url), readAt);
    case GetFinish(code, Content(content), at) =>
      WasWithinGrows(history, s, code, content, Ttl(ttl, content) + gap, at);
    case _ =>
  }

  lemma InvGrows(ttl: Duration, gap: nat, history: seq<State>, s: State, s': State)
    requires Inv(ttl, gap, history, s)
    ensures Inv(ttl, gap, history + [s'], s)
  {
    forall k | k in s.cache
      ensures EntryOk(ttl, gap, history + [s'], k.1, s.cache[k])
    {
      var e := s.cache[k];
      if e.what != Garbage {
        WasWithinGrows(history, s', k.1, FromCache(e.what), Ttl(ttl, FromCache(e.what)) + gap, e.expiresAt);
      }
    }
    forall id | id in s.requests
      ensures RequestOk(ttl, gap, history + [s'], s.requests[id])
    {
      RequestGrows(ttl, gap, history, s', s.requests[id]);
    }
    forall l | l in s.late
      ensures LateOk(history + [s'], l)
    {
      if l.LateSet? {
        WasGrows(history, s', l.code, l.content, l.readAt);
      }
    }
  }

  /** A cache read returns something that was true within the entry's time to live plus the gap. */
  lemma HitIsRecent(ttl: Duration, gap: nat, history: seq<State>, s: State, node: string, code: string, ok: bool)
    requires Inv(ttl, gap, history, s) && CacheGet(s, node, code, ok).Some?
    ensures var content := CacheGet(s, node, code, ok).value;
            WasWithin(history, code, content, Ttl(ttl, content) + gap, s.clock)
  {
    var e := s.cache[(node, code)];
    assert EntryOk(ttl, gap, history, code, e);
    var content := FromCache(e.what);
    var t: nat :| Was(history, code, content, t) && e.expiresAt <= t + Ttl(ttl, content) + gap;
  }

  /** Installing a value keeps the cache invariant when the value is at most `gap` old. */
  lemma PutOk(ttl: Duration, gap: nat, history: seq<State>, s: State, node: string, code: string,
              content: Option<URL>, readAt: nat)
    requires Inv(ttl, gap, history, s)
    requires Was(history, code, content, readAt) && s.clock <= readAt + gap
    ensures Inv(ttl, gap, history, Put(ttl, s, node, code, content))
  {
    var e := Entry(ToCache(content), s.clock + Ttl(ttl, content));
    assert FromCache(e.what) == content;
    assert WasWithin(history, code, content, Ttl(ttl, content) + gap, e.expiresAt);
  }

  lemma GotoOk(ttl: Duration, gap: nat, history: seq<State>, s: State, id: nat, r: Request)
    requires Inv(ttl, gap, history, s) && RequestOk(ttl, gap, history, r)
    ensures Inv(ttl, gap, history, Goto(s, id, r))
  {
  }

  lemma SetOk(ttl: Duration, gap: nat, history: seq<State>, s: State, node: string, code: string,
              content: Option<URL>, readAt: nat, o: Outcome)
    requires Inv(ttl, gap, history, s) && Was(history, code, content, readAt)
    requires o == Landed ==> s.clock <= readAt + gap
    ensures Inv(ttl, gap, history, Set(ttl, s, node, code, content, readAt, o))
  {
    if o == Landed {
      PutOk(ttl, gap, history, s, node, code, content, readAt);
    }
  }

  lemma NowIsRecent(history: seq<State>, s: State, code: string)
    requires s in history
    ensures Was(history, code, Lookup(s.db, code), s.clock)
  {
    var j :| 0 <= j < |history| && history[j] == s;
  }

  lemma WasIsWithin(history: seq<State>, code: string, content: Option<URL>, t: nat, age: nat)
    requires Was(history, code, content, t)
    ensures WasWithin(history, code, content, age, t)
  {
    assert t <= t + age;
  }

  /** Steps of a Get. */
  lemma GetStepOk(ttl: Duration, gap: nat, history: seq<State>, s: State, step: Step)
    requires Inv(ttl, gap, history, s) && s in history
    requires Enabled(s, step) && WritesWithin(gap, s, step)
    requires step.Probe? || step.Recheck? || step.ReadDb? || step.Join?
    ensures Inv(ttl, gap, history, Apply(ttl, s, step))
  {
    match step
    case Probe(_, _, _) =>
    case Recheck(id, node, ok) =>
      var code := s.requests[id].code;
      if CacheGet(s, node, code, ok).Some? {
        HitIsRecent(ttl, gap, history, s, node, code, ok);
      }
    case ReadDb(id, ok) =>
      NowIsRecent(history, s, s.requests[id].code);
    case Join(_) =>
  }

  lemma RewriteOk(ttl: Duration, gap: nat, history: seq<State>, s: State, step: Step)
    requires Inv(ttl, gap, history, s)
    requires Enabled(s, step) && WritesWithin(gap, s, step) && step.Rewrite?
    ensures Inv(ttl, gap, history, Apply(ttl, s, step))
  {
    var r := s.requests[step.id];
    assert RequestOk(ttl, gap, history, r);
    SetOk(ttl, gap, history, s, step.node, r.code, r.content, r.readAt, step.outcome);
    WasIsWithin(history, r.code, r.content, r.readAt, Ttl(ttl, r.content) + gap);
    GotoOk(ttl, gap, history, Set(ttl, s, step.node, r.code, r.content, r.readAt, step.outcome), step.id,
           GetFinish(r.code, Content(r.content), r.readAt));
  }

  lemma FinishOk(ttl: Duration, gap: nat, history: seq<State>, s: State, step: Step)
    requires Inv(ttl, gap, history, s)
    requires Enabled(s, step) && step.Finish?
    ensures Inv(ttl, gap, history, Apply(ttl, s, step))
  {
  }

  /** `history` already ends in the state after the step, which is where a Create's row is on record. */
  lemma InsertOk(ttl: Duration, gap: nat, history: seq<State>, s: State, step: Step)
    requires Inv(ttl, gap, history, s)
    requires Enabled(s, step) && step.InsertDb? && Apply(ttl, s, step) in history
    ensures Inv(ttl, gap, history, Apply(ttl, s, step))
  {
    NowIsRecent(history, Apply(ttl, s, step), s.requests[step.id].url.shortCode);
  }

  lemma CacheNewOk(ttl: Duration, gap: nat, history: seq<State>, s: State, step: Step)
    requires Inv(ttl, gap, history, s)
    requires Enabled(s, step) && WritesWithin(gap, s, step) && step.CacheNew?
    ensures Inv(ttl, gap, history, Apply(ttl, s, step))
  {
    var r := s.requests[step.id];
    assert RequestOk(ttl, gap, history, r);
    SetOk(ttl, gap, history, s, step.node, r.url.shortCode, Some(r.url), r.readAt, step.outcome);
    GotoOk(ttl, gap, history, Set(ttl, s, step.node, r.url.shortCode, Some(r.url), r.readAt, step.outcome), step.id,
           Done(r.url.shortCode, Ok, s.clock));
  }

  lemma WorldStepOk(ttl: Duration, gap: nat, history: seq<State>, s: State, step: Step)
    requires Inv(ttl, gap, history, s)
    requires Enabled(s, step) && WritesWithin(gap, s, step) && WorldStep(step)
    ensures Inv(ttl, gap, history, Apply(ttl, s, step))
  {
    if step.LandLate? && step.what.LateSet? {
      assert LateOk(history, step.what);
      PutOk(ttl, gap, history, s, step.what.node, step.what.code, step.what.content, step.what.readAt);
    }
  }

  lemma DeleteOk(ttl: Duration, gap: nat, history: seq<State>, s: State, step: Step)
    requires Inv(ttl, gap, history, s)
    requires Enabled(s, step) && (step.Begin? || step.DeleteDb?)
    ensures Inv(ttl, gap, history, Apply(ttl, s, step))
  {
  }

  lemma InvalidateOk(ttl: Duration, gap: nat, history: seq<State>, s: State, step: Step)
    requires Inv(ttl, gap, history, s)
    requires Enabled(s, step) && step.Invalidate?
    ensures Inv(ttl, gap, history, Apply(ttl, s, step))
  {
    var code := s.requests[step.id].code;
    assert Inv(ttl, gap, history, Drop(s, step.node, code, step.outcome));
    GotoOk(ttl, gap, history, Drop(s, step.node, code, step.outcome), step.id, Done(code, Ok, s.clock));
  }

  lemma StepOk(ttl: Duration, gap: nat, history: seq<State>, s: State, step: Step)
    requires Inv(ttl, gap, history, s) && s in history
    requires Enabled(s, step) && WritesWithin(gap, s, step)
    ensures Inv(ttl, gap, history + [Apply(ttl, s, step)], Apply(ttl, s, step))
  {
    var s' := Apply(ttl, s, step);
    InvGrows(ttl, gap, history, s, s');
    var longer := history + [s'];
    assert longer[|history|] == s';
    if step.Probe? || step.Recheck? || step.ReadDb? || step.Join? {
      GetStepOk(ttl, gap, longer, s, step);
    } else if step.Rewrite? {
      RewriteOk(ttl, gap, longer, s, step);
    } else if step.Finish? {
      FinishOk(ttl, gap, longer, s, step);
    } else if step.InsertDb? {
      InsertOk(ttl, gap, longer, s, step);
    } else if step.CacheNew? {
      CacheNewOk(ttl, gap, longer, s, step);
    } else if WorldStep(step) {
      WorldStepOk(ttl, gap, longer, s, step);
    } else if step.Invalidate? {
      InvalidateOk(ttl, gap, longer, s, step);
    } else {
      DeleteOk(ttl, gap, longer, s, step);
    }
  }

  ghost predicate RunWithin(ttl: Duration, gap: nat, states: seq<State>, steps: seq<Step>) {
    && Run(ttl, states, steps)
    && forall i :: 0 <= i < |steps| ==> WritesWithin(gap, states[i], steps[i])
  }

  lemma {:induction false} RunKeepsInv(ttl: Duration, gap: nat, states: seq<State>, steps: seq<Step>, i: nat)
    requires RunWithin(ttl, gap, states, steps) && i < |states|
    ensures Inv(ttl, gap, states[..i + 1], states[i])
  {
    if i > 0 {
      RunKeepsInv(ttl, gap, states, steps, i - 1);
      var history := states[..i];
      assert history[i - 1] == states[i - 1];
      StepOk(ttl, gap, history, states[i - 1], steps[i - 1]);
      assert states[..i + 1] == history + [states[i]];
    }
  }

  /** What was on record within `age` of `until` was in the database at a state of the run. */
  lemma OnRecord(states: seq<State>, i: nat, code: string, content: Option<URL>, age: nat, until: nat) returns (j: nat)
    requires i < |states| && WasWithin(states[..i + 1], code, content, age, until)
    ensures j <= i && Lookup(states[j].db, code) == content && until <= states[j].clock + age
  {
    var t: nat :| Was(states[..i + 1], code, content, t) && until <= t + age;
    j :| 0 <= j < |states[..i + 1]| && states[..i + 1][j].clock == t && Lookup(states[..i + 1][j].db, code) == content;
  }

  /** In every interleaving, a live cache entry equals what the database held for that code at some
      earlier moment of the run, less than the entry's time to live plus the write delay ago. */
  lemma BoundedStaleness(ttl: Duration, gap: nat, states: seq<State>, steps: seq<Step>, i: nat, node: string,
                         code: string)
      returns (j: nat)
    requires RunWithin(ttl, gap, states, steps) && i < |states|
    requires Live(states[i], node, code) && states[i].cache[(node, code)].what != Garbage
    ensures j <= i && ToCache(Lookup(states[j].db, code)) == states[i].cache[(node, code)].what
    ensures states[i].clock < states[j].clock + Ttl(ttl, Lookup(states[j].db, code)) + gap
  {
    RunKeepsInv(ttl, gap, states, steps, i);
    var e := states[i].cache[(node, code)];
    var content := FromCache(e.what);
    assert EntryOk(ttl, gap, states[..i + 1], code, e);
    j := OnRecord(states, i, code, content, Ttl(ttl, content) + gap, e.expiresAt);
  }

  /** This step gives request `id` its answer. */
  predicate Answers(ttl: Duration, s: State, step: Step, id: nat)
    requires Enabled(s, step)
  {
    var s' := Apply(ttl, s, step);
    && id in s'.requests && s'.requests[id].Done? && s'.requests[id].reply.Content?
    && !(id in s.requests && s.requests[id].Done?)
  }

  /** Only a cache hit or the end of a flight answers a Get. */
  lemma AnsweredBy(ttl: Duration, s: State, step: Step, id: nat)
    requires Enabled(s, step) && Answers(ttl, s, step, id)
    ensures var r := Apply(ttl, s, step).requests[id];
            && r.at == s.clock
            && (step.Probe? || step.Finish?)
            && (step.Probe? ==> CacheGet(s, step.node, r.code, step.ok) == Some(r.reply.content))
            && (step.Finish? ==> r.code == s.requests[step.id].code && r.reply == s.requests[step.id].reply)
  {
    if !ReaderStep(step) {
      OnlyReadersAnswer(ttl, s, step, id);
    } else if !step.Finish? {
      assert id == step.id;
    }
  }

  lemma OnlyReadersAnswer(ttl: Duration, s: State, step: Step, id: nat)
    requires Enabled(s, step) && !ReaderStep(step)
    ensures !Answers(ttl, s, step, id)
  {
    if WorldStep(step) {
      assert Apply(ttl, s, step).requests == s.requests;
    }
  }

  /** Every answer was the database's content at most the time to live plus the write delay before the Get
      returned; an answer shared through a flight may be older by the time the flight held on to it. */
  lemma BoundedAnswers(ttl: Duration, gap: nat, flight: nat, states: seq<State>, steps: seq<Step>, k: nat, id: nat)
      returns (j: nat)
    requires RunWithin(ttl, gap, states, steps) && k < |steps|
    requires Answers(ttl, states[k], steps[k], id)
    requires steps[k].Finish? ==> states[k].clock <= states[k].requests[steps[k].id].at + flight
    ensures var r := states[k + 1].requests[id];
            && r.at == states[k].clock == states[k + 1].clock
            && j <= k && Lookup(states[j].db, r.code) == r.reply.content
            && r.at <= states[j].clock + Ttl(ttl, r.reply.content) + gap + if steps[k].Finish? then flight else 0
  {
    RunKeepsInv(ttl, gap, states, steps, k);
    AnsweredBy(ttl, states[k], steps[k], id);
    var r := states[k + 1].requests[id];
    var content := r.reply.content;
    if steps[k].Finish? {
      var leader := states[k].requests[steps[k].id];
      assert RequestOk(ttl, gap, states[..k + 1], leader);
      j := OnRecord(states, k, r.code, content, Ttl(ttl, content) + gap, leader.at);
    } else {
      HitIsRecent(ttl, gap, states[..k + 1], states[k], steps[k].node, r.code, steps[k].ok);
      j := OnRecord(states, k, r.code, content, Ttl(ttl, content) + gap, states[k].clock);
    }
  }
}
