/**
 The rate limiter's token bucket script. A stored token count is always a whole number, so the
 refill arithmetic is exact when it is counted in units of 1/60000 token: a bucket earns `rate`
 units per millisecond and a request costs TOKEN units.
 */
module TokenBucket {
  import opened Options
  import opened Arithmetic

  const TOKEN := 60000
  const KEY_TTL := 120000

  datatype Config = Config(rate: nat, burst: nat)
  type Limits = c: Config | c.rate >= 1 witness Config(1, 0)

  /** The Redis hash of one client address. */
  datatype Stored = Stored(tokens: nat, lastRefill: nat)

  datatype Reply = Reply(allowed: bool, remaining: nat, retryAfterMs: nat)

  function Min(a: nat, b: nat): nat {
    if a <= b then a else b
  }

  function CeilDiv(a: nat, b: nat): (q: nat)
    requires b > 0
    ensures a <= q * b < a + b
  {
    (a + b - 1) / b
  }

  /** The refilled count, in units: a missing key stands for a full bucket. */
  function Credit(c: Limits, key: Option<Stored>, now: nat): (units: nat)
    ensures units <= c.burst * TOKEN
  {
    match key
    case None => c.burst * TOKEN
    case Some(st) =>
      var elapsed := if now >= st.lastRefill then now - st.lastRefill else 0;
      Min(c.burst * TOKEN, st.tokens * TOKEN + elapsed * c.rate)
  }

  function Decide(c: Limits, units: nat): Reply {
    if units >= TOKEN then
      Reply(true, (units - TOKEN) / TOKEN, 0)
    else
      Reply(false, 0, CeilDiv(TOKEN - units, c.rate))
  }

  /** The script in whole tokens: of the refilled count only the whole tokens matter, to the decision as to
      what is left; the rest shortens the advertised wait. */
  lemma WholeTokens(c: Limits, tokens: nat, elapsed: nat)
    ensures var earned := elapsed * c.rate;
            var full := Min(c.burst, tokens + earned / TOKEN);
            var units := Min(c.burst * TOKEN, tokens * TOKEN + earned);
            && (units >= TOKEN <==> full >= 1)
            && (units >= TOKEN ==> (units - TOKEN) / TOKEN == full - 1)
            && (units < TOKEN ==>
                  && TOKEN - units == 60000 - (if c.burst == 0 then 0 else earned)
                  && (CeilDiv(TOKEN - units, c.rate) - 1) * c.rate < TOKEN - units
                       <= CeilDiv(TOKEN - units, c.rate) * c.rate)
  {
    var earned := elapsed * c.rate;
    var units := Min(c.burst * TOKEN, tokens * TOKEN + earned);
    WholePart(c.burst, tokens, earned);
    if units < TOKEN {
      var q := CeilDiv(TOKEN - units, c.rate);
      assert (q - 1) * c.rate == q * c.rate - c.rate;
    }
  }

  lemma WholePart(burst: nat, tokens: nat, earned: nat)
    ensures var units := Min(burst * TOKEN, tokens * TOKEN + earned);
            var full := Min(burst, tokens + earned / TOKEN);
            full * TOKEN <= units < full * TOKEN + TOKEN && (units >= TOKEN ==> (units - TOKEN) / TOKEN == full - 1)
  {
    QuotientAndRemainder(earned, TOKEN);
  }

  /** One bucket key, updated in place by each call of the script. */
  class Bucket {
    const limits: Limits
    var key: Option<Stored>
    var expiresAt: nat

    constructor (limits: Limits)
      ensures this.limits == limits && key == None
    {
      this.limits := limits;
      key := None;
      expiresAt := 0;
    }

    method Check(now: nat) returns (reply: Reply)
      modifies this
      ensures var n := if old(key).Some? then old(key).value.tokens else limits.burst;
              var t := if old(key).Some? then old(key).value.lastRefill else now;
              var earned := (if now >= t then now - t else 0) * limits.rate;
              var full := if limits.burst <= n + earned / 60000 then limits.burst else n + earned / 60000;
              && (reply.allowed <==> full >= 1)
              && reply.remaining == (if full >= 1 then full - 1 else 0)
              && (reply.allowed ==> reply.retryAfterMs == 0)
              && (!reply.allowed ==>
                    var missing := 60000 - if limits.burst == 0 then 0 else earned;
                    && (reply.retryAfterMs - 1) * limits.rate < missing <= reply.retryAfterMs * limits.rate)
      ensures key == Some(Stored(reply.remaining, now))
      ensures expiresAt == now + 120000
      ensures reply == Decide(limits, Credit(limits, old(key), now))
    {
      var tokens := if key.Some? then key.value.tokens else limits.burst;
      var lastRefill := if key.Some? then key.value.lastRefill else now;
      var elapsed := if now - lastRefill >= 0 then now - lastRefill else 0;
      var units := Min(limits.burst * TOKEN, tokens * TOKEN + elapsed * limits.rate);
      var allowed, remaining, retryAfterMs;
      if units >= TOKEN {
        remaining := (units - TOKEN) / TOKEN;
        allowed := true;
        retryAfterMs := 0;
      } else {
        remaining := 0;
        allowed := false;
        retryAfterMs := CeilDiv(TOKEN - units, limits.rate);
      }
      key := Some(Stored(remaining, now));
      expiresAt := now + KEY_TTL;
      reply := Reply(allowed, remaining, retryAfterMs);
      WholeTokens(limits, tokens, elapsed);
    }

    /** Redis drops the key once its time to live is over. */
    method Expire(now: nat)
      requires key.Some? && now >= expiresAt
      modifies this
      ensures key == None && expiresAt == old(expiresAt)
    {
      key := None;
    }

    /** A whole run of calls, with the expiries in between. */
    method CheckAll(calls: seq<Call>) returns (replies: seq<Reply>)
      requires Legal(key, calls) && (key.Some? ==> expiresAt == key.value.lastRefill + KEY_TTL)
      modifies this
      ensures replies == Replies(limits, old(key), calls)
      ensures key == KeyAfter(limits, old(key), calls)
    {
      replies := [];
      for i := 0 to |calls|
        invariant Legal(key, calls[i..]) && (key.Some? ==> expiresAt == key.value.lastRefill + KEY_TTL)
        invariant replies + Replies(limits, key, calls[i..]) == Replies(limits, old(key), calls)
        invariant KeyAfter(limits, key, calls[i..]) == KeyAfter(limits, old(key), calls)
      {
        Unfold(limits, key, calls, i);
        if calls[i].lost && key.Some? {
          Expire(calls[i].now);
        }
        var reply := Check(calls[i].now);
        LegalIgnoresTokens(Some(Stored(0, calls[i].now)), key, calls[i + 1..]);
        RepliesAssoc(replies, reply, Replies(limits, key, calls[i + 1..]));
        replies := replies + [reply];
      }
    }
  }

  // ---------------------------------------------------------------- runs

  /** A call of the script; `lost` says that the key had expired before it. */
  datatype Call = Call(now: nat, lost: bool)

  function Seen(key: Option<Stored>, call: Call): Option<Stored> {
    if call.lost then None else key
  }

  function Answer(c: Limits, key: Option<Stored>, call: Call): Reply {
    Decide(c, Credit(c, Seen(key, call), call.now))
  }

  function After(c: Limits, key: Option<Stored>, call: Call): Option<Stored> {
    Some(Stored(Answer(c, key, call).remaining, call.now))
  }

  function Replies(c: Limits, key: Option<Stored>, calls: seq<Call>): (rs: seq<Reply>)
    ensures |rs| == |calls|
    decreases |calls|
  {
    if calls == [] then [] else [Answer(c, key, calls[0])] + Replies(c, After(c, key, calls[0]), calls[1..])
  }

  function KeyAfter(c: Limits, key: Option<Stored>, calls: seq<Call>): Option<Stored>
    decreases |calls|
  {
    if calls == [] then key else KeyAfter(c, After(c, key, calls[0]), calls[1..])
  }

  function Admitted(c: Limits, key: Option<Stored>, calls: seq<Call>): nat
    decreases |calls|
  {
    if calls == [] then 0
    else (if Answer(c, key, calls[0]).allowed then 1 else 0) + Admitted(c, After(c, key, calls[0]), calls[1..])
  }

  lemma {:induction false} Unfold(c: Limits, key: Option<Stored>, calls: seq<Call>, i: nat)
    requires i < |calls|
    ensures Replies(c, key, calls[i..]) ==
            [Answer(c, key, calls[i])] + Replies(c, After(c, key, calls[i]), calls[i + 1..])
    ensures KeyAfter(c, key, calls[i..]) == KeyAfter(c, After(c, key, calls[i]), calls[i + 1..])
    ensures Legal(key, calls[i..]) ==>
              && (key.Some? ==> key.value.lastRefill <= calls[i].now)
              && (key.Some? && calls[i].lost ==> calls[i].now - key.value.lastRefill >= KEY_TTL)
              && Legal(Some(Stored(0, calls[i].now)), calls[i + 1..])
  {
    assert calls[i..][1..] == calls[i + 1..];
  }

  lemma {:induction false} RepliesAssoc(done: seq<Reply>, reply: Reply, rest: seq<Reply>)
    ensures done + ([reply] + rest) == done + [reply] + rest
  {
  }

  /** The clock never runs backwards, and a key is lost only when its time to live has passed. */
  predicate Legal(key: Option<Stored>, calls: seq<Call>)
    decreases |calls|
  {
    calls == [] ||
    (&& (key.Some? ==> key.value.lastRefill <= calls[0].now)
     && (key.Some? && calls[0].lost ==> calls[0].now - key.value.lastRefill >= KEY_TTL)
     && Legal(Some(Stored(0, calls[0].now)), calls[1..]))
  }

  predicate Within(calls: seq<Call>, w: nat) {
    calls == [] || (calls[0].now <= calls[|calls| - 1].now <= calls[0].now + w)
  }

  /** Legality looks at times only, never at the stored count. */
  lemma LegalIgnoresTokens(key: Option<Stored>, key': Option<Stored>, calls: seq<Call>)
    requires key.Some? && key'.Some? && key.value.lastRefill == key'.value.lastRefill
    ensures Legal(key, calls) <==> Legal(key', calls)
  {
  }

  /** Any number of calls at one instant, after any gap: the stored tokens and the whole tokens earned since are
      served, up to the burst, and nothing more. */
  lemma {:induction false} VolleyServed(c: Limits, st: Stored, now: nat, k: nat)
    requires now >= st.lastRefill
    ensures var whole := (now - st.lastRefill) * c.rate / 60000;
            Admitted(c, Some(st), seq(k, _ => Call(now, false))) == Min(k, Min(c.burst, st.tokens + whole))
    decreases k
  {
    if k > 0 {
      var calls := seq(k, _ => Call(now, false));
      assert calls[1..] == seq(k - 1, _ => Call(now, false));
      WholeTokens(c, st.tokens, now - st.lastRefill);
      var reply := Answer(c, Some(st), calls[0]);
      VolleyServed(c, Stored(reply.remaining, now), now, k - 1);
      assert (now - now) * c.rate / 60000 == 0;
    }
  }

  /** The whole tokens a run earns, gap by gap. */
  function WholeEarned(c: Limits, st: Stored, calls: seq<Call>): nat
    decreases |calls|
  {
    if calls == [] then 0
    else (if calls[0].now >= st.lastRefill then calls[0].now - st.lastRefill else 0) * c.rate / 60000
         + WholeEarned(c, Stored(0, calls[0].now), calls[1..])
  }

  /** No refill of the run spills over the burst. */
  predicate NeverSpills(c: Limits, st: Stored, calls: seq<Call>)
    decreases |calls|
  {
    calls == [] ||
    (&& !calls[0].lost
     && st.tokens + (if calls[0].now >= st.lastRefill then calls[0].now - st.lastRefill else 0) * c.rate / 60000
          <= c.burst
     && NeverSpills(c, After(c, Some(st), calls[0]).value, calls[1..]))
  }

  /** Conservation: unless a refill spills over the burst, every whole token earned is served or still stored. */
  lemma {:induction false} TokensConserved(c: Limits, st: Stored, calls: seq<Call>)
    requires NeverSpills(c, st, calls)
    ensures KeyAfter(c, Some(st), calls).Some?
    ensures Admitted(c, Some(st), calls) + KeyAfter(c, Some(st), calls).value.tokens
            == st.tokens + WholeEarned(c, st, calls)
    decreases |calls|
  {
    if calls != [] {
      var elapsed := if calls[0].now >= st.lastRefill then calls[0].now - st.lastRefill else 0;
      WholeTokens(c, st.tokens, elapsed);
      var st' := After(c, Some(st), calls[0]).value;
      TokensConserved(c, st', calls[1..]);
    }
  }

  // ---------------------------------------------------------------- rate bound

  /** With burst <= 2*rate an idle bucket is full again by the time its key can expire. */
  lemma LosingIsRefilling(c: Limits, st: Stored, call: Call)
    requires c.burst <= 2 * c.rate
    requires call.lost && call.now >= st.lastRefill && call.now - st.lastRefill >= KEY_TTL
    ensures Answer(c, Some(st), call) == Answer(c, Some(st), call.(lost := false))
  {
    LosingIsFull(c, st, call);
  }

  ghost predicate ExpiryInvisible(c: Limits) {
    forall st: Stored, call: Call ::
      call.lost && call.now >= st.lastRefill && call.now - st.lastRefill >= KEY_TTL ==>
        Answer(c, Some(st), call) == Answer(c, Some(st), call.(lost := false))
  }

  /** No reply can tell an expired key from a kept one exactly when burst <= 2*rate. */
  lemma ExpiryInvisibleIff(c: Limits)
    ensures ExpiryInvisible(c) <==> c.burst <= 2 * c.rate
  {
    if c.burst <= 2 * c.rate {
      forall st: Stored, call: Call |
        call.lost && call.now >= st.lastRefill && call.now - st.lastRefill >= KEY_TTL
        ensures Answer(c, Some(st), call) == Answer(c, Some(st), call.(lost := false))
      {
        LosingIsRefilling(c, st, call);
      }
    } else {
      var st, call := Stored(0, 0), Call(KEY_TTL, true);
      assert Answer(c, Some(st), call).remaining == c.burst - 1;
      assert Credit(c, Some(st), KEY_TTL) == KEY_TTL * c.rate;
      assert Answer(c, Some(st), call.(lost := false)).remaining == 2 * c.rate - 1;
    }
  }

  /** What one call leaves behind, plus what the gap earns, covers the credit of the next call. */
  lemma CreditStep(c: Limits, key: Option<Stored>, call: Call, next: Call)
    requires call.now <= next.now
    requires next.lost ==> c.burst <= 2 * c.rate && next.now - call.now >= KEY_TTL
    ensures var spent := if Answer(c, key, call).allowed then TOKEN else 0;
            Credit(c, Seen(After(c, key, call), next), next.now) + spent
              <= Credit(c, Seen(key, call), call.now) + (next.now - call.now) * c.rate
  {
    var units := Credit(c, Seen(key, call), call.now);
    assert Answer(c, key, call).remaining * TOKEN + (if Answer(c, key, call).allowed then TOKEN else 0) <= units;
    if next.lost {
      LosingIsFull(c, After(c, key, call).value, next);
    }
  }

  lemma LosingIsFull(c: Limits, st: Stored, next: Call)
    requires c.burst <= 2 * c.rate && next.now >= st.lastRefill && next.now - st.lastRefill >= KEY_TTL
    ensures Credit(c, Some(st), next.now) == Credit(c, None, next.now)
  {
    Times(KEY_TTL, next.now - st.lastRefill, c.rate);
  }

  /** What the gaps of a run earn, gap by gap. */
  function Budget(c: Limits, calls: seq<Call>): nat
    requires Ordered(calls)
    decreases |calls|
  {
    if |calls| <= 1 then 0 else (calls[1].now - calls[0].now) * c.rate + Budget(c, calls[1..])
  }

  predicate Ordered(calls: seq<Call>) {
    forall i, j :: 0 <= i < j < |calls| ==> calls[i].now <= calls[j].now
  }

  lemma {:induction false} LegalIsOrdered(key: Option<Stored>, calls: seq<Call>)
    requires Legal(key, calls)
    ensures Ordered(calls)
    ensures key.Some? ==> forall i :: 0 <= i < |calls| ==> key.value.lastRefill <= calls[i].now
    decreases |calls|
  {
    if calls != [] {
      LegalIsOrdered(Some(Stored(0, calls[0].now)), calls[1..]);
      assert forall i :: 1 <= i < |calls| ==> calls[i] == calls[1..][i - 1];
    }
  }

  lemma {:induction false} BudgetIs(c: Limits, calls: seq<Call>)
    requires calls != [] && Ordered(calls)
    ensures Budget(c, calls) == (calls[|calls| - 1].now - calls[0].now) * c.rate
    decreases |calls|
  {
    if |calls| > 1 {
      BudgetIs(c, calls[1..]);
      Distribute(calls[1].now - calls[0].now, calls[|calls| - 1].now - calls[1].now, c.rate);
    }
  }

  lemma {:induction false} AdmittedWithinBudget(c: Limits, key: Option<Stored>, calls: seq<Call>)
    requires calls != [] && Legal(key, calls) && Ordered(calls)
    requires c.burst <= 2 * c.rate || forall i :: 0 <= i < |calls| ==> !calls[i].lost
    ensures Admitted(c, key, calls) * TOKEN <= Credit(c, Seen(key, calls[0]), calls[0].now) + Budget(c, calls)
    decreases |calls|
  {
    var rest, key' := calls[1..], After(c, key, calls[0]);
    if rest != [] {
      LegalIgnoresTokens(Some(Stored(0, calls[0].now)), key', rest);
      AdmittedWithinBudget(c, key', rest);
      CreditStep(c, key, calls[0], rest[0]);
    } else {
      assert Admitted(c, key', rest) == 0;
    }
  }

  lemma AdmittedWithinCredit(c: Limits, key: Option<Stored>, calls: seq<Call>)
    requires calls != [] && Legal(key, calls)
    requires c.burst <= 2 * c.rate || forall i :: 0 <= i < |calls| ==> !calls[i].lost
    ensures calls[0].now <= calls[|calls| - 1].now
    ensures Admitted(c, key, calls) * TOKEN
              <= Credit(c, Seen(key, calls[0]), calls[0].now) + (calls[|calls| - 1].now - calls[0].now) * c.rate
  {
    LegalIsOrdered(key, calls);
    AdmittedWithinBudget(c, key, calls);
    BudgetIs(c, calls);
  }

  /** In every window of every run, at most burst + rate*w/60000 requests are admitted. */
  ghost predicate RateBounded(c: Limits) {
    forall before: seq<Call>, window: seq<Call>, w: nat ::
      Legal(None, before + window) && Within(window, w) ==>
        Admitted(c, KeyAfter(c, None, before), window) * TOKEN <= c.burst * TOKEN + w * c.rate
  }

  lemma {:induction false} LegalSplit(c: Limits, key: Option<Stored>, before: seq<Call>, window: seq<Call>)
    requires Legal(key, before + window)
    ensures Legal(KeyAfter(c, key, before), window)
    decreases |before|
  {
    if before == [] {
      assert before + window == window;
    } else {
      assert (before + window)[1..] == before[1..] + window;
      LegalIgnoresTokens(Some(Stored(0, before[0].now)), After(c, key, before[0]), before[1..] + window);
      LegalSplit(c, After(c, key, before[0]), before[1..], window);
    }
  }

  /** The window bound for one run: across key expiry when burst <= 2*rate, without expiry always. */
  lemma {:induction false} WindowBound(c: Limits, before: seq<Call>, window: seq<Call>, w: nat)
    requires Legal(None, before + window) && Within(window, w)
    requires c.burst <= 2 * c.rate || forall i :: 0 <= i < |window| ==> !window[i].lost
    ensures Admitted(c, KeyAfter(c, None, before), window) * TOKEN <= c.burst * TOKEN + w * c.rate
  {
    if window != [] {
      LegalSplit(c, None, before, window);
      AdmittedWithinCredit(c, KeyAfter(c, None, before), window);
      var span := window[|window| - 1].now - window[0].now;
      Times(span, w, c.rate);
    }
  }

  /** `n` calls at one instant against a bucket of `n` tokens are all admitted. */
  lemma {:induction false} BurstAdmitsAll(c: Limits, tokens: nat, t: nat, n: nat)
    requires n <= tokens <= c.burst
    ensures var calls := seq(n, _ => Call(t, false));
            Admitted(c, Some(Stored(tokens, t)), calls) == n && Legal(Some(Stored(tokens, t)), calls)
    decreases n
  {
    var calls := seq(n, _ => Call(t, false));
    if n > 0 {
      assert calls[1..] == seq(n - 1, _ => Call(t, false));
      assert Answer(c, Some(Stored(tokens, t)), calls[0]) == Reply(true, tokens - 1, 0);
      BurstAdmitsAll(c, tokens - 1, t, n - 1);
      LegalIgnoresTokens(Some(Stored(0, t)), Some(Stored(tokens - 1, t)), calls[1..]);
    }
  }

  /** `b` calls at one instant, the first of which finds no key. */
  function Volley(b: nat, t: nat, lost: bool): (calls: seq<Call>)
    requires b > 0
    ensures |calls| == b && calls[0].now == t && calls[b - 1].now == t
  {
    [Call(t, lost)] + seq(b - 1, _ => Call(t, false))
  }

  lemma VolleyAdmitsAll(c: Limits, key: Option<Stored>, t: nat, lost: bool)
    requires c.burst > 0 && Seen(key, Call(t, lost)) == None
    requires key.Some? ==> t >= key.value.lastRefill + KEY_TTL
    ensures Admitted(c, key, Volley(c.burst, t, lost)) == c.burst
    ensures Legal(key, Volley(c.burst, t, lost))
  {
    var calls := Volley(c.burst, t, lost);
    var left := c.burst - 1;
    assert calls[1..] == seq(left, _ => Call(t, false));
    BurstAdmitsAll(c, left, t, left);
    assert Answer(c, key, calls[0]) == Reply(true, left, 0);
    LegalIgnoresTokens(Some(Stored(0, t)), Some(Stored(left, t)), calls[1..]);
  }

  /** Two full bursts, one on each side of an expiry. */
  lemma {:induction false} TwoBursts(c: Limits) returns (calls: seq<Call>)
    requires c.burst > 0
    ensures Legal(None, calls) && Within(calls, KEY_TTL)
    ensures Admitted(c, None, calls) == 2 * c.burst
  {
    var first, second := Volley(c.burst, 0, false), Volley(c.burst, KEY_TTL, true);
    LastCallStamps(c, None, first);
    VolleyAdmitsAll(c, None, 0, false);
    VolleyAdmitsAll(c, KeyAfter(c, None, first), KEY_TTL, true);
    Joined(c, None, first, second);
    calls := first + second;
  }

  lemma {:induction false} LastCallStamps(c: Limits, key: Option<Stored>, calls: seq<Call>)
    requires calls != []
    ensures KeyAfter(c, key, calls).Some?
    ensures KeyAfter(c, key, calls).value.lastRefill == calls[|calls| - 1].now
    decreases |calls|
  {
    if |calls| > 1 {
      LastCallStamps(c, After(c, key, calls[0]), calls[1..]);
    } else {
      assert KeyAfter(c, After(c, key, calls[0]), calls[1..]) == After(c, key, calls[0]);
    }
  }

  lemma {:induction false} Joined(c: Limits, key: Option<Stored>, first: seq<Call>, second: seq<Call>)
    requires Legal(key, first) && Legal(KeyAfter(c, key, first), second)
    ensures Legal(key, first + second)
    ensures Admitted(c, key, first + second)
              == Admitted(c, key, first) + Admitted(c, KeyAfter(c, key, first), second)
    decreases |first|
  {
    if first == [] {
      assert first + second == second;
    } else {
      var key' := After(c, key, first[0]);
      assert (first + second)[1..] == first[1..] + second;
      LegalIgnoresTokens(Some(Stored(0, first[0].now)), key', first[1..]);
      Joined(c, key', first[1..], second);
      LegalIgnoresTokens(Some(Stored(0, first[0].now)), key', first[1..] + second);
    }
  }

  /** The limiter keeps its advertised rate over every window of every run exactly when burst <= 2*rate. */
  lemma {:induction false} RateBoundedIff(c: Limits)
    ensures RateBounded(c) <==> c.burst <= 2 * c.rate
  {
    if c.burst <= 2 * c.rate {
      forall before: seq<Call>, window: seq<Call>, w: nat | Legal(None, before + window) && Within(window, w)
        ensures Admitted(c, KeyAfter(c, None, before), window) * TOKEN <= c.burst * TOKEN + w * c.rate
      {
        WindowBound(c, before, window, w);
      }
    } else {
      var calls := TwoBursts(c);
      assert [] + calls == calls && KeyAfter(c, None, []) == None;
      assert Legal(None, [] + calls) && Within(calls, KEY_TTL);
      assert Admitted(c, KeyAfter(c, None, []), calls) == 2 * c.burst;
    }
  }

  // ---------------------------------------------------------------- the ideal bucket

  /** A bucket that keeps fractional credit: its balance is in units and is never truncated. */
  datatype Ideal = Ideal(units: nat, lastRefill: nat)

  function IdealCredit(c: Limits, b: Ideal, now: nat): nat {
    var elapsed := if now >= b.lastRefill then now - b.lastRefill else 0;
    Min(c.burst * TOKEN, b.units + elapsed * c.rate)
  }

  function IdealAfter(c: Limits, b: Ideal, now: nat): Ideal {
    var units := IdealCredit(c, b, now);
    Ideal(if units >= TOKEN then units - TOKEN else units, now)
  }

  function IdealAdmits(c: Limits, b: Ideal, times: seq<nat>): (r: seq<bool>)
    ensures |r| == |times|
    decreases |times|
  {
    if times == [] then []
    else [IdealCredit(c, b, times[0]) >= TOKEN] + IdealAdmits(c, IdealAfter(c, b, times[0]), times[1..])
  }

  function Kept(times: seq<nat>): (calls: seq<Call>)
    ensures |calls| == |times|
  {
    seq(|times|, i requires 0 <= i < |times| => Call(times[i], false))
  }

  function IdealKeyAfter(c: Limits, b: Ideal, times: seq<nat>): Ideal
    decreases |times|
  {
    if times == [] then b else IdealKeyAfter(c, IdealAfter(c, b, times[0]), times[1..])
  }

  /** The ideal bucket is full when the script finds no key, and otherwise at least as full as the script's. */
  predicate Covers(c: Limits, key: Option<Stored>, b: Ideal) {
    match key
    case None => b.units >= c.burst * TOKEN
    case Some(st) => b.units >= st.tokens * TOKEN && b.lastRefill == st.lastRefill
  }

  lemma CoversStep(c: Limits, key: Option<Stored>, b: Ideal, now: nat)
    requires Covers(c, key, b)
    ensures Credit(c, key, now) <= IdealCredit(c, b, now)
    ensures Covers(c, After(c, key, Call(now, false)), IdealAfter(c, b, now))
  {
    var reply := Answer(c, key, Call(now, false));
    assert reply.remaining * TOKEN + (if reply.allowed then TOKEN else 0) <= Credit(c, key, now);
  }

  /** Whatever the clock does, from the first call on, the ideal bucket admits every request the script
      admits, and the stored count never exceeds the ideal one. */
  lemma {:induction false} IdealSimulates(c: Limits, key: Option<Stored>, b: Ideal, times: seq<nat>)
    requires Covers(c, key, b)
    ensures forall i :: 0 <= i < |times| ==>
              (Replies(c, key, Kept(times))[i].allowed ==> IdealAdmits(c, b, times)[i])
    ensures times != [] ==>
              && KeyAfter(c, key, Kept(times)).Some?
              && KeyAfter(c, key, Kept(times)).value.tokens * TOKEN <= IdealKeyAfter(c, b, times).units
    ensures Covers(c, KeyAfter(c, key, Kept(times)), IdealKeyAfter(c, b, times))
    decreases |times|
  {
    if times != [] {
      var calls, rest := Kept(times), times[1..];
      assert calls[0] == Call(times[0], false) && calls[1..] == Kept(rest);
      CoversStep(c, key, b, times[0]);
      IdealSimulates(c, After(c, key, calls[0]), IdealAfter(c, b, times[0]), rest);
    }
  }

  // ---------------------------------------------------------------- retrying

  /** The advertised wait of a denial, and what waiting that long achieves; `extra` is what rounding in
      floating point adds to the wait. */
  lemma RetryAfterIff(c: Limits, key: Option<Stored>, call: Call, extra: nat)
    requires c.burst >= 1
    requires !Answer(c, key, call).allowed
    ensures 1 <= Answer(c, key, call).retryAfterMs <= CeilDiv(TOKEN, c.rate)
    ensures var again := Call(call.now + Answer(c, key, call).retryAfterMs + extra, false);
            Answer(c, After(c, key, call), again).allowed <==>
            Credit(c, Seen(key, call), call.now) <= (TOKEN - 1) % c.rate + extra * c.rate
  {
    var units := Credit(c, Seen(key, call), call.now);
    var wait := Answer(c, key, call).retryAfterMs;
    assert wait == CeilDiv(TOKEN - units, c.rate);
    CeilMonotone(TOKEN - units, TOKEN, c.rate);
    WaitEarns(c, key, call, wait + extra);
    RoundedWaitIff(units, extra, c.rate);
  }

  /** After a denial nothing is stored, so only the wait counts. */
  lemma WaitEarns(c: Limits, key: Option<Stored>, call: Call, ms: nat)
    requires c.burst >= 1 && !Answer(c, key, call).allowed
    ensures Answer(c, After(c, key, call), Call(call.now + ms, false)).allowed <==> ms * c.rate >= TOKEN
  {
    assert Credit(c, After(c, key, call), call.now + ms) == Min(c.burst * TOKEN, ms * c.rate);
  }

  lemma RoundedWaitIff(units: nat, extra: nat, rate: nat)
    requires rate > 0 && units < TOKEN
    ensures (CeilDiv(TOKEN - units, rate) + extra) * rate >= TOKEN <==> units <= (TOKEN - 1) % rate + extra * rate
  {
    var spare := extra * rate;
    Distribute(CeilDiv(TOKEN - units, rate), extra, rate);
    if units > spare {
      CeilShift(TOKEN - units, extra, rate);
      CeilSlack(TOKEN, units - spare, rate);
    }
  }

  /** Every denied caller that waits exactly as long as it is told is admitted. */
  ghost predicate AdvertisedWaitSuffices(c: Limits) {
    forall key: Option<Stored>, call: Call ::
      !Answer(c, key, call).allowed ==>
        Answer(c, After(c, key, call), Call(call.now + Answer(c, key, call).retryAfterMs, false)).allowed
  }

  /** The limiter keeps that promise exactly when it is so fast that one millisecond earns a token. Otherwise
      an empty bucket asked after one millisecond breaks it. */
  lemma AdvertisedWaitIff(c: Limits)
    requires c.burst >= 1
    ensures AdvertisedWaitSuffices(c) <==> c.rate >= TOKEN
  {
    if c.rate >= TOKEN {
      forall key: Option<Stored>, call: Call | !Answer(c, key, call).allowed
        ensures Answer(c, After(c, key, call), Call(call.now + Answer(c, key, call).retryAfterMs, false)).allowed
      {
        RetryAfterIff(c, key, call, 0);
      }
    } else {
      var key, call := Some(Stored(0, 0)), Call(1, false);
      assert Credit(c, key, 1) == c.rate && !Answer(c, key, call).allowed;
      RetryAfterIff(c, key, call, 0);
      var again := Call(call.now + Answer(c, key, call).retryAfterMs, false);
      assert !Answer(c, After(c, key, call), again).allowed;
    }
  }

  lemma CeilShift(a: nat, extra: nat, r: nat)
    requires r > 0
    ensures CeilDiv(a + extra * r, r) == CeilDiv(a, r) + extra
  {
    QuotientAndRemainder(a + r - 1, r);
    var q, m := (a + r - 1) / r, (a + r - 1) % r;
    Distribute(q, extra, r);
    QuotientIs(a + extra * r + r - 1, r, q + extra);
  }

  lemma CeilMonotone(a: nat, b: nat, r: nat)
    requires r > 0 && a <= b
    ensures CeilDiv(a, r) <= CeilDiv(b, r)
  {
    var x, y := CeilDiv(a, r), CeilDiv(b, r);
    assert x * r < (y + 1) * r by {
      assert (y + 1) * r == y * r + r;
    }
    LessByProduct(x, y + 1, r);
  }

  /** Rounding up absorbs `cut` exactly when `cut` is at most the remainder of total-1. */
  lemma CeilSlack(total: nat, cut: nat, r: nat)
    requires r > 0 && cut < total
    ensures CeilDiv(total - cut, r) * r >= total <==> cut <= (total - 1) % r
  {
    var q, m := (total - 1) / r, (total - 1) % r;
    var k := CeilDiv(total - cut, r);
    QuotientAndRemainder(total - 1, r);
    if cut <= m {
      LessByProduct(q, k, r);
      Times(q + 1, k, r);
      assert (q + 1) * r == q * r + r;
    } else {
      assert k * r < (q + 1) * r by {
        assert (q + 1) * r == q * r + r;
      }
      LessByProduct(k, q + 1, r);
      Times(k, q, r);
    }
  }

  /** However the advertised wait was rounded, a denied caller that waits `ms` is admitted exactly when `ms`
      earns one whole token. */
  lemma WaitIff(c: Limits, key: Option<Stored>, call: Call, ms: nat)
    requires c.burst >= 1 && !Answer(c, key, call).allowed
    ensures Answer(c, After(c, key, call), Call(call.now + ms, false)).allowed <==> ms >= CeilDiv(TOKEN, c.rate)
  {
    var full := CeilDiv(TOKEN, c.rate);
    WaitEarns(c, key, call, ms);
    if ms >= full {
      Times(full, ms, c.rate);
    } else {
      Times(ms + 1, full, c.rate);
      Distribute(ms, 1, c.rate);
    }
  }

  /** A denied caller that waits for one whole token is admitted. */
  lemma SilenceRecovers(c: Limits, key: Option<Stored>, call: Call, again: Call)
    requires c.burst >= 1 && !Answer(c, key, call).allowed
    requires again.now >= call.now + CeilDiv(TOKEN, c.rate)
    ensures Answer(c, After(c, key, call), again).allowed
  {
    Times(CeilDiv(TOKEN, c.rate), again.now - call.now, c.rate);
  }

  function Steady(start: nat, period: nat, n: nat): (times: seq<nat>)
    ensures |times| == n
    decreases n
  {
    if n == 0 then [] else [start + period] + Steady(start + period, period, n - 1)
  }

  /** A denial throws away the credit earned so far, and an admission the fraction of a token, so polling
      faster than the rate earns nothing: only what is stored is served. */
  lemma {:induction false} ImpatientCallerStarves(c: Limits, tokens: nat, start: nat, period: nat, n: nat)
    requires tokens <= c.burst && period * c.rate < TOKEN
    ensures Admitted(c, Some(Stored(tokens, start)), Kept(Steady(start, period, n))) == Min(tokens, n)
    decreases n
  {
    if n > 0 {
      SteadyUnfolds(start, period, n);
      ImpatientCall(c, tokens, start, period);
      ImpatientCallerStarves(c, if tokens > 0 then tokens - 1 else 0, start + period, period, n - 1);
    }
  }

  lemma ImpatientCall(c: Limits, tokens: nat, start: nat, period: nat)
    requires tokens <= c.burst && period * c.rate < TOKEN
    ensures var reply := Answer(c, Some(Stored(tokens, start)), Call(start + period, false));
            reply.allowed == (tokens > 0) && reply.remaining == if tokens > 0 then tokens - 1 else 0
  {
    var units := Credit(c, Some(Stored(tokens, start)), start + period);
    assert tokens * TOKEN <= units < (tokens + 1) * TOKEN;
    if tokens > 0 {
      QuotientIs(units - TOKEN, TOKEN, tokens - 1);
    }
  }

  lemma {:induction false} PatientCallerIsServed(c: Limits, tokens: nat, start: nat, period: nat, n: nat)
    requires c.burst >= 1 && period * c.rate >= TOKEN
    ensures Admitted(c, Some(Stored(tokens, start)), Kept(Steady(start, period, n))) == n
    decreases n
  {
    if n > 0 {
      SteadyUnfolds(start, period, n);
      var left := Answer(c, Some(Stored(tokens, start)), Call(start + period, false)).remaining;
      PatientCallerIsServed(c, left, start + period, period, n - 1);
    }
  }

  lemma SteadyUnfolds(start: nat, period: nat, n: nat)
    requires n > 0
    ensures Kept(Steady(start, period, n)) ==
            [Call(start + period, false)] + Kept(Steady(start + period, period, n - 1))
  {
    assert Steady(start, period, n)[1..] == Steady(start + period, period, n - 1);
  }

  /** A caller with a fixed period is admitted every time when the period earns a token, and otherwise only
      for the tokens stored when it starts. */
  lemma SteadyCallerAllOrStored(c: Limits, tokens: nat, start: nat, period: nat, n: nat)
    requires c.burst >= 1 && tokens <= c.burst
    ensures Admitted(c, Some(Stored(tokens, start)), Kept(Steady(start, period, n)))
            == if period * c.rate >= TOKEN then n else Min(tokens, n)
  {
    if period * c.rate >= TOKEN {
      PatientCallerIsServed(c, tokens, start, period, n);
    } else {
      ImpatientCallerStarves(c, tokens, start, period, n);
    }
  }
}
