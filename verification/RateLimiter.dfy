/** The per-source token bucket for failed authentications (internal/auth/rate_limit.go).
    Tokens are reals and time is in minutes, so float rounding is not modelled. */
module RateLimiter {

  const BURST := 10.0
  const REFILL_PER_MIN := 6.0
  const TTL := 30.0
  const SWEEP_ABOVE := 1024

  datatype Bucket = Bucket(tokens: real, lastSeen: real)

  type Buckets = map<string, Bucket>

  datatype Call = Call(ip: string, now: real)

  function Min(a: real, b: real): real { if a <= b then a else b }

  /** The tokens a source has at `now`; a source never seen starts with a full bucket. */
  function Available(m: Buckets, ip: string, now: real): real {
    if ip in m then Min(BURST, m[ip].tokens + (now - m[ip].lastSeen) * REFILL_PER_MIN) else BURST
  }

  function Swept(m: Buckets, now: real): Buckets {
    map ip | ip in m && !(m[ip].lastSeen < now - TTL) :: m[ip]
  }

  /** One Allow call on the bucket map; `evicting` says whether idle buckets are swept. */
  function After(evicting: bool, m: Buckets, c: Call): Buckets {
    var t := Available(m, c.ip, c.now);
    var seen := m[c.ip := Bucket(t, c.now)];
    var kept := if evicting && |seen| > SWEEP_ABOVE then Swept(seen, c.now) else seen;
    kept[c.ip := Bucket(if t < 1.0 then t else t - 1.0, c.now)]
  }

  predicate Allows(m: Buckets, c: Call) { Available(m, c.ip, c.now) >= 1.0 }

  class AuthFailureLimiter {
    var buckets: Buckets

    constructor ()
      ensures buckets == map[]
    {
      buckets := map[];
    }

    method Allow(ip: string, now: real) returns (ok: bool)
      modifies this
      ensures ok == Allows(old(buckets), Call(ip, now))
      ensures buckets == After(true, old(buckets), Call(ip, now))
      ensures
        var tokens := if ip !in old(buckets) then 10.0
                      else var t := old(buckets)[ip].tokens + (now - old(buckets)[ip].lastSeen) * 6.0;
                           if t > 10.0 then 10.0 else t;
        && (ok <==> tokens >= 1.0)
        && ip in buckets && buckets[ip] == Bucket(if ok then tokens - 1.0 else tokens, now)
      ensures forall x :: x in buckets && x != ip ==> x in old(buckets) && buckets[x] == old(buckets)[x]
      ensures forall x :: x in old(buckets) && x !in buckets ==>
        old(buckets)[x].lastSeen < now - 30.0 && |old(buckets).Keys + {ip}| > 1024
      ensures |old(buckets).Keys + {ip}| > 1024 ==>
        forall x :: x in buckets && x != ip ==> buckets[x].lastSeen >= now - 30.0
    {
      if ip !in buckets {
        buckets := buckets[ip := Bucket(BURST, now)];
      }
      var b := buckets[ip];
      var tokens := b.tokens + (now - b.lastSeen) * REFILL_PER_MIN;
      if tokens > BURST {
        tokens := BURST;
      }
      buckets := buckets[ip := Bucket(tokens, now)];
      assert buckets == old(buckets)[ip := Bucket(Available(old(buckets), ip, now), now)];
      assert buckets.Keys == old(buckets).Keys + {ip} && |buckets| == |buckets.Keys|;
      if |buckets| > SWEEP_ABOVE {
        EvictLocked(now);
      }
      if tokens < 1.0 {
        assert buckets == buckets[ip := Bucket(tokens, now)];
        return false;
      }
      buckets := buckets[ip := Bucket(tokens - 1.0, now)];
      return true;
    }

    method EvictLocked(now: real)
      modifies this
      ensures buckets == Swept(old(buckets), now)
      ensures forall x :: x in buckets <==> x in old(buckets) && old(buckets)[x].lastSeen >= now - 30.0
      ensures forall x :: x in buckets ==> buckets[x] == old(buckets)[x]
    {
      var cutoff := now - TTL;
      var todo := buckets.Keys;
      while todo != {}
        invariant todo <= old(buckets).Keys
        invariant buckets == map ip | ip in old(buckets)
            && (ip in todo || !(old(buckets)[ip].lastSeen < cutoff)) :: old(buckets)[ip]
        decreases |todo|
      {
        var ip :| ip in todo;
        if buckets[ip].lastSeen < cutoff {
          buckets := buckets - {ip};
        }
        todo := todo - {ip};
      }
    }
  }

  // ---- runs ----

  /** The bucket map after a run of calls from an empty limiter. */
  function State(evicting: bool, calls: seq<Call>): Buckets {
    if calls == [] then map[]
    else After(evicting, State(evicting, calls[..|calls| - 1]), calls[|calls| - 1])
  }

  /** The answer to the last call of a run. */
  predicate Answer(evicting: bool, calls: seq<Call>)
    requires calls != []
  {
    Allows(State(evicting, calls[..|calls| - 1]), calls[|calls| - 1])
  }

  ghost predicate Monotone(calls: seq<Call>) {
    forall i, j :: 0 <= i < j < |calls| ==> calls[i].now <= calls[j].now
  }

  ghost predicate BucketOk(b: Bucket, now: real) {
    0.0 <= b.tokens <= BURST && b.lastSeen <= now
  }

  /** The evicting map is the full one minus buckets that have refilled to the cap. */
  ghost predicate Agree(m: Buckets, full: Buckets, now: real) {
    && (forall ip :: ip in full ==> BucketOk(full[ip], now))
    && (forall ip :: ip in m ==> ip in full && m[ip] == full[ip])
    && (forall ip :: ip in full && ip !in m ==>
          full[ip].tokens + (now - full[ip].lastSeen) * REFILL_PER_MIN >= BURST)
  }

  lemma AgreeStep(m: Buckets, full: Buckets, before: real, c: Call)
    requires Agree(m, full, before) && before <= c.now
    ensures Available(m, c.ip, c.now) == Available(full, c.ip, c.now)
    ensures Agree(After(true, m, c), After(false, full, c), c.now)
  {
    assert c.ip in full ==> BucketOk(full[c.ip], before);
    var t := Available(full, c.ip, c.now);
    assert 0.0 <= t <= BURST;
    var m', full' := After(true, m, c), After(false, full, c);
    forall ip | ip in full'
      ensures BucketOk(full'[ip], c.now)
      ensures ip !in m' ==> full'[ip].tokens + (c.now - full'[ip].lastSeen) * REFILL_PER_MIN >= BURST
    {
      if ip != c.ip {
        assert full'[ip] == full[ip] && BucketOk(full[ip], before);
      }
    }
  }

  lemma {:induction false} AgreeRun(calls: seq<Call>, now: real)
    requires Monotone(calls) && (calls != [] ==> calls[|calls| - 1].now <= now)
    ensures Agree(State(true, calls), State(false, calls), now)
  {
    if calls != [] {
      var before, c := calls[..|calls| - 1], calls[|calls| - 1];
      AgreeRun(before, c.now);
      AgreeStep(State(true, before), State(false, before), c.now, c);
      var m, full := State(true, calls), State(false, calls);
      assert Agree(m, full, c.now);
      forall ip | ip in full ensures BucketOk(full[ip], now) {
        assert BucketOk(full[ip], c.now);
      }
    }
  }

  /** Eviction is unobservable: under a clock that does not run back, every call of every run
      is answered as by a limiter that never evicts. */
  lemma EvictionUnobservable(calls: seq<Call>)
    requires calls != [] && Monotone(calls)
    ensures Answer(true, calls) == Answer(false, calls)
  {
    var before, c := calls[..|calls| - 1], calls[|calls| - 1];
    AgreeRun(before, c.now);
    AgreeStep(State(true, before), State(false, before), c.now, c);
  }

  // ---- the exact budget ----

  /** One answered failure of a source. */
  datatype Event = Event(time: real, allowed: bool)

  /** What a source has been told so far. */
  function History(calls: seq<Call>, ip: string): seq<Event> {
    if calls == [] then []
    else
      var before, c := calls[..|calls| - 1], calls[|calls| - 1];
      History(before, ip) + (if c.ip == ip then [Event(c.now, Answer(true, calls))] else [])
  }

  function Allowed(h: seq<Event>): nat {
    if h == [] then 0 else (if h[0].allowed then 1 else 0) + Allowed(h[1..])
  }

  /** The refill-and-spend recurrence of one source's bucket, over its history alone. */
  function Tokens(h: seq<Event>, now: real): real {
    if h == [] then BURST
    else
      var e := h[|h| - 1];
      Min(BURST, Tokens(h[..|h| - 1], e.time) - (if e.allowed then 1.0 else 0.0)
                 + (now - e.time) * REFILL_PER_MIN)
  }

  /** What is left at `now` of the budget of the window that opens at event `i`. */
  function Slack(h: seq<Event>, i: nat, now: real): real
    requires i < |h|
  {
    BURST + (now - h[i].time) * REFILL_PER_MIN - Allowed(h[i..]) as real
  }

  lemma {:induction false} AllowedSnoc(h: seq<Event>, e: Event)
    ensures Allowed(h + [e]) == Allowed(h) + (if e.allowed then 1 else 0)
  {
    if h == [] {
      assert [e][1..] == [];
      assert h + [e] == [e];
    } else {
      assert (h + [e])[1..] == h[1..] + [e];
      AllowedSnoc(h[1..], e);
    }
  }

  lemma SlackSnoc(h: seq<Event>, e: Event, i: nat, now: real)
    requires i < |h|
    ensures Slack(h + [e], i, now) == Slack(h, i, e.time) - (if e.allowed then 1.0 else 0.0)
                                      + (now - e.time) * REFILL_PER_MIN
  {
    assert (h + [e])[i..] == h[i..] + [e];
    AllowedSnoc(h[i..], e);
  }

  /** The bucket level is the least slack of any window, capped at the burst. */
  lemma {:induction false} TokensAreLeastSlack(h: seq<Event>, now: real, x: real)
    ensures x <= Tokens(h, now) <==> x <= BURST && forall i :: 0 <= i < |h| ==> x <= Slack(h, i, now)
  {
    if h != [] {
      var h', e := h[..|h| - 1], h[|h| - 1];
      var spent := if e.allowed then 1.0 else 0.0;
      var y := x + spent - (now - e.time) * REFILL_PER_MIN;
      assert h == h' + [e];
      TokensAreLeastSlack(h', e.time, y);
      assert x <= Tokens(h, now) <==> x <= BURST && y <= Tokens(h', e.time);
      forall i | 0 <= i < |h'| ensures x <= Slack(h, i, now) <==> y <= Slack(h', i, e.time) {
        SlackSnoc(h', e, i, now);
      }
      assert h[|h| - 1..] == [e];
      AllowedSnoc([], e);
      assert [] + [e] == [e];
      assert Slack(h, |h| - 1, now) == BURST + (now - e.time) * REFILL_PER_MIN - spent;
      assert x <= Slack(h, |h| - 1, now) <==> y <= BURST;
    }
  }

  /** The bucket the limiter keeps for a source is the recurrence over its history. */
  lemma {:induction false} BucketIsTokens(calls: seq<Call>, ip: string, now: real)
    requires Monotone(calls)
    ensures Available(State(false, calls), ip, now) == Tokens(History(calls, ip), now)
  {
    if calls != [] {
      var before, c := calls[..|calls| - 1], calls[|calls| - 1];
      BucketIsTokens(before, ip, now);
      if c.ip == ip {
        BucketIsTokens(before, ip, c.now);
        EvictionUnobservable(calls);
        var h := History(calls, ip);
        assert h[..|h| - 1] == History(before, ip);
      } else {
        assert History(calls, ip) == History(before, ip);
      }
    }
  }

  /** The limiter's law, both ways: a failure is allowed exactly when it leaves every window
      that opens at an earlier failure of the same source within 10 plus 6 per minute. */
  lemma AllowsExactly(calls: seq<Call>)
    requires calls != [] && Monotone(calls)
    ensures var before, c := calls[..|calls| - 1], calls[|calls| - 1];
      var h := History(before, c.ip);
      Answer(true, calls) <==>
        forall i :: 0 <= i < |h| ==>
          (Allowed(h[i..]) + 1) as real <= 10.0 + (c.now - h[i].time) * 6.0
  {
    var before, c := calls[..|calls| - 1], calls[|calls| - 1];
    var h := History(before, c.ip);
    EvictionUnobservable(calls);
    BucketIsTokens(before, c.ip, c.now);
    TokensAreLeastSlack(h, c.now, 1.0);
    forall i | 0 <= i < |h|
      ensures 1.0 <= Slack(h, i, c.now) <==>
        (Allowed(h[i..]) + 1) as real <= 10.0 + (c.now - h[i].time) * 6.0
    {
    }
  }

  /** The failures of one source that were allowed between two times. */
  function AllowedBetween(h: seq<Event>, t1: real, t2: real): nat {
    if h == [] then 0
    else
      var e := h[|h| - 1];
      AllowedBetween(h[..|h| - 1], t1, t2) + (if e.allowed && t1 <= e.time <= t2 then 1 else 0)
  }

  lemma {:induction false} BetweenNone(h: seq<Event>, t1: real, t2: real)
    requires forall k :: 0 <= k < |h| ==> h[k].time < t1
    ensures AllowedBetween(h, t1, t2) == 0
  {
    if h != [] {
      BetweenNone(h[..|h| - 1], t1, t2);
    }
  }

  lemma {:induction false} BetweenAtMost(h: seq<Event>, rest: seq<Event>, t1: real, t2: real)
    requires forall k :: 0 <= k < |h| ==> h[k].time < t1
    ensures AllowedBetween(h + rest, t1, t2) <= Allowed(rest)
  {
    if rest == [] {
      assert h + rest == h;
      BetweenNone(h, t1, t2);
    } else {
      var rest', e := rest[..|rest| - 1], rest[|rest| - 1];
      BetweenAtMost(h, rest', t1, t2);
      assert rest == rest' + [e];
      assert (h + rest)[..|h + rest| - 1] == h + rest';
      AllowedSnoc(rest', e);
    }
  }

  lemma {:induction false} FirstIn(h: seq<Event>, t1: real) returns (i: nat)
    ensures i <= |h|
    ensures forall k :: 0 <= k < i ==> h[k].time < t1
    ensures i < |h| ==> t1 <= h[i].time
  {
    i := 0;
    while i < |h| && h[i].time < t1
      invariant i <= |h|
      invariant forall k :: 0 <= k < i ==> h[k].time < t1
    {
      i := i + 1;
    }
  }

  /** An allowed failure leaves room for itself in every interval it lies in. */
  lemma AllowedNow(calls: seq<Call>, t1: real, t2: real)
    requires calls != [] && Monotone(calls) && Answer(true, calls)
    requires t1 <= calls[|calls| - 1].now <= t2
    ensures var h := History(calls[..|calls| - 1], calls[|calls| - 1].ip);
      (AllowedBetween(h, t1, t2) + 1) as real <= 10.0 + (t2 - t1) * 6.0
  {
    var c := calls[|calls| - 1];
    var h := History(calls[..|calls| - 1], c.ip);
    var i := FirstIn(h, t1);
    assert h == h[..i] + h[i..];
    BetweenAtMost(h[..i], h[i..], t1, t2);
    AllowsExactly(calls);
    if i == |h| {
      assert h[i..] == [];
    }
  }

  /** The advertised budget: in any run, over any interval, a source is allowed at most
      10 + 6 * (t2 - t1) failures, time in minutes. */
  lemma {:induction false} BudgetHolds(calls: seq<Call>, ip: string, t1: real, t2: real)
    requires Monotone(calls) && t1 <= t2
    ensures AllowedBetween(History(calls, ip), t1, t2) as real <= 10.0 + (t2 - t1) * 6.0
  {
    if calls != [] {
      var before, c := calls[..|calls| - 1], calls[|calls| - 1];
      BudgetHolds(before, ip, t1, t2);
      var h := History(before, ip);
      if c.ip == ip {
        var e := Event(c.now, Answer(true, calls));
        assert History(calls, ip) == h + [e];
        assert (h + [e])[..|h|] == h;
        if e.allowed && t1 <= e.time <= t2 {
          AllowedNow(calls, t1, t2);
        }
      } else {
        assert History(calls, ip) == h;
      }
    }
  }
}
