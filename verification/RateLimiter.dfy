/** The per-client token bucket in front of the sign-in endpoints
    (pkg/api/auth.go:794-844), over exact real arithmetic and a clock that the
    caller passes in. */
module RateLimiter {

  datatype Bucket = Bucket(tokens: real, last: real)

  /** The limiter as a value: what RateLimiter.State() reads off the object. */
  datatype Limiter = Limiter(buckets: map<string, Bucket>, rate: real, burst: real)

  /** One call of allow: who, and when. */
  datatype Call = Call(key: string, at: real)

  const MAX_BUCKETS: nat := 10000

  /** newRateLimiter: a minute's worth of tokens, refilled over a minute. */
  function NewLimiter(perMinute: int): Limiter {
    Limiter(map[], perMinute as real / 60.0, perMinute as real)
  }

  function Min(a: real, b: real): real { if a <= b then a else b }

  /** The tokens that flow in between two instants. */
  function Inflow(rate: real, from: real, to: real): real { (to - from) * rate }

  function Refilled(l: Limiter, b: Bucket, now: real): real {
    Min(l.burst, b.tokens + Inflow(l.rate, b.last, now))
  }

  predicate ResetsOn(l: Limiter, key: string) {
    key !in l.buckets && |l.buckets| > MAX_BUCKETS
  }

  /** What one allow leaves behind, and its answer. */
  function AllowStep(l: Limiter, key: string, now: real): (Limiter, bool) {
    var kept := if ResetsOn(l, key) then map[] else l.buckets;
    var b := if key in l.buckets then l.buckets[key] else Bucket(l.burst, now);
    var tokens := Refilled(l, b, now);
    if tokens < 1.0 then (l.(buckets := kept[key := Bucket(tokens, now)]), false)
    else (l.(buckets := kept[key := Bucket(tokens - 1.0, now)]), true)
  }

  function ExhaustedAt(l: Limiter, key: string, now: real): bool {
    key in l.buckets && l.buckets[key].tokens + Inflow(l.rate, l.buckets[key].last, now) < 1.0
  }

  class RateLimiter {
    var buckets: map<string, Bucket>
    const rate: real
    const burst: real

    ghost function State(): Limiter
      reads this
    {
      Limiter(buckets, rate, burst)
    }

    constructor (perMinute: int)
      ensures State() == NewLimiter(perMinute)
    {
      buckets, rate, burst := map[], perMinute as real / 60.0, perMinute as real;
    }

    method Allow(key: string, now: real) returns (ok: bool)
      modifies this`buckets
      ensures (State(), ok) == AllowStep(old(State()), key, now)
    {
      hide Inflow;
      ghost var kept := if ResetsOn(State(), key) then map[] else buckets;
      if key !in buckets {
        if |buckets| > MAX_BUCKETS {
          buckets := map[];
        }
        buckets := buckets[key := Bucket(burst, now)];
      }
      var b := buckets[key];
      var tokens := Min(burst, b.tokens + Inflow(rate, b.last, now));
      buckets := buckets[key := Bucket(tokens, now)];
      assert buckets == kept[key := Bucket(tokens, now)];
      if tokens < 1.0 {
        return false;
      }
      buckets := buckets[key := Bucket(tokens - 1.0, now)];
      assert buckets == kept[key := Bucket(tokens - 1.0, now)];
      return true;
    }

    method Exhausted(key: string, now: real) returns (none: bool)
      ensures none == ExhaustedAt(State(), key, now)
    {
      if key !in buckets {
        return false;
      }
      var b := buckets[key];
      return b.tokens + Inflow(rate, b.last, now) < 1.0;
    }
  }

  // ---------- runs of calls

  function Run(l: Limiter, calls: seq<Call>): Limiter
    decreases calls
  {
    if calls == [] then l else Run(AllowStep(l, calls[0].key, calls[0].at).0, calls[1..])
  }

  /** How many of the calls were answered yes for key. */
  function Granted(l: Limiter, calls: seq<Call>, key: string): nat
    decreases calls
  {
    if calls == [] then 0 else
    var (next, ok) := AllowStep(l, calls[0].key, calls[0].at);
    (if ok && calls[0].key == key then 1 else 0) + Granted(next, calls[1..], key)
  }

  /** How often the bucket map was thrown away on the way. */
  function Resets(l: Limiter, calls: seq<Call>): nat
    decreases calls
  {
    if calls == [] then 0 else
    (if ResetsOn(l, calls[0].key) then 1 else 0)
    + Resets(AllowStep(l, calls[0].key, calls[0].at).0, calls[1..])
  }

  /** The clock does not run backwards. */
  ghost predicate InOrder(calls: seq<Call>, from: real) {
    && (calls != [] ==> from <= calls[0].at)
    && (forall i, j :: 0 <= i < j < |calls| ==> calls[i].at <= calls[j].at)
  }

  function End(calls: seq<Call>, from: real): real {
    if calls == [] then from else calls[|calls| - 1].at
  }

  /** Every bucket holds between nothing and the burst, and is no newer than now. */
  ghost predicate Sane(l: Limiter, now: real) {
    && l.rate >= 0.0 && l.burst >= 0.0
    && forall k :: k in l.buckets ==> 0.0 <= l.buckets[k].tokens <= l.burst && l.buckets[k].last <= now
  }

  /** What key could draw on at an instant; a key without a bucket starts full. */
  function Level(l: Limiter, key: string, now: real): real {
    if key in l.buckets then Refilled(l, l.buckets[key], now) else l.burst
  }

  lemma FlowSplits(rate: real, a: real, b: real, c: real)
    ensures Inflow(rate, a, b) + Inflow(rate, b, c) == Inflow(rate, a, c)
    ensures Inflow(rate, a, a) == 0.0
    ensures rate >= 0.0 && a <= b ==> Inflow(rate, a, b) >= 0.0
  {}

  /** Tokens stay between zero and the burst, whatever is called. */
  lemma AllowKeepsSane(l: Limiter, key: string, from: real, now: real)
    requires Sane(l, from) && from <= now
    ensures Sane(AllowStep(l, key, now).0, now)
    ensures AllowStep(l, key, now).0.rate == l.rate && AllowStep(l, key, now).0.burst == l.burst
  {
    hide Inflow;
    var b := if key in l.buckets then l.buckets[key] else Bucket(l.burst, now);
    FlowSplits(l.rate, b.last, now, now);
    assert 0.0 <= Refilled(l, b, now) <= l.burst;
    var next := AllowStep(l, key, now).0;
    forall k | k in next.buckets
      ensures 0.0 <= next.buckets[k].tokens <= l.burst && next.buckets[k].last <= now
    {
      if k != key { assert k in l.buckets; }
    }
  }

  /** Refilling in two steps gives no more than refilling once. */
  lemma RefillInSteps(l: Limiter, b: Bucket, from: real, now: real)
    requires l.rate >= 0.0 && from <= now
    ensures Refilled(l, b, now) <= Refilled(l, b, from) + Inflow(l.rate, from, now)
  {
    hide Inflow;
    FlowSplits(l.rate, b.last, from, now);
    FlowSplits(l.rate, from, now, now);
  }

  lemma RefillNow(l: Limiter, b: Bucket)
    requires b.tokens <= l.burst
    ensures Refilled(l, b, b.last) == b.tokens
  {
    hide Inflow;
    FlowSplits(l.rate, b.last, b.last, b.last);
  }

  /** What the answer for key took plus what key has left is bounded by what it
      had, what flowed in since, and a refill when the map is reset. */
  lemma AllowMovesLevel(l: Limiter, key: string, call: Call, from: real)
    requires Sane(l, from) && from <= call.at
    ensures var (next, ok) := AllowStep(l, call.key, call.at);
            (if ok && call.key == key then 1.0 else 0.0) + Level(next, key, call.at)
            <= Level(l, key, from) + Inflow(l.rate, from, call.at)
               + (if ResetsOn(l, call.key) then l.burst else 0.0)
  {
    hide Inflow;
    LevelInRange(l, key, from);
    FlowSplits(l.rate, from, call.at, call.at);
    if key in l.buckets { RefillInSteps(l, l.buckets[key], from, call.at); }
    if key == call.key {
      TakesOwnToken(l, call);
      if key !in l.buckets { RefillNow(l, Bucket(l.burst, call.at)); }
    }
  }

  lemma TakesOwnToken(l: Limiter, call: Call)
    ensures var (next, ok) := AllowStep(l, call.key, call.at);
            var b := if call.key in l.buckets then l.buckets[call.key] else Bucket(l.burst, call.at);
            (if ok then 1.0 else 0.0) + Level(next, call.key, call.at) == Refilled(l, b, call.at)
  {
    hide Inflow;
    var next := AllowStep(l, call.key, call.at).0;
    RefillNow(next, next.buckets[call.key]);
  }

  /** Conservation over a run: what was granted plus what is left is at most
      what was there plus what flowed in plus one burst for every map reset. */
  lemma {:induction false} RunConserves(l: Limiter, calls: seq<Call>, key: string, from: real)
    requires Sane(l, from) && InOrder(calls, from)
    ensures Granted(l, calls, key) as real + Level(Run(l, calls), key, End(calls, from))
            <= Level(l, key, from) + Inflow(l.rate, from, End(calls, from)) + Bursts(l, Resets(l, calls))
    decreases calls
  {
    hide Inflow, Refilled, Level, AllowStep, Bursts;
    FlowSplits(l.rate, from, from, from);
    BurstsAdd(l, 0);
    if calls != [] {
      var c := calls[0];
      var next := AllowStep(l, c.key, c.at).0;
      AllowKeepsSane(l, c.key, from, c.at);
      AllowMovesLevel(l, key, c, from);
      RunConserves(next, calls[1..], key, c.at);
      assert End(calls[1..], c.at) == End(calls, from);
      FlowSplits(l.rate, from, c.at, End(calls, from));
      BurstsAdd(l, Resets(next, calls[1..]));
      BurstsAdd(next, Resets(next, calls[1..]));
    }
  }

  function Bursts(l: Limiter, n: nat): real { n as real * l.burst }

  lemma BurstsAdd(l: Limiter, n: nat)
    ensures Bursts(l, 0) == 0.0 && Bursts(l, n + 1) == Bursts(l, n) + l.burst
    ensures forall k: Limiter :: k.burst == l.burst ==> Bursts(k, n) == Bursts(l, n)
  {}

  /** Any window of any run of a limiter: at most burst + rate * length yes
      answers per key, plus one burst for each time the map was reset in it. */
  lemma WindowBound(perMinute: nat, calls: seq<Call>, i: nat, j: nat, key: string)
    requires i < j <= |calls| && InOrder(calls, calls[0].at)
    ensures var start := NewLimiter(perMinute);
            var before := Run(start, calls[..i]);
            Granted(before, calls[i..j], key) as real
            <= start.burst + Inflow(start.rate, calls[i].at, calls[j - 1].at)
               + Bursts(start, Resets(before, calls[i..j]))
  {
    hide Inflow, Refilled, AllowStep, Bursts, Granted, Resets;
    var start := NewLimiter(perMinute);
    var before := Run(start, calls[..i]);
    RunKeepsSane(start, calls[..i], calls[0].at);
    RunKeepsRates(start, calls[..i]);
    assert Sane(before, calls[i].at);
    WindowFrom(before, calls[i..j], key, calls[i].at);
    assert End(calls[i..j], calls[i].at) == calls[j - 1].at;
    BurstsAdd(start, Resets(before, calls[i..j]));
  }

  lemma {:induction false} RunKeepsSane(l: Limiter, calls: seq<Call>, from: real)
    requires Sane(l, from) && InOrder(calls, from)
    ensures Sane(Run(l, calls), End(calls, from))
    decreases calls
  {
    hide Inflow, Refilled, AllowStep;
    if calls != [] {
      AllowKeepsSane(l, calls[0].key, from, calls[0].at);
      RunKeepsSane(AllowStep(l, calls[0].key, calls[0].at).0, calls[1..], calls[0].at);
    }
  }

  lemma WindowFrom(l: Limiter, calls: seq<Call>, key: string, from: real)
    requires Sane(l, from) && InOrder(calls, from)
    ensures Granted(l, calls, key) as real
            <= l.burst + Inflow(l.rate, from, End(calls, from)) + Bursts(l, Resets(l, calls))
  {
    hide Inflow, AllowStep, Bursts;
    RunConserves(l, calls, key, from);
    RunKeepsSane(l, calls, from);
    RunKeepsRates(l, calls);
    LevelInRange(l, key, from);
    LevelInRange(Run(l, calls), key, End(calls, from));
  }

  lemma LevelInRange(l: Limiter, key: string, now: real)
    requires Sane(l, now)
    ensures 0.0 <= Level(l, key, now) <= l.burst
  {
    hide Inflow;
    if key in l.buckets { FlowSplits(l.rate, l.buckets[key].last, now, now); }
  }

  lemma {:induction false} RunKeepsRates(l: Limiter, calls: seq<Call>)
    ensures Run(l, calls).rate == l.rate && Run(l, calls).burst == l.burst
    decreases calls
  {
    if calls != [] { RunKeepsRates(AllowStep(l, calls[0].key, calls[0].at).0, calls[1..]); }
  }

  /** The bound is reached: of n calls at one instant for a new key, exactly
      perMinute (or all n) are answered yes. */
  lemma BurstIsReached(perMinute: nat, key: string, at: real, n: nat)
    requires perMinute >= 1
    ensures var start := NewLimiter(perMinute);
            Granted(start, seq(n, _ => Call(key, at)), key) == if n <= perMinute then n else perMinute
  {
    hide Inflow;
    var start := NewLimiter(perMinute);
    if n > 0 {
      var calls := seq(n, _ => Call(key, at));
      var next := AllowStep(start, key, at).0;
      RefillNow(start, Bucket(start.burst, at));
      assert next.buckets[key] == Bucket((perMinute - 1) as real, at);
      assert calls[1..] == seq(n - 1, _ => Call(key, at));
      DrainsAtOnce(next, key, at, n - 1, perMinute - 1);
    }
  }

  lemma {:induction false} DrainsAtOnce(l: Limiter, key: string, at: real, n: nat, left: nat)
    requires key in l.buckets && l.buckets[key] == Bucket(left as real, at) && left as real <= l.burst
    ensures Granted(l, seq(n, _ => Call(key, at)), key) == if n <= left then n else left
    decreases n
  {
    hide Inflow;
    if n > 0 {
      var calls := seq(n, _ => Call(key, at));
      var next := AllowStep(l, key, at).0;
      assert calls[1..] == seq(n - 1, _ => Call(key, at));
      RefillNow(l, Bucket(left as real, at));
      assert AllowStep(l, key, at).1 == (left > 0);
      DrainsAtOnce(next, key, at, n - 1, if left > 0 then left - 1 else 0);
    }
  }

  /** exhausted says no token is left exactly when allow would then refuse,
      provided a full bucket holds a token at all; with a burst below one token
      the two agree only on a key whose bucket is already short. */
  lemma ExhaustedPredictsAllow(l: Limiter, key: string, now: real)
    ensures ExhaustedAt(l, key, now) == !AllowStep(l, key, now).1
            <==> l.burst >= 1.0 || ExhaustedAt(l, key, now)
  {
    hide Inflow;
    RefillNow(l, Bucket(l.burst, now));
  }

  // ---------- the answers themselves

  /** newRateLimiter gives a minute's tokens and refills them over a minute. */
  lemma NewLimiterIs(perMinute: int)
    ensures NewLimiter(perMinute) == Limiter(map[], perMinute as real / 60.0, perMinute as real)
  {}

  /** allow grants exactly when a whole token is there: a key's own, with the rate times
      the time since its last call on top and the burst as the most, or a full burst for
      a key that is new. It takes the token, notes the time, and throws all other
      buckets away for a new key that finds more than ten thousand. */
  lemma AllowExactly(l: Limiter, key: string, now: real, other: string)
    ensures var known := key in l.buckets;
            var there := if known then l.buckets[key].tokens + (now - l.buckets[key].last) * l.rate else l.burst;
            var level := if there <= l.burst then there else l.burst;
            var (next, ok) := AllowStep(l, key, now);
            && ok == (level >= 1.0)
            && key in next.buckets && next.buckets[key] == Bucket(if level >= 1.0 then level - 1.0 else level, now)
            && next.rate == l.rate && next.burst == l.burst
            && (other != key ==>
                  && (other in next.buckets <==> other in l.buckets && (known || |l.buckets| <= 10000))
                  && (other in next.buckets ==> next.buckets[other] == l.buckets[other]))
  {
    if key in l.buckets {
      InflowIs(l.rate, l.buckets[key].last, now);
      KnownAllow(l, key, now);
    } else {
      NewAllow(l, key, now);
    }
    OthersKept(l, key, now, other);
    hide AllowStep, Inflow;
  }

  lemma InflowIs(rate: real, from: real, to: real)
    ensures Inflow(rate, from, to) == (to - from) * rate
  {}

  lemma KnownAllow(l: Limiter, key: string, now: real)
    requires key in l.buckets
    ensures var there := l.buckets[key].tokens + Inflow(l.rate, l.buckets[key].last, now);
            var level := if there <= l.burst then there else l.burst;
            var (next, ok) := AllowStep(l, key, now);
            && ok == (level >= 1.0) && key in next.buckets
            && next.buckets[key] == Bucket(if level >= 1.0 then level - 1.0 else level, now)
  {
    hide Inflow;
  }

  lemma NewAllow(l: Limiter, key: string, now: real)
    requires key !in l.buckets
    ensures var (next, ok) := AllowStep(l, key, now);
            && ok == (l.burst >= 1.0) && key in next.buckets
            && next.buckets[key] == Bucket(if l.burst >= 1.0 then l.burst - 1.0 else l.burst, now)
  {
    RefillNow(l, Bucket(l.burst, now));
    hide Inflow;
  }

  lemma OthersKept(l: Limiter, key: string, now: real, other: string)
    ensures var next := AllowStep(l, key, now).0;
            && next.rate == l.rate && next.burst == l.burst
            && (other != key ==>
                  && (other in next.buckets <==> other in l.buckets && (key in l.buckets || |l.buckets| <= 10000))
                  && (other in next.buckets ==> next.buckets[other] == l.buckets[other]))
  {
    hide Inflow;
  }

  /** exhausted answers yes exactly for a key whose tokens and inflow fall short of one. */
  lemma ExhaustedExactly(l: Limiter, key: string, now: real)
    ensures ExhaustedAt(l, key, now) <==>
            key in l.buckets && l.buckets[key].tokens + (now - l.buckets[key].last) * l.rate < 1.0
  {}

  /** However drained, a key that waits for the time of one token is granted. */
  lemma WaitingIsEnough(l: Limiter, key: string, from: real, now: real)
    requires Sane(l, from) && l.burst >= 1.0
    requires key in l.buckets ==> (now - l.buckets[key].last) * l.rate >= 1.0
    ensures AllowStep(l, key, now).1
  {
    AllowExactly(l, key, now, key);
  }
}
