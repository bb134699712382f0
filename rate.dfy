/**
 * The gateway's in-process token-bucket limiter. Token counts are exact
 * reals and time is an explicit clock reading in seconds (`now`), so the
 * floating-point `f64` arithmetic and `Instant::now()` of the source become
 * plain arithmetic on parameters.
 */
module Rate {

  function Min(a: real, b: real): real
  {
    if a <= b then a else b
  }

  /** What `refill` leaves behind: the refilled token count and the new `last`. */
  function Refilled(tokens: real, last: real, now: real, capacity: real, rate: real): (r: (real, real))
    ensures now <= last ==> r == (tokens, last)
    ensures now > last ==> r.1 == now && r.0 <= capacity
    ensures now > last && tokens + (now - last) * rate <= capacity ==> r.0 == tokens + (now - last) * rate
  {
    // `duration_since` saturates at zero, and a zero elapsed time changes nothing
    if now > last then (Min(tokens + (now - last) * rate, capacity), now) else (tokens, last)
  }

  /** The outcome of `try_consume(amount)` at time `now`: whether it was allowed, the tokens and `last` after. */
  datatype Outcome = Outcome(allowed: bool, tokens: real, last: real)

  function Consumed(tokens: real, last: real, now: real, amount: real, capacity: real, rate: real): (o: Outcome)
    ensures var (t, l) := Refilled(tokens, last, now, capacity, rate);
      && o.last == l
      && (o.allowed <==> t >= amount)
      && o.tokens == if o.allowed then t - amount else t
  {
    var (t, l) := Refilled(tokens, last, now, capacity, rate);
    if t >= amount then Outcome(true, t - amount, l) else Outcome(false, t, l)
  }

  /** `0 <= tokens <= capacity` is kept by a refill at a non-negative rate. */
  lemma RefillBounded(tokens: real, last: real, now: real, capacity: real, rate: real)
    requires 0.0 <= tokens <= capacity && rate >= 0.0
    ensures tokens <= Refilled(tokens, last, now, capacity, rate).0 <= capacity
  {
    if now > last {
      assert (now - last) * rate >= 0.0;
    }
  }

  /** ... and by consuming a non-negative amount. */
  lemma ConsumeBounded(tokens: real, last: real, now: real, amount: real, capacity: real, rate: real)
    requires 0.0 <= tokens <= capacity && rate >= 0.0 && amount >= 0.0
    ensures var o := Consumed(tokens, last, now, amount, capacity, rate);
      0.0 <= o.tokens <= capacity
  {
    RefillBounded(tokens, last, now, capacity, rate);
  }

  class TokenBucket {
    const capacity: real
    var tokens: real
    const refillPerSec: real
    /** The clock reading of the last refill, in seconds. */
    var last: real

    /** `TokenBucket::new`: a full bucket. */
    constructor (capacity: real, refillPerSec: real, now: real)
      ensures this.capacity == capacity && this.refillPerSec == refillPerSec
      ensures tokens == capacity && last == now
    {
      this.capacity, this.refillPerSec := capacity, refillPerSec;
      tokens, last := capacity, now;
    }

    /** `refill`: tops the bucket up by the elapsed time times the rate, never above capacity. */
    method Refill(now: real)
      modifies this
      ensures (tokens, last) == Refilled(old(tokens), old(last), now, capacity, refillPerSec)
    {
      var elapsed := if now > last then now - last else 0.0;
      if elapsed > 0.0 {
        tokens := Min(tokens + elapsed * refillPerSec, capacity);
        last := now;
      }
    }

    /** `try_consume`: refill, then take `amount` if there is that much. */
    method TryConsume(amount: real, now: real) returns (ok: bool)
      modifies this
      ensures Outcome(ok, tokens, last) == Consumed(old(tokens), old(last), now, amount, capacity, refillPerSec)
    {
      Refill(now);
      if tokens >= amount {
        tokens := tokens - amount;
        ok := true;
      } else {
        ok := false;
      }
    }
  }

  /** A bucket's state as the limiter's specification sees it: its tokens and its `last`. */
  type BucketState = (real, real)

  /**
   * One `allow(key)` on the map of bucket states: a key seen for the first
   * time starts from a full bucket; only that key's state changes.
   */
  function Step(v: map<string, BucketState>, key: string, now: real, capacity: real, rate: real): (r: (bool, map<string, BucketState>))
    ensures r.1.Keys == v.Keys + {key}
    ensures forall k :: k in v && k != key ==> r.1[k] == v[k]
  {
    var (t, l) := if key in v then v[key] else (capacity, now);
    var o := Consumed(t, l, now, 1.0, capacity, rate);
    (o.allowed, v[key := (o.tokens, o.last)])
  }

  predicate Bounded(v: map<string, BucketState>, capacity: real)
  {
    forall k :: k in v ==> 0.0 <= v[k].0 <= capacity
  }

  /** At a non-negative rate, every bucket keeps `0 <= tokens <= capacity` across an `allow`. */
  lemma StepBounded(v: map<string, BucketState>, key: string, now: real, capacity: real, rate: real)
    requires Bounded(v, capacity) && 0.0 <= capacity && rate >= 0.0
    ensures Bounded(Step(v, key, now, capacity, rate).1, capacity)
  {
    var (t, l) := if key in v then v[key] else (capacity, now);
    ConsumeBounded(t, l, now, 1.0, capacity, rate);
  }

  /** The answers of a run of `allow(key)` calls at the given clock readings. */
  function Answers(v: map<string, BucketState>, key: string, times: seq<real>, capacity: real, rate: real): (r: seq<bool>)
    ensures |r| == |times|
    decreases |times|
  {
    if times == [] then []
    else
      var (ok, v') := Step(v, key, times[0], capacity, rate);
      [ok] + Answers(v', key, times[1..], capacity, rate)
  }

  /** With no time elapsed since its last refill, a bucket holding `t` tokens allows iff `t >= 1`. */
  lemma StepWithoutElapse(v: map<string, BucketState>, key: string, t: real, now: real, capacity: real, rate: real)
    ensures Step(v[key := (t, now)], key, now, capacity, rate)
      == (t >= 1.0, v[key := (if t >= 1.0 then t - 1.0 else t, now)])
  {
    var v' := v[key := (t, now)];
    assert v'[key := (if t >= 1.0 then t - 1.0 else t, now)] == v[key := (if t >= 1.0 then t - 1.0 else t, now)];
  }

  /**
   * The gateway's configuration (capacity 5) with no time elapsing: a key
   * not in the map is allowed exactly five times and then denied.
   */
  lemma FreshKeyAllowsFive(v: map<string, BucketState>, key: string, now: real, rate: real)
    requires key !in v
    ensures Answers(v, key, [now, now, now, now, now, now], 5.0, rate) == [true, true, true, true, true, false]
  {
    StepWithoutElapse(v, key, 4.0, now, 5.0, rate);
    StepWithoutElapse(v, key, 3.0, now, 5.0, rate);
    StepWithoutElapse(v, key, 2.0, now, 5.0, rate);
    StepWithoutElapse(v, key, 1.0, now, 5.0, rate);
    StepWithoutElapse(v, key, 0.0, now, 5.0, rate);
    assert Answers(v[key := (0.0, now)], key, [now], 5.0, rate) == [false];
    assert Answers(v[key := (1.0, now)], key, [now, now], 5.0, rate) == [true, false] by {
      assert [now, now][1..] == [now];
    }
    assert Answers(v[key := (2.0, now)], key, [now, now, now], 5.0, rate) == [true, true, false] by {
      assert [now, now, now][1..] == [now, now];
    }
    assert Answers(v[key := (3.0, now)], key, [now, now, now, now], 5.0, rate) == [true, true, true, false] by {
      assert [now, now, now, now][1..] == [now, now, now];
    }
    assert Answers(v[key := (4.0, now)], key, [now, now, now, now, now], 5.0, rate) == [true, true, true, true, false] by {
      assert [now, now, now, now, now][1..] == [now, now, now, now];
    }
    assert Step(v, key, now, 5.0, rate) == (true, v[key := (4.0, now)]);
    assert [now, now, now, now, now, now][1..] == [now, now, now, now, now];
  }

  /** Waiting `1 / rate` seconds refills at least one token. */
  lemma OneTokenPerInterval(e: real, rate: real)
    requires rate > 0.0 && e >= 1.0 / rate
    ensures e * rate >= 1.0
  {
    assert (1.0 / rate) * rate == 1.0;
    assert e * rate - (1.0 / rate) * rate == (e - 1.0 / rate) * rate;
    assert (e - 1.0 / rate) * rate >= 0.0;
  }

  /**
   * After a denial, once `1 / rate` seconds have passed the next `allow`
   * succeeds (for a capacity of at least one token and a clock that does not
   * run backwards).
   */
  lemma RecoversAfterDenial(v: map<string, BucketState>, key: string, now: real, later: real, capacity: real, rate: real)
    requires key in v ==> 0.0 <= v[key].0 <= capacity && v[key].1 <= now
    requires capacity >= 1.0 && rate > 0.0
    requires !Step(v, key, now, capacity, rate).0
    requires later >= now + 1.0 / rate
    ensures Step(Step(v, key, now, capacity, rate).1, key, later, capacity, rate).0
  {
    var (t, l) := if key in v then v[key] else (capacity, now);
    RefillBounded(t, l, now, capacity, rate);
    var t1 := Refilled(t, l, now, capacity, rate).0;
    var v1 := Step(v, key, now, capacity, rate).1;
    assert v1[key] == (t1, now);
    OneTokenPerInterval(later - now, rate);
    assert t1 + (later - now) * rate >= 1.0;
    assert Refilled(t1, now, later, capacity, rate).0 >= 1.0;
  }

  /** `RateLimiter`: one bucket per key, created full on first use. */
  class RateLimiter {
    var buckets: map<string, TokenBucket>
    const capacity: real
    const refillPerSec: real

    /** Every bucket is a separate object made with the limiter's capacity and rate. */
    ghost predicate Valid()
      reads this, buckets.Values
    {
      && (forall k :: k in buckets ==> buckets[k].capacity == capacity && buckets[k].refillPerSec == refillPerSec)
      && (forall k1, k2 :: k1 in buckets && k2 in buckets && k1 != k2 ==> buckets[k1] != buckets[k2])
    }

    /** The state of every bucket. */
    ghost function View(): map<string, BucketState>
      reads this, buckets.Values
    {
      map k | k in buckets :: (buckets[k].tokens, buckets[k].last)
    }

    /** `RateLimiter::new`: no buckets yet; the capacity is a count of tokens. */
    constructor (capacity: nat, refillPerSec: real)
      ensures Valid() && View() == map[]
      ensures this.capacity == capacity as real && this.refillPerSec == refillPerSec
    {
      buckets := map[];
      this.capacity := capacity as real;
      this.refillPerSec := refillPerSec;
    }

    /** `allow`: takes one token from the key's bucket, creating it full when it is missing. */
    method Allow(key: string, now: real) returns (ok: bool)
      requires Valid()
      modifies this, buckets.Values
      ensures Valid()
      ensures (ok, View()) == Step(old(View()), key, now, capacity, refillPerSec)
      ensures forall b :: b in buckets.Values ==> b in old(buckets.Values) || fresh(b)
    {
      var b: TokenBucket;
      if key in buckets {
        b := buckets[key];
      } else {
        b := new TokenBucket(capacity, refillPerSec, now);
        buckets := buckets[key := b];
      }
      ok := b.TryConsume(1.0, now);
      assert View() == old(View())[key := (b.tokens, b.last)];
    }

    /** `clear_buckets`: every key is fresh again. */
    method ClearBuckets()
      modifies this
      ensures Valid() && View() == map[]
    {
      buckets := map[];
    }
  }
}
