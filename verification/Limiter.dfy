/** Sign-in throttling: token buckets keyed by who is asking, over real arithmetic and integer nanoseconds. */
module Limiter {
  import opened Prelude

  /** A full bucket holds `burst` tokens; an empty one gains a token in `refill` nanoseconds. */
  datatype Budget = Budget(burst: int, refill: int)

  datatype Bucket = Bucket(tokens: real, lastSeen: int)

  type Budgets = map<string, Budget>

  type Buckets = map<string, Bucket>

  const SECOND := 1_000_000_000

  // ---------------------------------------------------------------- keys and their budgets

  /** `cutKeyPrefix`: what stands before the first colon. */
  function PrefixOf(key: string): (prefix: Option<string>)
    ensures prefix.Some? ==> prefix.value + ":" <= key && ':' !in prefix.value
    ensures prefix.None? ==> ':' !in key
  {
    if key == "" then None
    else if key[0] == ':' then Some("")
    else
      var rest := PrefixOf(key[1..]);
      assert key == [key[0]] + key[1..];
      assert rest.Some? ==> ([key[0]] + rest.value) + ":" == [key[0]] + (rest.value + ":");
      if rest.Some? then Some([key[0]] + rest.value) else None
  }

  function LoginKey(prefix: string, value: string): (key: string) { prefix + ":" + value }

  /** However a username is spelt, it is counted under the budget it was filed under. */
  lemma {:induction false} PrefixOfLoginKey(prefix: string, value: string)
    requires ':' !in prefix
    ensures PrefixOf(LoginKey(prefix, value)) == Some(prefix)
  {
    var key := LoginKey(prefix, value);
    if prefix != "" {
      assert key[0] == prefix[0] && key[0] in prefix;
      assert key[1..] == LoginKey(prefix[1..], value);
      PrefixOfLoginKey(prefix[1..], value);
      assert prefix == [prefix[0]] + prefix[1..];
    }
  }

  /** The two keys of one sign-in never share a bucket, so an attempt's keys are always distinct. */
  lemma SignInKeysDiffer(user: string, address: string)
    ensures LoginKey("user", user) != LoginKey("addr", address)
  {
    assert LoginKey("user", user)[0] == 'u' && LoginKey("addr", address)[0] == 'a';
  }

  /** None where `Allow` is to let the key through unmetered. */
  function BudgetOf(budgets: Budgets, key: string): (b: Option<Budget>)
    ensures b.Some? ==> 1 <= b.value.burst && 0 < b.value.refill
  {
    var prefix := PrefixOf(key);
    if prefix.None? || prefix.value !in budgets then None
    else
      var b := budgets[prefix.value];
      if b.burst < 1 || b.refill <= 0 then None else Some(b)
  }

  predicate Limited(budgets: Budgets, key: string) { BudgetOf(budgets, key).Some? }

  // ---------------------------------------------------------------- refilling

  /** Tokens gained over a stretch of time. */
  function Gain(elapsed: int, b: Budget): (g: real)
    requires 0 < b.refill
  {
    elapsed as real / b.refill as real
  }

  lemma GainAdds(x: int, y: int, b: Budget)
    requires 0 < b.refill
    ensures Gain(x + y, b) == Gain(x, b) + Gain(y, b)
  {
  }

  lemma GainGrows(x: int, y: int, b: Budget)
    requires 0 < b.refill && x <= y
    ensures Gain(x, b) <= Gain(y, b)
  {
    GainAdds(x, y - x, b);
    assert (y - x) as real / b.refill as real >= 0.0;
  }

  /** How long an empty bucket takes to fill. */
  function FillTime(b: Budget): (t: int)
    ensures 1 <= b.burst && 0 < b.refill ==> 0 < t
  {
    b.burst * b.refill
  }

  lemma GainFills(elapsed: int, b: Budget)
    requires 0 < b.refill && FillTime(b) <= elapsed
    ensures b.burst as real <= Gain(elapsed, b)
  {
    GainGrows(b.burst * b.refill, elapsed, b);
    assert Gain(b.burst * b.refill, b) == (b.burst as real * b.refill as real) / b.refill as real;
  }

  lemma GainCovers(missing: real, elapsed: int, b: Budget)
    requires 0 < b.refill && (missing * b.refill as real).Floor < elapsed
    ensures missing <= Gain(elapsed, b)
  {
    assert missing * b.refill as real <= elapsed as real;
    assert missing == (missing * b.refill as real) / b.refill as real;
    var slack := elapsed as real - missing * b.refill as real;
    assert slack / b.refill as real >= 0.0;
  }

  function Cap(x: real, b: Budget): (r: real) { if x > b.burst as real then b.burst as real else x }

  function Refilled(bucket: Bucket, b: Budget, now: int): (r: Bucket)
    requires 0 < b.refill
  {
    var elapsed := now - bucket.lastSeen;
    if elapsed <= 0 then Bucket(bucket.tokens, now) else Bucket(Cap(bucket.tokens + Gain(elapsed, b), b), now)
  }

  /** The bucket an attempt at `now` finds: a new key starts full. */
  function Found(budgets: Budgets, s: Buckets, key: string, now: int): (r: Bucket)
    requires Limited(budgets, key)
  {
    var b := BudgetOf(budgets, key).value;
    if key in s then Refilled(s[key], b, now) else Bucket(b.burst as real, now)
  }

  /** How many tokens an attempt at `now` would find. */
  function Level(budgets: Budgets, s: Buckets, key: string, now: int): (tokens: real)
    requires Limited(budgets, key)
  {
    Found(budgets, s, key, now).tokens
  }

  // ---------------------------------------------------------------- the operations

  function Touch(budgets: Budgets, s: Buckets, key: string, now: int): (r: Buckets)
  {
    if Limited(budgets, key) then s[key := Found(budgets, s, key, now)] else s
  }

  function TouchAll(budgets: Budgets, s: Buckets, keys: seq<string>, now: int): (r: Buckets)
  {
    if keys == [] then s else Touch(budgets, TouchAll(budgets, s, keys[..|keys| - 1], now), keys[|keys| - 1], now)
  }

  function LimitedKeys(budgets: Budgets, keys: seq<string>): (r: seq<string>)
  {
    if keys == [] then []
    else
      var rest := LimitedKeys(budgets, keys[..|keys| - 1]);
      if Limited(budgets, keys[|keys| - 1]) then rest + [keys[|keys| - 1]] else rest
  }

  function SpendAll(s: Buckets, keys: seq<string>): (r: Buckets)
    requires forall i | 0 <= i < |keys| :: keys[i] in s
    ensures r.Keys == s.Keys
  {
    if keys == [] then s
    else
      var rest, key := SpendAll(s, keys[..|keys| - 1]), keys[|keys| - 1];
      rest[key := rest[key].(tokens := rest[key].tokens - 1.0)]
  }

  /** Every limited key has a whole token. */
  predicate Permits(budgets: Budgets, s: Buckets, keys: seq<string>, now: int)
  {
    forall i | 0 <= i < |keys| :: Limited(budgets, keys[i]) ==> Level(budgets, s, keys[i], now) >= 1.0
  }

  function WaitFor(tokens: real, b: Budget): (wait: int)
  {
    if tokens >= 1.0 then 0 else ((1.0 - tokens) * b.refill as real).Floor
  }

  function WaitOn(budgets: Budgets, s: Buckets, key: string, now: int): (wait: int)
  {
    if Limited(budgets, key) then WaitFor(Level(budgets, s, key, now), BudgetOf(budgets, key).value) else 0
  }

  /** The longest wait among the keys that refused. */
  function LongestWait(budgets: Budgets, s: Buckets, keys: seq<string>, now: int): (wait: int)
    ensures 0 <= wait
  {
    if keys == [] then 0
    else Max(LongestWait(budgets, s, keys[..|keys| - 1], now), WaitOn(budgets, s, keys[|keys| - 1], now))
  }

  lemma {:induction false} LimitedKeysExact(budgets: Budgets, keys: seq<string>, key: string)
    ensures key in LimitedKeys(budgets, keys) <==> key in keys && Limited(budgets, key)
  {
    if keys != [] {
      LimitedKeysExact(budgets, keys[..|keys| - 1], key);
      assert keys == keys[..|keys| - 1] + [keys[|keys| - 1]];
    }
  }

  /** Touching keys touches those keys and no others, whatever their order and however often. */
  lemma {:induction false} TouchAllAt(budgets: Budgets, s: Buckets, keys: seq<string>, now: int, key: string)
    ensures key in TouchAll(budgets, s, keys, now) <==> key in s || (key in keys && Limited(budgets, key))
    ensures key in keys && Limited(budgets, key) ==> TouchAll(budgets, s, keys, now)[key] == Found(budgets, s, key, now)
    ensures key in s && (key !in keys || !Limited(budgets, key)) ==> TouchAll(budgets, s, keys, now)[key] == s[key]
  {
    if keys != [] {
      TouchAllAt(budgets, s, keys[..|keys| - 1], now, key);
      assert keys == keys[..|keys| - 1] + [keys[|keys| - 1]];
    }
  }

  lemma SpendableKeys(budgets: Budgets, s: Buckets, keys: seq<string>, now: int)
    ensures forall i | 0 <= i < |LimitedKeys(budgets, keys)| ::
              LimitedKeys(budgets, keys)[i] in TouchAll(budgets, s, keys, now)
  {
    forall i | 0 <= i < |LimitedKeys(budgets, keys)|
      ensures LimitedKeys(budgets, keys)[i] in TouchAll(budgets, s, keys, now) {
      LimitedKeysExact(budgets, keys, LimitedKeys(budgets, keys)[i]);
      TouchAllAt(budgets, s, keys, now, LimitedKeys(budgets, keys)[i]);
    }
  }

  function AllowState(budgets: Budgets, s: Buckets, keys: seq<string>, now: int): (r: Buckets)
  {
    var touched := TouchAll(budgets, s, keys, now);
    SpendableKeys(budgets, s, keys, now);
    if Permits(budgets, s, keys, now) then SpendAll(touched, LimitedKeys(budgets, keys)) else touched
  }

  function Swept(s: Buckets, cutoff: int): (r: Buckets)
  {
    map key | key in s && s[key].lastSeen >= cutoff :: s[key]
  }

  // ---------------------------------------------------------------- the limiter itself

  lemma WaitNext(budgets: Budgets, s: Buckets, keys: seq<string>, i: nat, now: int)
    requires i < |keys|
    ensures LongestWait(budgets, s, keys[..i + 1], now) ==
            Max(LongestWait(budgets, s, keys[..i], now), WaitOn(budgets, s, keys[i], now))
  {
    assert keys[..i + 1][..i] == keys[..i];
  }

  lemma SweptParts(s: Buckets, cutoff: int)
    ensures var stale := set key | key in s && s[key].lastSeen < cutoff;
            s - stale == Swept(s, cutoff) && |stale| + |Swept(s, cutoff)| == |s|
  {
    var stale := set key | key in s && s[key].lastSeen < cutoff;
    var kept := Swept(s, cutoff).Keys;
    assert s.Keys == stale + kept && stale !! kept;
    assert |s.Keys| == |stale| + |kept|;
  }

  lemma PermitsNext(budgets: Budgets, s: Buckets, keys: seq<string>, i: nat, now: int)
    requires i < |keys|
    ensures Permits(budgets, s, keys[..i + 1], now) <==>
            Permits(budgets, s, keys[..i], now) && (Limited(budgets, keys[i]) ==>
                                                    Level(budgets, s, keys[i], now) >= 1.0)
  {
    var longer, shorter := keys[..i + 1], keys[..i];
    assert forall j | 0 <= j < i :: longer[j] == shorter[j];
    assert longer[i] == keys[i];
  }

  function Forgotten(s: Buckets, keys: seq<string>): (r: Buckets)
  {
    s - set key | key in keys
  }

  class LoginLimiter {
    const budgets: Budgets
    var buckets: Buckets

    constructor (budgets: Budgets)
      ensures this.budgets == budgets && buckets == map[]
    {
      this.budgets := budgets;
      buckets := map[];
    }

    /** `bucketLocked`: the refilled bucket behind a key, created full on first sight. */
    method BucketLocked(key: string, now: int) returns (limited: bool)
      modifies this`buckets
      ensures buckets == Touch(budgets, old(buckets), key, now)
      ensures limited == Limited(budgets, key)
    {
      var b := BudgetOf(budgets, key);
      if b.None? {
        return false;
      }
      if key !in buckets {
        buckets := buckets[key := Bucket(b.value.burst as real, now)];
        return true;
      }
      var bucket := buckets[key];
      var elapsed := now - bucket.lastSeen;
      var tokens := bucket.tokens;
      if elapsed > 0 {
        tokens := tokens + elapsed as real / b.value.refill as real;
        if tokens > b.value.burst as real {
          tokens := b.value.burst as real;
        }
      }
      buckets := buckets[key := Bucket(tokens, now)];
      return true;
    }

    /** The first loop of Allow: refill every bucket, and note which would pay and which refuse. */
    method Inspect(keys: seq<string>, now: int) returns (allowed: bool, longest: int, spending: seq<string>)
      modifies this`buckets
      ensures buckets == TouchAll(budgets, old(buckets), keys, now)
      ensures allowed == Permits(budgets, old(buckets), keys, now)
      ensures longest == LongestWait(budgets, old(buckets), keys, now)
      ensures allowed ==> spending == LimitedKeys(budgets, keys)
    {
      ghost var s := buckets;
      allowed, longest, spending := true, 0, [];
      var i := 0;
      while i < |keys|
        invariant 0 <= i <= |keys|
        invariant buckets == TouchAll(budgets, s, keys[..i], now)
        invariant allowed == Permits(budgets, s, keys[..i], now)
        invariant longest == LongestWait(budgets, s, keys[..i], now)
        invariant allowed ==> spending == LimitedKeys(budgets, keys[..i])
      {
        var key := keys[i];
        assert keys[..i + 1][..i] == keys[..i];
        var limited := BucketLocked(key, now);
        TouchAllAt(budgets, s, keys[..i + 1], now, key);
        PermitsNext(budgets, s, keys, i, now);
        WaitNext(budgets, s, keys, i, now);
        if limited {
          var tokens := buckets[key].tokens;
          if tokens < 1.0 {
            allowed := false;
            var wait := WaitFor(tokens, BudgetOf(budgets, key).value);
            if wait > longest {
              longest := wait;
            }
          } else {
            spending := spending + [key];
          }
        }
        i := i + 1;
      }
      assert keys[..i] == keys;
    }

    /** Inspect all buckets first; take a token from each only if the whole attempt passes. */
    method Allow(keys: seq<string>, now: int) returns (allowed: bool, wait: int)
      modifies this`buckets
      ensures buckets == AllowState(budgets, old(buckets), keys, now)
      ensures allowed == Permits(budgets, old(buckets), keys, now)
      ensures wait == if allowed then 0 else LongestWait(budgets, old(buckets), keys, now)
    {
      ghost var s := buckets;
      var spending;
      allowed, wait, spending := Inspect(keys, now);
      if !allowed {
        return;
      }
      wait := 0;
      SpendableKeys(budgets, s, keys, now);
      var touched := buckets;
      var i := 0;
      while i < |spending|
        invariant 0 <= i <= |spending|
        invariant buckets == SpendAll(touched, spending[..i])
      {
        assert spending[..i + 1][..i] == spending[..i];
        buckets := buckets[spending[i] := buckets[spending[i]].(tokens := buckets[spending[i]].tokens - 1.0)];
        i := i + 1;
      }
      assert spending[..i] == spending;
    }

    method Reset(keys: seq<string>)
      modifies this`buckets
      ensures buckets == Forgotten(old(buckets), keys)
    {
      var i := 0;
      while i < |keys|
        invariant 0 <= i <= |keys|
        invariant buckets == Forgotten(old(buckets), keys[..i])
      {
        assert keys[..i + 1] == keys[..i] + [keys[i]];
        buckets := buckets - {keys[i]};
        i := i + 1;
      }
      assert keys[..i] == keys;
    }

    method Sweep(idle: int, now: int) returns (removed: nat)
      modifies this`buckets
      ensures buckets == Swept(old(buckets), now - idle)
      ensures removed == |old(buckets)| - |buckets|
    {
      var cutoff := now - idle;
      var stale := set key | key in buckets && buckets[key].lastSeen < cutoff;
      SweptParts(buckets, cutoff);
      removed := |stale|;
      buckets := buckets - stale;
    }
  }

  // ---------------------------------------------------------------- levels over time

  /** Buckets are never overdrawn nor overfull. */
  ghost predicate TokensBounded(budgets: Budgets, s: Buckets)
  {
    forall key | key in s ::
      Limited(budgets, key) && 0.0 <= s[key].tokens <= BudgetOf(budgets, key).value.burst as real
  }

  /** ... and nothing was seen after the clock. */
  ghost predicate InBounds(budgets: Budgets, s: Buckets, clock: int)
  {
    TokensBounded(budgets, s) && forall key | key in s :: s[key].lastSeen <= clock
  }

  /** Whatever the clock says, an attempt finds no less than nothing and no more than the burst. */
  lemma LevelBounded(budgets: Budgets, s: Buckets, key: string, now: int)
    requires TokensBounded(budgets, s) && Limited(budgets, key)
    ensures 0.0 <= Level(budgets, s, key, now) <= BudgetOf(budgets, key).value.burst as real
  {
    var b := BudgetOf(budgets, key).value;
    if key in s && s[key].lastSeen < now {
      GainGrows(0, now - s[key].lastSeen, b);
      assert Gain(0, b) == 0.0;
    }
  }

  lemma CapTwice(x: real, y: real, b: Budget)
    requires 0.0 <= y
    ensures Cap(Cap(x, b) + y, b) == Cap(x + y, b)
  {
  }

  /** Between attempts a level only rises at the refill rate, up to the burst. */
  lemma LevelLater(budgets: Budgets, s: Buckets, key: string, t: int, u: int)
    requires InBounds(budgets, s, t) && Limited(budgets, key) && t <= u
    ensures var b := BudgetOf(budgets, key).value;
            Level(budgets, s, key, u) == Cap(Level(budgets, s, key, t) + Gain(u - t, b), b)
    ensures 0.0 <= Level(budgets, s, key, t) <= BudgetOf(budgets, key).value.burst as real
  {
    var b := BudgetOf(budgets, key).value;
    GainGrows(0, u - t, b);
    assert Gain(0, b) == 0.0;
    if key in s {
      GainGrows(0, t - s[key].lastSeen, b);
      GainAdds(t - s[key].lastSeen, u - t, b);
      CapTwice(s[key].tokens + Gain(t - s[key].lastSeen, b), Gain(u - t, b), b);
    }
  }

  lemma {:induction false} LimitedKeysDistinct(budgets: Budgets, keys: seq<string>)
    requires NoRepeats(keys)
    ensures NoRepeats(LimitedKeys(budgets, keys))
  {
    if keys != [] {
      LimitedKeysDistinct(budgets, keys[..|keys| - 1]);
      LimitedKeysExact(budgets, keys[..|keys| - 1], keys[|keys| - 1]);
    }
  }

  lemma {:induction false} SpendAllAt(s: Buckets, keys: seq<string>, key: string)
    requires (forall i | 0 <= i < |keys| :: keys[i] in s) && NoRepeats(keys) && key in s
    ensures SpendAll(s, keys)[key] == if key in keys then s[key].(tokens := s[key].tokens - 1.0) else s[key]
  {
    if keys != [] {
      SpendAllAt(s, keys[..|keys| - 1], key);
      assert keys == keys[..|keys| - 1] + [keys[|keys| - 1]];
    }
  }

  /** What an attempt leaves behind a key. */
  lemma AllowAt(budgets: Budgets, s: Buckets, keys: seq<string>, now: int, key: string)
    requires NoRepeats(keys)
    ensures var r := AllowState(budgets, s, keys, now);
            && (key in r <==> key in s || (key in keys && Limited(budgets, key)))
            && (key in s && (key !in keys || !Limited(budgets, key)) ==> r[key] == s[key])
            && (key in keys && Limited(budgets, key) ==>
                  r[key] == Bucket(Level(budgets, s, key, now) - (if Permits(budgets, s, keys, now) then 1.0 else 0.0),
                                   now))
  {
    var touched := TouchAll(budgets, s, keys, now);
    TouchAllAt(budgets, s, keys, now, key);
    SpendableKeys(budgets, s, keys, now);
    LimitedKeysDistinct(budgets, keys);
    LimitedKeysExact(budgets, keys, key);
    if key in touched {
      SpendAllAt(touched, LimitedKeys(budgets, keys), key);
    }
  }

  lemma PermitsMeans(budgets: Budgets, s: Buckets, keys: seq<string>, now: int, key: string)
    requires Permits(budgets, s, keys, now) && key in keys && Limited(budgets, key)
    ensures Level(budgets, s, key, now) >= 1.0
  {
    var i :| 0 <= i < |keys| && keys[i] == key;
  }

  lemma AllowKeepsTokens(budgets: Budgets, s: Buckets, keys: seq<string>, now: int)
    requires TokensBounded(budgets, s) && NoRepeats(keys)
    ensures TokensBounded(budgets, AllowState(budgets, s, keys, now))
  {
    var r := AllowState(budgets, s, keys, now);
    forall key | key in r
      ensures Limited(budgets, key) && 0.0 <= r[key].tokens <= BudgetOf(budgets, key).value.burst as real
    {
      AllowAt(budgets, s, keys, now, key);
      if key in keys && Limited(budgets, key) {
        LevelBounded(budgets, s, key, now);
        if Permits(budgets, s, keys, now) {
          PermitsMeans(budgets, s, keys, now, key);
        }
      }
    }
  }

  lemma AllowKeepsBounds(budgets: Budgets, s: Buckets, keys: seq<string>, clock: int, now: int)
    requires InBounds(budgets, s, clock) && NoRepeats(keys) && clock <= now
    ensures InBounds(budgets, AllowState(budgets, s, keys, now), now)
  {
    var r := AllowState(budgets, s, keys, now);
    AllowKeepsTokens(budgets, s, keys, now);
    forall key | key in r ensures r[key].lastSeen <= now {
      AllowAt(budgets, s, keys, now, key);
    }
  }

  /** An attempt that passes costs each of its keys one token, and costs no other key anything. */
  lemma AllowLevel(budgets: Budgets, s: Buckets, keys: seq<string>, clock: int, now: int, key: string)
    requires InBounds(budgets, s, clock) && NoRepeats(keys) && clock <= now && Limited(budgets, key)
    ensures Level(budgets, AllowState(budgets, s, keys, now), key, now) ==
            Level(budgets, s, key, now) - (if Permits(budgets, s, keys, now) && key in keys then 1.0 else 0.0)
  {
    AllowAt(budgets, s, keys, now, key);
  }

  /** A refusal by any key spends nothing from any key, now or as seen at any later time. */
  lemma RefusalSpendsNothing(budgets: Budgets, s: Buckets, keys: seq<string>, clock: int, now: int, key: string,
                             later: int)
    requires InBounds(budgets, s, clock) && NoRepeats(keys) && clock <= now <= later && Limited(budgets, key)
    requires !Permits(budgets, s, keys, now)
    ensures Level(budgets, AllowState(budgets, s, keys, now), key, later) == Level(budgets, s, key, later)
  {
    AllowLevel(budgets, s, keys, clock, now, key);
    AllowKeepsBounds(budgets, s, keys, clock, now);
    LevelLater(budgets, AllowState(budgets, s, keys, now), key, now, later);
    LevelLater(budgets, s, key, now, later);
  }

  predicate Usable(prefix: string, b: Budget) { ':' !in prefix && 1 <= b.burst && 0 < b.refill }

  /** A sweep drops what has been idle for more than `idle`; by then every usable budget has refilled. */
  ghost predicate LongIdle(budgets: Budgets, idle: int)
  {
    forall prefix | prefix in budgets && Usable(prefix, budgets[prefix]) ::
      FillTime(budgets[prefix]) <= idle + 1
  }

  /** A sweep at this idle time drops this key's bucket only once it has refilled. */
  predicate WaitsOut(budgets: Budgets, idle: int, key: string)
    requires Limited(budgets, key)
  {
    FillTime(BudgetOf(budgets, key).value) <= idle + 1
  }

  lemma LongIdleWaitsOut(budgets: Budgets, idle: int, key: string)
    requires LongIdle(budgets, idle) && Limited(budgets, key)
    ensures WaitsOut(budgets, idle, key)
  {
    var prefix := PrefixOf(key).value;
    assert budgets[prefix] == BudgetOf(budgets, key).value && Usable(prefix, budgets[prefix]);
  }

  lemma SweepLevel(budgets: Budgets, s: Buckets, idle: int, clock: int, now: int, key: string)
    requires InBounds(budgets, s, clock) && clock <= now && Limited(budgets, key) && WaitsOut(budgets, idle, key)
    ensures Level(budgets, Swept(s, now - idle), key, now) == Level(budgets, s, key, now)
  {
    if key in s && s[key].lastSeen < now - idle {
      GainFills(now - s[key].lastSeen, BudgetOf(budgets, key).value);
    }
  }

  /** However short it waits, a sweep can only raise a level. */
  lemma SweepRaises(budgets: Budgets, s: Buckets, cutoff: int, now: int, key: string)
    requires TokensBounded(budgets, s) && Limited(budgets, key)
    ensures Level(budgets, s, key, now) <= Level(budgets, Swept(s, cutoff), key, now)
  {
    LevelBounded(budgets, s, key, now);
  }

  // ---------------------------------------------------------------- runs

  /** Callers attempt to sign in, succeed and have their keys reset, and the server sweeps. */
  datatype Call =
    | Attempt(keys: seq<string>, now: int)
    | Reset(keys: seq<string>, now: int)
    | Sweep(idle: int, now: int)

  function Do(budgets: Budgets, s: Buckets, c: Call): (r: Buckets)
  {
    match c
    case Attempt(keys, now) => AllowState(budgets, s, keys, now)
    case Reset(keys, _) => Forgotten(s, keys)
    case Sweep(idle, now) => Swept(s, now - idle)
  }

  function Run(budgets: Budgets, s: Buckets, calls: seq<Call>): (r: Buckets)
  {
    if calls == [] then s else Do(budgets, Run(budgets, s, calls[..|calls| - 1]), calls[|calls| - 1])
  }

  function End(calls: seq<Call>, start: int): (t: int) { if calls == [] then start else calls[|calls| - 1].now }

  ghost predicate DistinctKeys(c: Call) { c.Attempt? ==> NoRepeats(c.keys) }

  /** A clock that never goes back, and distinct keys in every attempt. */
  ghost predicate Timely(calls: seq<Call>, start: int)
  {
    && (forall i | 0 <= i < |calls| :: start <= calls[i].now && DistinctKeys(calls[i]))
    && (forall i, j | 0 <= i < j < |calls| :: calls[i].now <= calls[j].now)
  }

  /** Sweeps that wait out every usable budget. */
  ghost predicate Patient(budgets: Budgets, calls: seq<Call>)
  {
    forall i | 0 <= i < |calls| :: calls[i].Sweep? ==> LongIdle(budgets, calls[i].idle)
  }

  /** Sweeps that wait out one key's budget. */
  ghost predicate PatientWith(budgets: Budgets, calls: seq<Call>, key: string)
    requires Limited(budgets, key)
  {
    forall i | 0 <= i < |calls| :: calls[i].Sweep? ==> WaitsOut(budgets, calls[i].idle, key)
  }

  function PaidBy(budgets: Budgets, s: Buckets, c: Call, key: string): (n: nat)
  {
    if c.Attempt? && key in c.keys && Permits(budgets, s, c.keys, c.now) then 1 else 0
  }

  /** Attempts on a key that were let through. */
  function Passed(budgets: Budgets, s: Buckets, calls: seq<Call>, key: string): (n: nat)
  {
    if calls == [] then 0
    else
      var front := calls[..|calls| - 1];
      Passed(budgets, s, front, key) + PaidBy(budgets, Run(budgets, s, front), calls[|calls| - 1], key)
  }

  /** How often a key was reset. */
  function Resets(calls: seq<Call>, key: string): (n: nat)
  {
    if calls == [] then 0
    else
      var c := calls[|calls| - 1];
      Resets(calls[..|calls| - 1], key) + (if c.Reset? && key in c.keys then 1 else 0)
  }

  /** What one call may add to a key's level: a reset fills the bucket. */
  function Refund(budgets: Budgets, c: Call, key: string): (tokens: real)
    requires Limited(budgets, key)
  {
    if c.Reset? && key in c.keys then BudgetOf(budgets, key).value.burst as real else 0.0
  }

  lemma DoLevel(budgets: Budgets, s: Buckets, c: Call, clock: int, key: string)
    requires InBounds(budgets, s, clock) && DistinctKeys(c) && clock <= c.now && Limited(budgets, key)
    requires c.Sweep? ==> WaitsOut(budgets, c.idle, key)
    ensures Level(budgets, Do(budgets, s, c), key, c.now) <=
            Level(budgets, s, key, c.now) - PaidBy(budgets, s, c, key) as real + Refund(budgets, c, key)
  {
    match c
    case Attempt(keys, now) => AllowLevel(budgets, s, keys, clock, now, key);
    case Reset(keys, now) => LevelBounded(budgets, s, key, now);
    case Sweep(idle, now) => SweepLevel(budgets, s, idle, clock, now, key);
  }

  lemma DoKeepsBounds(budgets: Budgets, s: Buckets, c: Call, clock: int)
    requires InBounds(budgets, s, clock) && DistinctKeys(c) && clock <= c.now
    ensures InBounds(budgets, Do(budgets, s, c), c.now)
  {
    if c.Attempt? {
      AllowKeepsBounds(budgets, s, c.keys, clock, c.now);
    }
  }

  lemma TimelyFront(calls: seq<Call>, start: int)
    requires calls != [] && Timely(calls, start)
    ensures Timely(calls[..|calls| - 1], start) && DistinctKeys(calls[|calls| - 1])
    ensures start <= End(calls[..|calls| - 1], start) <= calls[|calls| - 1].now
  {
  }

  /** A key is limited exactly when its prefix has a budget that lets something through, and then by that budget. */
  lemma LimitedExactly(budgets: Budgets, prefix: string, value: string)
    requires ':' !in prefix
    ensures Limited(budgets, LoginKey(prefix, value)) <==>
            prefix in budgets && 1 <= budgets[prefix].burst && 0 < budgets[prefix].refill
    ensures Limited(budgets, LoginKey(prefix, value)) ==>
              BudgetOf(budgets, LoginKey(prefix, value)) == Some(budgets[prefix])
  {
    PrefixOfLoginKey(prefix, value);
  }

  /** After a successful sign-in its keys are as if nobody had ever tried them, and no other key is. */
  lemma ResetFills(budgets: Budgets, s: Buckets, keys: seq<string>, now: int, key: string, later: int)
    requires Limited(budgets, key)
    ensures Level(budgets, Do(budgets, s, Reset(keys, now)), key, later) ==
            if key in keys then BudgetOf(budgets, key).value.burst as real else Level(budgets, s, key, later)
  {
  }

  /** ... so the next attempt on them is let in. */
  lemma ResetLetsIn(budgets: Budgets, s: Buckets, keys: seq<string>, now: int, later: int)
    ensures Permits(budgets, Do(budgets, s, Reset(keys, now)), keys, later)
  {
    forall i | 0 <= i < |keys| && Limited(budgets, keys[i])
      ensures Level(budgets, Do(budgets, s, Reset(keys, now)), keys[i], later) >= 1.0
    {
      ResetFills(budgets, s, keys, now, keys[i], later);
    }
  }

  /** Whatever is attempted with distinct keys and swept, at whatever times, the clock going back included, tokens
      stay between nothing and the burst. */
  lemma {:induction false} RunKeepsTokens(budgets: Budgets, s: Buckets, calls: seq<Call>)
    requires TokensBounded(budgets, s) && forall i | 0 <= i < |calls| :: DistinctKeys(calls[i])
    ensures TokensBounded(budgets, Run(budgets, s, calls))
  {
    if calls != [] {
      var front, c := calls[..|calls| - 1], calls[|calls| - 1];
      RunKeepsTokens(budgets, s, front);
      if c.Attempt? {
        AllowKeepsTokens(budgets, Run(budgets, s, front), c.keys, c.now);
      }
    }
  }

  lemma {:induction false} RunKeepsBounds(budgets: Budgets, s: Buckets, calls: seq<Call>, start: int)
    requires InBounds(budgets, s, start) && Timely(calls, start)
    ensures InBounds(budgets, Run(budgets, s, calls), End(calls, start))
  {
    if calls != [] {
      TimelyFront(calls, start);
      RunKeepsBounds(budgets, s, calls[..|calls| - 1], start);
      DoKeepsBounds(budgets, Run(budgets, s, calls[..|calls| - 1]), calls[|calls| - 1],
                    End(calls[..|calls| - 1], start));
    }
  }

  /** One call: what it lets through and leaves is no more than what was there and what trickled in. */
  lemma CallConserves(budgets: Budgets, s: Buckets, c: Call, clock: int, key: string)
    requires InBounds(budgets, s, clock) && DistinctKeys(c) && clock <= c.now && Limited(budgets, key)
    requires c.Sweep? ==> WaitsOut(budgets, c.idle, key)
    ensures PaidBy(budgets, s, c, key) as real + Level(budgets, Do(budgets, s, c), key, c.now) <=
            Level(budgets, s, key, clock) + Gain(c.now - clock, BudgetOf(budgets, key).value) +
            Refund(budgets, c, key)
  {
    DoLevel(budgets, s, c, clock, key);
    LevelLater(budgets, s, key, clock, c.now);
  }

  lemma AddUp(p: int, q: int, x: real, y: real, z: real, g: real, h: real, refund: real)
    requires p as real + y <= x + g && q as real + z <= y + h + refund
    ensures (p + q) as real + z <= x + (g + h) + refund
  {
  }

  lemma ConservedNext(budgets: Budgets, mid: Buckets, c: Call, start: int, t: int, key: string, passed: nat,
                      level: real)
    requires InBounds(budgets, mid, t) && DistinctKeys(c) && t <= c.now && Limited(budgets, key)
    requires c.Sweep? ==> WaitsOut(budgets, c.idle, key)
    requires passed as real + Level(budgets, mid, key, t) <= level + Gain(t - start, BudgetOf(budgets, key).value)
    ensures (passed + PaidBy(budgets, mid, c, key)) as real + Level(budgets, Do(budgets, mid, c), key, c.now) <=
            level + Gain(c.now - start, BudgetOf(budgets, key).value) + Refund(budgets, c, key)
  {
    var b := BudgetOf(budgets, key).value;
    CallConserves(budgets, mid, c, t, key);
    GainAdds(t - start, c.now - t, b);
    assert (t - start) + (c.now - t) == c.now - start;
    AddUp(passed, PaidBy(budgets, mid, c, key), level, Level(budgets, mid, key, t),
          Level(budgets, Do(budgets, mid, c), key, c.now), Gain(t - start, b), Gain(c.now - t, b),
          Refund(budgets, c, key));
  }

  /** All that may be let through beyond what was there: one burst for each reset, and what trickled in. */
  function Allowance(budgets: Budgets, calls: seq<Call>, start: int, key: string): (tokens: real)
    requires Limited(budgets, key)
  {
    var b := BudgetOf(budgets, key).value;
    (Resets(calls, key) * b.burst) as real + Gain(End(calls, start) - start, b)
  }

  lemma AllowanceNext(budgets: Budgets, front: seq<Call>, c: Call, calls: seq<Call>, start: int, key: string)
    requires calls == front + [c] && Limited(budgets, key)
    ensures Allowance(budgets, calls, start, key) ==
            (Resets(front, key) * BudgetOf(budgets, key).value.burst) as real +
            Gain(c.now - start, BudgetOf(budgets, key).value) + Refund(budgets, c, key)
  {
    var burst, n := BudgetOf(budgets, key).value.burst, Resets(front, key);
    assert calls[..|calls| - 1] == front;
    assert (n + 1) * burst == n * burst + burst;
  }

  /** What was let through and what is left never exceed what was there, what resets gave back and what trickled
      in. */
  lemma {:induction false} TokensConserved(budgets: Budgets, s: Buckets, calls: seq<Call>, start: int, key: string)
    requires InBounds(budgets, s, start) && Timely(calls, start) && Limited(budgets, key)
    requires PatientWith(budgets, calls, key)
    ensures Passed(budgets, s, calls, key) as real + Level(budgets, Run(budgets, s, calls), key, End(calls, start)) <=
            Level(budgets, s, key, start) + Allowance(budgets, calls, start, key)
  {
    var b := BudgetOf(budgets, key).value;
    if calls == [] {
      assert Gain(0, b) == 0.0;
    } else {
      var front, c := calls[..|calls| - 1], calls[|calls| - 1];
      var t := End(front, start);
      TimelyFront(calls, start);
      TokensConserved(budgets, s, front, start, key);
      RunKeepsBounds(budgets, s, front, start);
      AllowanceNext(budgets, front, c, calls, start, key);
      ConservedNext(budgets, Run(budgets, s, front), c, start, t, key, Passed(budgets, s, front, key),
                    Level(budgets, s, key, start) + (Resets(front, key) * b.burst) as real);
    }
  }

  /** Over any stretch of any run in which sweeps wait out the key's own budget, whatever was swept and reset before
      it, at most Burst + T/Refill attempts on a key pass, and one Burst more for each time the key is reset. */
  lemma RateBound(budgets: Budgets, before: seq<Call>, window: seq<Call>, origin: int, start: int, key: string)
    requires Timely(before, origin) && End(before, origin) <= start && Timely(window, start)
    requires Limited(budgets, key) && PatientWith(budgets, window, key)
    ensures Passed(budgets, Run(budgets, map[], before), window, key) as real <=
              BudgetOf(budgets, key).value.burst as real + Allowance(budgets, window, start, key)
  {
    var s := Run(budgets, map[], before);
    RunKeepsBounds(budgets, map[], before, origin);
    assert InBounds(budgets, s, start);
    TokensConserved(budgets, s, window, start, key);
    LevelLater(budgets, s, key, start, start);
    RunKeepsBounds(budgets, s, window, start);
    LevelLater(budgets, Run(budgets, s, window), key, End(window, start), End(window, start));
  }

  // ---------------------------------------------------------------- sweeping is unobservable

  /** No attempt at `t` could tell these two apart. */
  ghost predicate Alike(budgets: Budgets, a: Buckets, b: Buckets, t: int)
  {
    forall key | Limited(budgets, key) :: Level(budgets, a, key, t) == Level(budgets, b, key, t)
  }

  lemma AlikeLater(budgets: Budgets, a: Buckets, b: Buckets, t: int, u: int)
    requires InBounds(budgets, a, t) && InBounds(budgets, b, t) && t <= u && Alike(budgets, a, b, t)
    ensures Alike(budgets, a, b, u)
  {
    forall key | Limited(budgets, key) ensures Level(budgets, a, key, u) == Level(budgets, b, key, u) {
      LevelLater(budgets, a, key, t, u);
      LevelLater(budgets, b, key, t, u);
    }
  }

  /** One attempt's answer. */
  function Answer(budgets: Budgets, s: Buckets, keys: seq<string>, now: int): (r: (bool, int))
  {
    if Permits(budgets, s, keys, now) then (true, 0) else (false, LongestWait(budgets, s, keys, now))
  }

  lemma {:induction false} AlikeWait(budgets: Budgets, a: Buckets, b: Buckets, keys: seq<string>, now: int)
    requires Alike(budgets, a, b, now)
    ensures LongestWait(budgets, a, keys, now) == LongestWait(budgets, b, keys, now)
  {
    if keys != [] {
      AlikeWait(budgets, a, b, keys[..|keys| - 1], now);
    }
  }

  lemma AlikeAnswer(budgets: Budgets, a: Buckets, b: Buckets, keys: seq<string>, now: int)
    requires Alike(budgets, a, b, now)
    ensures Answer(budgets, a, keys, now) == Answer(budgets, b, keys, now)
    ensures Permits(budgets, a, keys, now) == Permits(budgets, b, keys, now)
  {
    AlikeWait(budgets, a, b, keys, now);
  }

  lemma AlikeAfterAttempt(budgets: Budgets, a: Buckets, b: Buckets, keys: seq<string>, t: int, now: int)
    requires InBounds(budgets, a, t) && InBounds(budgets, b, t) && t <= now && NoRepeats(keys)
             && Alike(budgets, a, b, now)
    ensures Alike(budgets, AllowState(budgets, a, keys, now), AllowState(budgets, b, keys, now), now)
  {
    AlikeAnswer(budgets, a, b, keys, now);
    forall key | Limited(budgets, key)
      ensures Level(budgets, AllowState(budgets, a, keys, now), key, now) ==
              Level(budgets, AllowState(budgets, b, keys, now), key, now)
    {
      AllowLevel(budgets, a, keys, t, now, key);
      AllowLevel(budgets, b, keys, t, now, key);
    }
  }

  lemma AlikeAfterSweep(budgets: Budgets, a: Buckets, b: Buckets, idle: int, t: int, now: int)
    requires InBounds(budgets, a, t) && t <= now && LongIdle(budgets, idle) && Alike(budgets, a, b, now)
    ensures Alike(budgets, Swept(a, now - idle), b, now)
  {
    forall key | Limited(budgets, key) ensures Level(budgets, Swept(a, now - idle), key, now) ==
           Level(budgets, b, key, now) {
      LongIdleWaitsOut(budgets, idle, key);
      SweepLevel(budgets, a, idle, t, now, key);
    }
  }

  /** The same calls without the sweeps. */
  function Unswept(calls: seq<Call>): (r: seq<Call>)
  {
    if calls == [] then []
    else
      var rest := Unswept(calls[..|calls| - 1]);
      if calls[|calls| - 1].Sweep? then rest else rest + [calls[|calls| - 1]]
  }

  function Answers(budgets: Budgets, s: Buckets, calls: seq<Call>): (r: seq<(bool, int)>)
  {
    if calls == [] then []
    else
      var front, c := calls[..|calls| - 1], calls[|calls| - 1];
      var rest := Answers(budgets, s, front);
      if c.Attempt? then rest + [Answer(budgets, Run(budgets, s, front), c.keys, c.now)] else rest
  }

  lemma RunNext(budgets: Budgets, s: Buckets, calls: seq<Call>, c: Call)
    ensures Run(budgets, s, calls + [c]) == Do(budgets, Run(budgets, s, calls), c)
    ensures c.Attempt? ==>
              Answers(budgets, s, calls + [c]) ==
              Answers(budgets, s, calls) + [Answer(budgets, Run(budgets, s, calls), c.keys, c.now)]
    ensures !c.Attempt? ==> Answers(budgets, s, calls + [c]) == Answers(budgets, s, calls)
  {
    assert (calls + [c])[..|calls|] == calls;
  }

  lemma AlikeAfterReset(budgets: Budgets, a: Buckets, b: Buckets, keys: seq<string>, now: int)
    requires Alike(budgets, a, b, now)
    ensures Alike(budgets, Forgotten(a, keys), Forgotten(b, keys), now)
  {
    forall key | Limited(budgets, key)
      ensures Level(budgets, Forgotten(a, keys), key, now) == Level(budgets, Forgotten(b, keys), key, now)
    {
      assert Level(budgets, a, key, now) == Level(budgets, b, key, now);
    }
  }

  /** One more call, on the swept side and, unless it is a sweep, on the other. */
  lemma AlikeAfterCall(budgets: Budgets, a: Buckets, b: Buckets, c: Call, t: int)
    requires InBounds(budgets, a, t) && InBounds(budgets, b, t) && t <= c.now && Alike(budgets, a, b, t)
    requires DistinctKeys(c) && (c.Sweep? ==> LongIdle(budgets, c.idle))
    ensures Alike(budgets, Do(budgets, a, c), if c.Sweep? then b else Do(budgets, b, c), c.now)
    ensures InBounds(budgets, if c.Sweep? then b else Do(budgets, b, c), c.now)
    ensures c.Attempt? ==> Answer(budgets, a, c.keys, c.now) == Answer(budgets, b, c.keys, c.now)
  {
    AlikeLater(budgets, a, b, t, c.now);
    DoKeepsBounds(budgets, b, c, t);
    match c
    case Attempt(keys, now) =>
      AlikeAnswer(budgets, a, b, keys, now);
      AlikeAfterAttempt(budgets, a, b, keys, t, now);
    case Reset(keys, now) => AlikeAfterReset(budgets, a, b, keys, now);
    case Sweep(idle, now) => AlikeAfterSweep(budgets, a, b, idle, t, now);
  }

  /** A limiter swept at arbitrary times answers every attempt exactly as one never swept, whatever is reset. */
  lemma {:induction false} SweepsAreUnobservable(budgets: Budgets, s: Buckets, calls: seq<Call>, start: int)
    requires InBounds(budgets, s, start) && Timely(calls, start) && Patient(budgets, calls)
    ensures Answers(budgets, s, calls) == Answers(budgets, s, Unswept(calls))
    ensures Alike(budgets, Run(budgets, s, calls), Run(budgets, s, Unswept(calls)), End(calls, start))
    ensures InBounds(budgets, Run(budgets, s, Unswept(calls)), End(calls, start))
  {
    if calls != [] {
      var front, c := calls[..|calls| - 1], calls[|calls| - 1];
      TimelyFront(calls, start);
      SweepsAreUnobservable(budgets, s, front, start);
      RunKeepsBounds(budgets, s, front, start);
      AlikeAfterCall(budgets, Run(budgets, s, front), Run(budgets, s, Unswept(front)), c, End(front, start));
      if !c.Sweep? {
        RunNext(budgets, s, Unswept(front), c);
      }
    }
  }

  // ---------------------------------------------------------------- exactly how idle is idle enough

  ghost predicate SweptAt(calls: seq<Call>, idle: int)
  {
    forall i | 0 <= i < |calls| :: calls[i].Sweep? ==> calls[i].idle == idle
  }

  /** No caller can ever tell a limiter swept at this idle time from one never swept. */
  ghost predicate Unobservable(budgets: Budgets, idle: int)
  {
    forall calls, start | Timely(calls, start) && SweptAt(calls, idle) ::
      Answers(budgets, map[], calls) == Answers(budgets, map[], Unswept(calls))
  }

  /** `n` attempts on one key, all at once. */
  function Volley(key: string, now: int, n: nat): (calls: seq<Call>)
    ensures |calls| == n && forall i | 0 <= i < n :: calls[i] == Attempt([key], now)
  {
    seq(n, i => Attempt([key], now))
  }

  lemma VolleyNext(key: string, now: int, n: nat)
    requires 0 < n
    ensures Volley(key, now, n) == Volley(key, now, n - 1) + [Attempt([key], now)]
  {
  }

  lemma PassedNext(budgets: Budgets, s: Buckets, calls: seq<Call>, c: Call, key: string)
    ensures Run(budgets, s, calls + [c]) == Do(budgets, Run(budgets, s, calls), c)
    ensures Passed(budgets, s, calls + [c], key) ==
            Passed(budgets, s, calls, key) + PaidBy(budgets, Run(budgets, s, calls), c, key)
  {
    assert (calls + [c])[..|calls|] == calls;
  }

  /** An attempt on one key that has a token takes it. */
  lemma OneMorePasses(budgets: Budgets, s: Buckets, key: string, now: int, left: int)
    requires InBounds(budgets, s, now) && Limited(budgets, key) && Level(budgets, s, key, now) == left as real
             && 1 <= left
    ensures var r := Do(budgets, s, Attempt([key], now));
            && PaidBy(budgets, s, Attempt([key], now), key) == 1 && InBounds(budgets, r, now)
            && Level(budgets, r, key, now) == (left - 1) as real && key in r && r[key].lastSeen == now
  {
    assert [key][0] == key;
    assert Permits(budgets, s, [key], now);
    AllowKeepsBounds(budgets, s, [key], now, now);
    AllowLevel(budgets, s, [key], now, now, key);
    AllowAt(budgets, s, [key], now, key);
  }

  /** A full bucket lets exactly its burst through at once. */
  lemma {:induction false} VolleyPasses(budgets: Budgets, s: Buckets, key: string, now: int, burst: nat, n: nat)
    requires InBounds(budgets, s, now) && Limited(budgets, key)
    requires Level(budgets, s, key, now) == burst as real && n <= burst
    ensures var r := Run(budgets, s, Volley(key, now, n));
            && InBounds(budgets, r, now) && Passed(budgets, s, Volley(key, now, n), key) == n
            && Level(budgets, r, key, now) == (burst - n) as real
            && (0 < n ==> key in r && r[key].lastSeen == now)
  {
    if n > 0 {
      VolleyPasses(budgets, s, key, now, burst, n - 1);
      VolleyNext(key, now, n);
      PassedNext(budgets, s, Volley(key, now, n - 1), Attempt([key], now), key);
      OneMorePasses(budgets, Run(budgets, s, Volley(key, now, n - 1)), key, now, burst - n + 1);
    }
  }

  lemma {:induction false} RunAppends(budgets: Budgets, s: Buckets, a: seq<Call>, b: seq<Call>)
    ensures Run(budgets, s, a + b) == Run(budgets, Run(budgets, s, a), b)
  {
    if b == [] {
      assert a + b == a;
    } else {
      RunAppends(budgets, s, a, b[..|b| - 1]);
      assert (a + b)[..|a + b| - 1] == a + b[..|b| - 1];
    }
  }

  lemma {:induction false} PassedAppends(budgets: Budgets, s: Buckets, a: seq<Call>, b: seq<Call>, key: string)
    ensures Passed(budgets, s, a + b, key) == Passed(budgets, s, a, key) + Passed(budgets, Run(budgets, s, a), b, key)
  {
    if b == [] {
      assert a + b == a;
    } else {
      var front := b[..|b| - 1];
      PassedAppends(budgets, s, a, front, key);
      RunAppends(budgets, s, a, front);
      assert (a + b)[..|a + b| - 1] == a + front;
    }
  }

  /** Attempts on one key only, and sweeps. */
  ghost predicate OnlyOn(calls: seq<Call>, key: string)
  {
    forall i | 0 <= i < |calls| :: !calls[i].Reset? && (calls[i].Attempt? ==> calls[i].keys == [key])
  }

  function Yeses(answers: seq<(bool, int)>): (n: nat)
  {
    if answers == [] then 0 else Yeses(answers[..|answers| - 1]) + (if answers[|answers| - 1].0 then 1 else 0)
  }

  /** What a caller on one key sees is how many passed. */
  lemma {:induction false} PassedIsSeen(budgets: Budgets, s: Buckets, calls: seq<Call>, key: string)
    requires OnlyOn(calls, key)
    ensures Passed(budgets, s, calls, key) == Yeses(Answers(budgets, s, calls))
  {
    if calls != [] {
      var front, c := calls[..|calls| - 1], calls[|calls| - 1];
      PassedIsSeen(budgets, s, front, key);
      if c.Attempt? {
        var answer := Answer(budgets, Run(budgets, s, front), c.keys, c.now);
        var rest := Answers(budgets, s, front);
        assert (rest + [answer])[..|rest|] == rest;
        assert key in [key];
      }
    }
  }

  lemma {:induction false} UnsweptVolley(calls: seq<Call>, key: string, now: int, n: nat)
    ensures Unswept(calls + Volley(key, now, n)) == Unswept(calls) + Volley(key, now, n)
  {
    if n == 0 {
      assert calls + Volley(key, now, n) == calls;
    } else {
      VolleyNext(key, now, n);
      var all := calls + Volley(key, now, n);
      assert all[..|all| - 1] == calls + Volley(key, now, n - 1) && all[|all| - 1] == Attempt([key], now);
      UnsweptVolley(calls, key, now, n - 1);
    }
  }

  /** Use a budget up, let it be swept, and use it up again. */
  function Probe(key: string, burst: nat, idle: int): (calls: seq<Call>)
  {
    Volley(key, 0, burst) + [Sweep(idle, Max(0, idle + 1))] + Volley(key, Max(0, idle + 1), burst)
  }

  lemma TimelyAppends(a: seq<Call>, b: seq<Call>, start: int, mid: int)
    requires start <= mid && Timely(a, start) && Timely(b, mid) && forall i | 0 <= i < |a| :: a[i].now <= mid
    ensures Timely(a + b, start)
  {
  }

  lemma VolleysAreTimely(key: string, burst: nat, t: int)
    requires 0 <= t
    ensures Timely(Volley(key, 0, burst), 0) && Timely(Volley(key, t, burst), t)
    ensures Timely(Volley(key, 0, burst) + Volley(key, t, burst), 0)
  {
    TimelyAppends(Volley(key, 0, burst), Volley(key, t, burst), 0, t);
  }

  lemma ProbeIsTimely(key: string, burst: nat, idle: int)
    ensures Timely(Probe(key, burst, idle), 0)
  {
    var t := Max(0, idle + 1);
    VolleysAreTimely(key, burst, t);
    TimelyAppends(Volley(key, 0, burst), [Sweep(idle, t)], 0, t);
    TimelyAppends(Volley(key, 0, burst) + [Sweep(idle, t)], Volley(key, t, burst), 0, t);
  }

  lemma ProbeSweepsOnce(key: string, burst: nat, idle: int)
    ensures SweptAt(Probe(key, burst, idle), idle) && OnlyOn(Probe(key, burst, idle), key)
  {
  }

  lemma UnsweptProbe(key: string, burst: nat, idle: int)
    ensures Unswept(Probe(key, burst, idle)) == Volley(key, 0, burst) + Volley(key, Max(0, idle + 1), burst)
  {
    var t, first := Max(0, idle + 1), Volley(key, 0, burst);
    UnsweptVolley(first + [Sweep(idle, t)], key, t, burst);
    assert (first + [Sweep(idle, t)])[..|first|] == first;
    UnsweptVolley([], key, 0, burst);
    assert [] + first == first;
  }

  /** Swept, the bucket is full again: every attempt passes. */
  lemma SweptProbePasses(budgets: Budgets, key: string, idle: int)
    requires Limited(budgets, key)
    ensures var burst := BudgetOf(budgets, key).value.burst;
            Passed(budgets, map[], Probe(key, burst, idle), key) == 2 * burst
  {
    var burst, t := BudgetOf(budgets, key).value.burst, Max(0, idle + 1);
    var first, sweep := Volley(key, 0, burst), Sweep(idle, t);
    VolleyPasses(budgets, map[], key, 0, burst, burst);
    PassedNext(budgets, map[], first, sweep, key);
    var swept := Run(budgets, map[], first + [sweep]);
    assert key !in swept && InBounds(budgets, swept, t);
    VolleyPasses(budgets, swept, key, t, burst, burst);
    PassedAppends(budgets, map[], first + [sweep], Volley(key, t, burst), key);
  }

  lemma GainShort(elapsed: int, b: Budget)
    requires 0 < b.refill && elapsed < FillTime(b)
    ensures Gain(elapsed, b) < b.burst as real
  {
    var slack := (b.burst * b.refill - elapsed) as real;
    assert Gain(b.burst * b.refill, b) == (b.burst as real * b.refill as real) / b.refill as real == b.burst as real;
    GainAdds(elapsed, b.burst * b.refill - elapsed, b);
    assert slack / b.refill as real > 0.0;
  }

  lemma VolleysAreAttempts(key: string, burst: nat, t: int)
    requires 0 < burst
    ensures var calls := Volley(key, 0, burst) + Volley(key, t, burst);
            End(calls, 0) == t && forall i | 0 <= i < |calls| :: calls[i].Attempt?
  {
  }

  lemma {:induction false} NoResets(calls: seq<Call>, key: string)
    requires forall i | 0 <= i < |calls| :: !calls[i].Reset?
    ensures Resets(calls, key) == 0
  {
    if calls != [] {
      NoResets(calls[..|calls| - 1], key);
    }
  }

  lemma AttemptsAreBounded(budgets: Budgets, calls: seq<Call>, end: int, key: string)
    requires Limited(budgets, key) && Timely(calls, 0) && End(calls, 0) == end
    requires forall i | 0 <= i < |calls| :: calls[i].Attempt?
    ensures var b := BudgetOf(budgets, key).value;
            Passed(budgets, map[], calls, key) as real <= b.burst as real + Gain(end, b)
  {
    assert Run(budgets, map[], []) == map[];
    NoResets(calls, key);
    RateBound(budgets, [], calls, 0, 0, key);
  }

  lemma TwoVolleysBounded(budgets: Budgets, key: string, t: int)
    requires Limited(budgets, key) && 0 <= t
    ensures var b := BudgetOf(budgets, key).value;
            Passed(budgets, map[], Volley(key, 0, b.burst) + Volley(key, t, b.burst), key) as real <=
              b.burst as real + Gain(t, b)
  {
    var b := BudgetOf(budgets, key).value;
    var calls := Volley(key, 0, b.burst) + Volley(key, t, b.burst);
    VolleysAreTimely(key, b.burst, t);
    VolleysAreAttempts(key, b.burst, t);
    AttemptsAreBounded(budgets, calls, t, key);
  }

  lemma LessThanTwice(passed: nat, burst: int, gain: real)
    requires passed as real <= burst as real + gain && gain < burst as real
    ensures passed < 2 * burst
  {
  }

  /** Not swept, it is not: some attempt is refused. */
  lemma UnsweptProbeFails(budgets: Budgets, key: string, idle: int)
    requires Limited(budgets, key)
    requires idle + 1 < FillTime(BudgetOf(budgets, key).value)
    ensures var burst := BudgetOf(budgets, key).value.burst;
            Passed(budgets, map[], Unswept(Probe(key, burst, idle)), key) < 2 * burst
  {
    var b, t := BudgetOf(budgets, key).value, Max(0, idle + 1);
    UnsweptProbe(key, b.burst, idle);
    TwoVolleysBounded(budgets, key, t);
    GainShort(t, b);
    LessThanTwice(Passed(budgets, map[], Unswept(Probe(key, b.burst, idle)), key), b.burst, Gain(t, b));
  }

  lemma UnsweptIsOnlyOn(key: string, burst: nat, idle: int)
    ensures OnlyOn(Unswept(Probe(key, burst, idle)), key)
  {
    UnsweptProbe(key, burst, idle);
  }

  lemma ProbeIsSeen(budgets: Budgets, idle: int, key: string, burst: nat)
    requires Limited(budgets, key) && burst == BudgetOf(budgets, key).value.burst
    requires idle + 1 < FillTime(BudgetOf(budgets, key).value)
    ensures Answers(budgets, map[], Probe(key, burst, idle)) !=
            Answers(budgets, map[], Unswept(Probe(key, burst, idle)))
  {
    SweptProbePasses(budgets, key, idle);
    UnsweptProbeFails(budgets, key, idle);
    ProbeSweepsOnce(key, burst, idle);
    PassedIsSeen(budgets, map[], Probe(key, burst, idle), key);
    UnsweptIsOnlyOn(key, burst, idle);
    PassedIsSeen(budgets, map[], Unswept(Probe(key, burst, idle)), key);
  }

  /** A sweep that does not wait out some usable budget changes what a caller is told. */
  lemma ShortSweepIsSeen(budgets: Budgets, idle: int, prefix: string)
    requires prefix in budgets && Usable(prefix, budgets[prefix])
    requires idle + 1 < FillTime(budgets[prefix])
    ensures var calls := Probe(LoginKey(prefix, ""), budgets[prefix].burst, idle);
            && Timely(calls, 0) && SweptAt(calls, idle)
            && Answers(budgets, map[], calls) != Answers(budgets, map[], Unswept(calls))
  {
    var key := LoginKey(prefix, "");
    PrefixOfLoginKey(prefix, "");
    ProbeIsTimely(key, budgets[prefix].burst, idle);
    ProbeSweepsOnce(key, budgets[prefix].burst, idle);
    ProbeIsSeen(budgets, idle, key, budgets[prefix].burst);
  }

  /** Sweeping at an idle time is unobservable in every run if and only if that time waits out every usable
      budget: burst times refill, less the one nanosecond a swept bucket has been idle beyond it. */
  lemma SweepsUnobservableExactly(budgets: Budgets, idle: int)
    ensures Unobservable(budgets, idle) <==> LongIdle(budgets, idle)
  {
    if LongIdle(budgets, idle) {
      forall calls, start | Timely(calls, start) && SweptAt(calls, idle)
        ensures Answers(budgets, map[], calls) == Answers(budgets, map[], Unswept(calls))
      {
        SweepsAreUnobservable(budgets, map[], calls, start);
      }
    } else {
      var prefix :| prefix in budgets && Usable(prefix, budgets[prefix])
                    && idle + 1 < FillTime(budgets[prefix]);
      ShortSweepIsSeen(budgets, idle, prefix);
    }
  }

  /** The promised rate, over every run swept at this idle time. */
  ghost predicate RateHolds(budgets: Budgets, idle: int, key: string)
    requires Limited(budgets, key)
  {
    forall calls, start | Timely(calls, start) && SweptAt(calls, idle) ::
      Passed(budgets, map[], calls, key) as real <=
        BudgetOf(budgets, key).value.burst as real + Allowance(budgets, calls, start, key)
  }

  lemma TwiceTooMany(passed: nat, burst: int, gain: real)
    requires passed == 2 * burst && gain < burst as real
    ensures !(passed as real <= burst as real + gain)
  {
  }

  /** A sweep that does not wait a budget out lets twice its burst through in less than the time for one. */
  lemma ShortSweepBreaksRate(budgets: Budgets, idle: int, key: string)
    requires Limited(budgets, key) && !WaitsOut(budgets, idle, key)
    ensures !RateHolds(budgets, idle, key)
  {
    var b := BudgetOf(budgets, key).value;
    var calls, t := Probe(key, b.burst, idle), Max(0, idle + 1);
    ProbeIsTimely(key, b.burst, idle);
    ProbeSweepsOnce(key, b.burst, idle);
    NoResets(calls, key);
    SweptProbePasses(budgets, key, idle);
    GainShort(t, b);
    assert End(calls, 0) == t;
    TwiceTooMany(Passed(budgets, map[], calls, key), b.burst, Allowance(budgets, calls, 0, key));
  }

  /** The rate holds in every run swept at an idle time if and only if that time waits out the key's budget. */
  lemma RateHoldsExactly(budgets: Budgets, idle: int, key: string)
    requires Limited(budgets, key)
    ensures RateHolds(budgets, idle, key) <==> WaitsOut(budgets, idle, key)
  {
    if WaitsOut(budgets, idle, key) {
      forall calls, start | Timely(calls, start) && SweptAt(calls, idle)
        ensures Passed(budgets, map[], calls, key) as real <=
                BudgetOf(budgets, key).value.burst as real + Allowance(budgets, calls, start, key)
      {
        assert Run(budgets, map[], []) == map[];
        RateBound(budgets, [], calls, start, start, key);
      }
    } else {
      ShortSweepBreaksRate(budgets, idle, key);
    }
  }

  const DEFAULT_BUDGETS: Budgets := map["user" := Budget(5, 12 * SECOND), "addr" := Budget(20, 3 * SECOND)]

  /** With the budgets the server ships, its hourly idle time makes sweeping unobservable. */
  lemma HourIsLongIdle()
    ensures Unobservable(DEFAULT_BUDGETS, 3600 * SECOND)
  {
    assert LongIdle(DEFAULT_BUDGETS, 3600 * SECOND);
    SweepsUnobservableExactly(DEFAULT_BUDGETS, 3600 * SECOND);
  }

  // ---------------------------------------------------------------- Retry-After

  /** The header: whole seconds, rounded past the wait. */
  function RetryAfter(wait: int): (seconds: int)
    requires 0 <= wait
    ensures (seconds - 1) * SECOND <= wait < seconds * SECOND
  {
    wait / SECOND + 1
  }

  /** Nobody was let through on any of these keys. */
  ghost predicate Undrained(budgets: Budgets, s: Buckets, calls: seq<Call>, keys: seq<string>)
  {
    forall key | key in keys :: Passed(budgets, s, calls, key) == 0
  }

  lemma LevelAgain(budgets: Budgets, s: Buckets, key: string, start: int, t: int, u: int)
    requires InBounds(budgets, s, start) && Limited(budgets, key) && start <= t <= u
    ensures var b := BudgetOf(budgets, key).value;
            Level(budgets, s, key, u) == Cap(Level(budgets, s, key, t) + Gain(u - t, b), b)
  {
    assert InBounds(budgets, s, t);
    LevelLater(budgets, s, key, t, u);
  }

  /** A call that lets nobody through on a key costs it nothing; a reset or a sweep may even fill it. */
  lemma CallSpares(budgets: Budgets, s: Buckets, c: Call, clock: int, key: string)
    requires InBounds(budgets, s, clock) && DistinctKeys(c) && clock <= c.now && Limited(budgets, key)
    requires PaidBy(budgets, s, c, key) == 0
    ensures Level(budgets, s, key, c.now) <= Level(budgets, Do(budgets, s, c), key, c.now)
  {
    match c
    case Attempt(keys, now) => AllowLevel(budgets, s, keys, clock, now, key);
    case Reset(keys, now) => LevelBounded(budgets, s, key, now);
    case Sweep(idle, now) => SweepRaises(budgets, s, now - idle, now, key);
  }

  /** One level at least as high as another stays so. */
  lemma HigherStays(budgets: Budgets, low: Buckets, high: Buckets, key: string, start: int, t: int, u: int)
    requires InBounds(budgets, low, start) && InBounds(budgets, high, t) && Limited(budgets, key) && start <= t <= u
    requires Level(budgets, low, key, t) <= Level(budgets, high, key, t)
    ensures Level(budgets, low, key, u) <= Level(budgets, high, key, u)
  {
    LevelAgain(budgets, low, key, start, t, u);
    LevelLater(budgets, high, key, t, u);
  }

  /** A key nobody gets through on refills at least as it would have, whatever else is attempted, reset or swept. */
  lemma {:induction false} LeftAlone(budgets: Budgets, s: Buckets, calls: seq<Call>, start: int, key: string)
    requires InBounds(budgets, s, start) && Timely(calls, start) && Limited(budgets, key)
    requires Passed(budgets, s, calls, key) == 0
    ensures Level(budgets, s, key, End(calls, start)) <= Level(budgets, Run(budgets, s, calls), key, End(calls, start))
  {
    if calls != [] {
      var front, c := calls[..|calls| - 1], calls[|calls| - 1];
      var mid, t := Run(budgets, s, front), End(front, start);
      TimelyFront(calls, start);
      LeftAlone(budgets, s, front, start, key);
      RunKeepsBounds(budgets, s, front, start);
      HigherStays(budgets, s, mid, key, start, t, c.now);
      CallSpares(budgets, mid, c, t, key);
    }
  }

  lemma {:induction false} WaitCovers(budgets: Budgets, s: Buckets, keys: seq<string>, now: int, key: string)
    requires key in keys
    ensures WaitOn(budgets, s, key, now) <= LongestWait(budgets, s, keys, now)
  {
    if key != keys[|keys| - 1] {
      assert keys == keys[..|keys| - 1] + [keys[|keys| - 1]];
      WaitCovers(budgets, s, keys[..|keys| - 1], now, key);
    }
  }

  lemma EnoughElapsed(tokens: real, b: Budget, elapsed: int)
    requires 1 <= b.burst && 0 < b.refill && 0 <= elapsed && WaitFor(tokens, b) < elapsed
    ensures Cap(tokens + Gain(elapsed, b), b) >= 1.0
  {
    if tokens < 1.0 {
      GainCovers(1.0 - tokens, elapsed, b);
    } else {
      GainGrows(0, elapsed, b);
      assert Gain(0, b) == 0.0;
    }
  }

  /** Waiting past the longest wait refills any one key that refused. */
  lemma WaitingRefills(budgets: Budgets, s: Buckets, keys: seq<string>, clock: int, now: int, later: int, key: string)
    requires InBounds(budgets, s, clock) && clock <= now && key in keys && Limited(budgets, key)
    requires now + LongestWait(budgets, s, keys, now) < later
    ensures Level(budgets, s, key, later) >= 1.0
  {
    WaitCovers(budgets, s, keys, now, key);
    LevelAgain(budgets, s, key, clock, now, later);
    EnoughElapsed(Level(budgets, s, key, now), BudgetOf(budgets, key).value, later - now);
  }

  lemma {:induction false} SomeWaitIsLongest(budgets: Budgets, s: Buckets, keys: seq<string>, now: int)
    requires LongestWait(budgets, s, keys, now) > 0
    ensures exists i | 0 <= i < |keys| :: WaitOn(budgets, s, keys[i], now) == LongestWait(budgets, s, keys, now)
  {
    var front, last := keys[..|keys| - 1], keys[|keys| - 1];
    if WaitOn(budgets, s, last, now) < LongestWait(budgets, s, front, now) {
      SomeWaitIsLongest(budgets, s, front, now);
      var i :| 0 <= i < |front| && WaitOn(budgets, s, front[i], now) == LongestWait(budgets, s, front, now);
      assert keys[i] == front[i];
    } else {
      assert keys[|keys| - 1] == last;
    }
  }

  lemma GainFallsShort(missing: real, elapsed: int, b: Budget)
    requires 0 < b.refill && elapsed < (missing * b.refill as real).Floor
    ensures Gain(elapsed, b) < missing
  {
    var slack := missing * b.refill as real - elapsed as real;
    assert slack > 0.0;
    assert missing == (missing * b.refill as real) / b.refill as real;
    assert slack / b.refill as real > 0.0;
  }

  lemma TooEarly(tokens: real, b: Budget, elapsed: int)
    requires 1 <= b.burst && 0 < b.refill && 0 <= elapsed < WaitFor(tokens, b)
    ensures Cap(tokens + Gain(elapsed, b), b) < 1.0
  {
    GainFallsShort(1.0 - tokens, elapsed, b);
  }

  /** The wait a refused caller is told is needed: nobody is let in on those keys before it is over, unless one of them
      is reset or swept away. */
  lemma WaitIsNeeded(budgets: Budgets, s: Buckets, keys: seq<string>, clock: int, now: int, sooner: int)
    requires InBounds(budgets, s, clock) && clock <= now && NoRepeats(keys) && !Permits(budgets, s, keys, now)
    requires now <= sooner < now + Answer(budgets, s, keys, now).1
    ensures !Permits(budgets, AllowState(budgets, s, keys, now), keys, sooner)
  {
    SomeWaitIsLongest(budgets, s, keys, now);
    var i :| 0 <= i < |keys| && WaitOn(budgets, s, keys[i], now) == LongestWait(budgets, s, keys, now);
    var b := BudgetOf(budgets, keys[i]).value;
    TooEarly(Level(budgets, s, keys[i], now), b, sooner - now);
    LevelAgain(budgets, s, keys[i], clock, now, sooner);
    RefusalSpendsNothing(budgets, s, keys, clock, now, keys[i], sooner);
  }

  /** Whoever waits as long as they were told is let in, if nobody else was let through on those keys meanwhile:
      whatever else was attempted, refused, reset or swept in between. */
  lemma WaitingIsEnough(budgets: Budgets, s: Buckets, keys: seq<string>, clock: int, now: int, between: seq<Call>,
                        later: int)
    requires InBounds(budgets, s, clock) && clock <= now && NoRepeats(keys) && !Permits(budgets, s, keys, now)
    requires Timely(between, now) && End(between, now) <= later
    requires Undrained(budgets, AllowState(budgets, s, keys, now), between, keys)
    requires now + RetryAfter(Answer(budgets, s, keys, now).1) * SECOND <= later
    ensures Permits(budgets, Run(budgets, AllowState(budgets, s, keys, now), between), keys, later)
  {
    var refused := AllowState(budgets, s, keys, now);
    var end := Run(budgets, refused, between);
    AllowKeepsBounds(budgets, s, keys, clock, now);
    RunKeepsBounds(budgets, refused, between, now);
    forall i | 0 <= i < |keys| && Limited(budgets, keys[i]) ensures Level(budgets, end, keys[i], later) >= 1.0 {
      var t := End(between, now);
      assert now <= t;
      LeftAlone(budgets, refused, between, now, keys[i]);
      HigherStays(budgets, refused, end, keys[i], now, t, later);
      RefusalSpendsNothing(budgets, s, keys, clock, now, keys[i], later);
      WaitingRefills(budgets, s, keys, clock, now, later, keys[i]);
    }
  }
}
