/**
 * When the bolt acknowledges what it may lose: a writer pushed out of the cache, a close that fails. One
 * call is safe if and only if it does neither to a pending tuple; runs of safe calls are safe, and runs
 * from the start that are not.
 */
module BoltLosses {
  import opened BoltRuns

  /** Fetching a writer keeps both maps on the same keys exactly when none is pushed out. */
  lemma SameKeysIff(c: Config, s: Bolt, t: Tuple, key: string, env: Env)
    requires env.created
    requires OneWriterPerKey(s.writers) && s.ttl == Keys(s.writers) && |s.writers| <= c.maxOpenFiles
    ensures var s1 := Accept(c, s, t, key, env);
            Keys(s1.writers) == s1.ttl <==> (Find(s.writers, key) < |s.writers| || |s.writers| < c.maxOpenFiles)
  {
    if Find(s.writers, key) < |s.writers| || |s.writers| < c.maxOpenFiles {
      GetOrCreateWriters(s.writers, key, c.maxOpenFiles);
      WriteLastWriters(GetOrCreate(s.writers, key, c.maxOpenFiles), t);
      if Find(s.writers, key) < |s.writers| { assert s.writers[Find(s.writers, key)] in s.writers; }
    } else {
      var ws := GetOrCreate(s.writers, key, c.maxOpenFiles);
      assert ws == (s.writers + [Writer(key, [])])[1..];
      if s.writers == [] {
        assert ws == [] && key !in Keys(ws);
      } else {
        var lost := s.writers[0].key;
        assert s.writers[0] in s.writers && lost in s.ttl;
        assert forall w :: w in ws ==> w.key != lost;
        assert forall w :: w in WriteLast(ws, t) ==> w.key != lost;
        assert lost !in Keys(ws);
      }
    }
  }

  lemma {:induction false} EvictedWriters(ws: seq<Writer>, t: Tuple, key: string)
    requires ws != [] && Find(ws, key) == |ws|
    ensures GetOrCreate(ws, key, |ws|) == ws[1..] + [Writer(key, [])]
    ensures WriteLast(GetOrCreate(ws, key, |ws|), t) == ws[1..] + [Writer(key, [t])]
  {
    assert GetOrCreate(ws, key, |ws|) == ws[1..] + [Writer(key, [])];
    var none: seq<Tuple> := [];
    assert none + [t] == [t];
  }

  /** Nothing was ever done with the tuple: a tuple stands for one delivery. */
  ghost predicate Fresh(s: Bolt, t: Tuple) {
    t !in s.batch && t !in s.durable && !InCache(s.writers, t)
  }

  /** Some pending tuple lives in the eldest writer alone. */
  ghost predicate EldestNeeded(s: Bolt) {
    s.writers != [] && exists u :: u in s.batch && u !in s.durable && !InCache(s.writers[1..], u)
  }

  /** A new writer comes in and pushes the eldest out, which a pending tuple needs. */
  ghost predicate PushesOut(c: Config, s: Bolt, key: string, env: Env) {
    env.created && Find(s.writers, key) == |s.writers| >= c.maxOpenFiles && EldestNeeded(s)
  }

  lemma InCacheAppend(ws: seq<Writer>, w: Writer, u: Tuple)
    ensures InCache(ws + [w], u) <==> InCache(ws, u) || u in w.unsynced
  {
    assert w in ws + [w];
    assert forall v :: v in ws + [w] <==> v in ws || v == w;
  }

  lemma EldestGone(ws: seq<Writer>, w: Writer)
    requires ws != [] && OneWriterPerKey(ws) && Find(ws, w.key) == |ws|
    ensures OneWriterPerKey(ws[1..] + [w])
  {
  }

  /** The writers after a push-out, and what they hold. */
  lemma PushedOut(c: Config, s: Bolt, t: Tuple, key: string, env: Env)
    requires env.created && Find(s.writers, key) == |s.writers| == c.maxOpenFiles > 0
    ensures var w := Writer(key, if env.written then [t] else []);
            Accept(c, s, t, key, env).writers == s.writers[1..] + [w]
    ensures forall u :: InCache(Accept(c, s, t, key, env).writers, u) <==>
                          InCache(s.writers[1..], u) || (env.written && u == t)
  {
    var w := Writer(key, if env.written then [t] else []);
    EvictedWriters(s.writers, t, key);
    forall u ensures InCache(s.writers[1..] + [w], u) <==> InCache(s.writers[1..], u) || (env.written && u == t) {
      InCacheAppend(s.writers[1..], w, u);
    }
  }

  /** Taking a tuple in keeps every pending tuple covered iff it does not push out a writer one of them needs. */
  lemma AcceptSafeIff(c: Config, s: Bolt, t: Tuple, key: string, env: Env)
    requires Safe(s) && t !in s.batch && |s.writers| <= c.maxOpenFiles && c.maxOpenFiles > 0
    ensures var s1 := Accept(c, s, t, key, env);
            && OneWriterPerKey(s1.writers) && |s1.writers| <= c.maxOpenFiles
            && s1.acked == s.acked && s1.durable == s.durable
            && (Covered(s1) <==> !PushesOut(c, s, key, env))
  {
    if env.created && Find(s.writers, key) == |s.writers| == c.maxOpenFiles {
      PushedOut(c, s, t, key, env);
      EldestGone(s.writers, Writer(key, if env.written then [t] else []));
    } else {
      AcceptCovers(c, s, t, key, env);
    }
  }

  /** The key's writer alone holds some pending tuple. */
  ghost predicate Needed(s: Bolt, key: string) {
    exists u :: u in s.batch && u !in s.durable && !InCache(Without(s.writers, key), u)
  }

  /** Dropping a writer is safe iff its close succeeds or no pending tuple depends on it. */
  lemma RotateSafeIff(s: Bolt, key: string, closed: bool)
    requires Safe(s)
    ensures Safe(Rotate(s, key, closed)) <==> closed || !Needed(s, key)
  {
    WithoutWriters(s.writers, key);
    if closed { RotateKeeps(s, key); }
  }

  /** No attempt reaches all of `n` writers. */
  predicate SyncFails(n: nat, reach: seq<nat>, retries: nat)
    decreases retries
  {
    retries == 0
    || ((if reach == [] then 0 else reach[0]) < n && SyncFails(n, if reach == [] then [] else reach[1..], retries - 1))
  }

  /** What no writer holds is not made durable; it is acknowledged all the same if the sync succeeds. */
  lemma {:induction false} SyncOutcome(s: Bolt, reach: seq<nat>, retries: nat)
    ensures var (s1, fails) := (SyncBatch(s, reach, retries), SyncFails(|s.writers|, reach, retries));
            && s1.dead == (s.dead || fails) && s1.batch == []
            && s1.acked == (if fails then s.acked else s.acked + multiset(s.batch))
            && (forall t :: t in s.durable ==> t in s1.durable)
            && (forall t :: t in s1.durable ==> t in s.durable || InCache(s.writers, t))
    decreases retries
  {
    if retries > 0 {
      var n := if reach == [] then 0 else reach[0];
      SyncKeepsKeys(s.writers, n);
      if n < |s.writers| {
        var s1 := s.(writers := SyncFirst(s.writers, n), durable := s.durable + Reached(s.writers, n));
        SyncOutcome(s1, if reach == [] then [] else reach[1..], retries - 1);
        forall t | InCache(s1.writers, t) ensures InCache(s.writers, t) {
          var i :| 0 <= i < |s.writers| && t in s1.writers[i].unsynced;
          assert s.writers[i] in s.writers;
        }
      }
    }
  }

  /** A sync that begins with an uncovered pending tuple ends safely iff it fails. */
  lemma SyncSafeIff(s: Bolt, reach: seq<nat>, retries: nat)
    requires OneWriterPerKey(s.writers) && AckedDurable(s)
    ensures Safe(SyncBatch(s, reach, retries)) <==> Covered(s) || SyncFails(|s.writers|, reach, retries)
  {
    var s1 := SyncBatch(s, reach, retries);
    SyncOutcome(s, reach, retries);
    SyncWriters(s, reach, retries);
    if Covered(s) {
      SyncKeeps(s, reach, retries);
    } else if !SyncFails(|s.writers|, reach, retries) {
      var u :| u in s.batch && u !in s.durable && !InCache(s.writers, u);
      assert u in s1.acked && u !in s1.durable;
    }
  }

  /** A tuple that was acknowledged, or is about to be, and can no longer become durable. */
  ghost predicate Lost(s: Bolt) {
    exists u :: (u in s.acked || u in s.batch) && u !in s.durable && !InCache(s.writers, u)
  }

  lemma LostIsUnsafe(s: Bolt)
    ensures !Covered(s) ==> Lost(s)
    ensures Lost(s) ==> !Safe(s)
  {
  }

  lemma RotateLoses(s: Bolt, key: string, closed: bool)
    requires Lost(s) && OneWriterPerKey(s.writers)
    ensures Lost(Rotate(s, key, closed))
  {
    var u :| (u in s.acked || u in s.batch) && u !in s.durable && !InCache(s.writers, u);
    var (i, s1) := (Find(s.writers, key), Rotate(s, key, closed));
    WithoutWriters(s.writers, key);
    assert i < |s.writers| ==> s.writers[i] in s.writers;
    assert !InCache(s1.writers, u) && u !in s1.durable && (u in s1.acked || u in s1.batch);
  }

  lemma SyncLoses(s: Bolt, reach: seq<nat>, retries: nat)
    requires !Covered(s) && !SyncFails(|s.writers|, reach, retries)
    ensures Lost(SyncBatch(s, reach, retries))
  {
    var u :| u in s.batch && u !in s.durable && !InCache(s.writers, u);
    var s1 := SyncBatch(s, reach, retries);
    SyncOutcome(s, reach, retries);
    SyncUncaches(s, reach, retries, u);
    assert u in s1.acked && u !in s1.durable && !InCache(s1.writers, u);
  }

  lemma PassUncaches(ws: seq<Writer>, n: nat, u: Tuple)
    requires !InCache(ws, u)
    ensures !InCache(SyncFirst(ws, n), u)
  {
    SyncKeepsKeys(ws, n);
    forall i | 0 <= i < |ws| ensures u !in SyncFirst(ws, n)[i].unsynced {
      assert ws[i] in ws;
    }
  }

  lemma {:induction false} SyncUncaches(s: Bolt, reach: seq<nat>, retries: nat, u: Tuple)
    requires !InCache(s.writers, u)
    ensures !InCache(SyncBatch(s, reach, retries).writers, u)
    decreases retries
  {
    if retries > 0 {
      var n := if reach == [] then 0 else reach[0];
      PassUncaches(s.writers, n, u);
      if n < |s.writers| {
        var s1 := s.(writers := SyncFirst(s.writers, n), durable := s.durable + Reached(s.writers, n));
        SyncUncaches(s1, if reach == [] then [] else reach[1..], retries - 1, u);
      }
    }
  }

  lemma OtherFetched(ws: seq<Writer>, key: string, max: nat)
    requires OneWriterPerKey(ws) && |ws| <= max && max > 0
    ensures var vs := GetOrCreate(ws, key, max);
            vs != [] && vs[|vs| - 1].key == key && forall w :: w in vs && w.key != key ==> w in ws
  {
    WithoutWriters(ws, key);
  }

  lemma OtherWriters(ws: seq<Writer>, t: Tuple, key: string, max: nat)
    requires OneWriterPerKey(ws) && |ws| <= max && max > 0
    ensures forall w :: w in GetOrCreate(ws, key, max) && w.key != key ==> w in ws
    ensures forall w :: w in WriteLast(GetOrCreate(ws, key, max), t) && w.key != key ==> w in ws
  {
    var vs := GetOrCreate(ws, key, max);
    OtherFetched(ws, key, max);
    var us := WriteLast(vs, t);
    forall w | w in us && w.key != key ensures w in ws {
      var j :| 0 <= j < |us| && us[j] == w;
      assert us[j] == vs[j] && vs[j] in vs;
    }
  }

  /** Before a sync, a pending tuple of this call lives in its own writer alone. */
  lemma JustWritten(c: Config, s: Bolt, t: Tuple, key: string, env: Env)
    requires Safe(s) && Fresh(s, t) && |s.writers| <= c.maxOpenFiles && c.maxOpenFiles > 0
    requires !NoWriter(s, Data(t, key), env) && OneWriterPerKey(Accept(c, s, t, key, env).writers)
    ensures env.written ==> Needed(Accept(c, s, t, key, env), key)
  {
    var s1 := Accept(c, s, t, key, env);
    OtherWriters(s.writers, t, key, c.maxOpenFiles);
    WithoutWriters(s1.writers, key);
    if env.written {
      assert t in s1.batch && t !in s1.durable && !InCache(Without(s1.writers, key), t);
    }
  }

  /** The call pushes out a writer a pending tuple needs, and does not end in failing all pending tuples. */
  ghost predicate LosesEldest(c: Config, s: Bolt, input: Input, env: Env) {
    input.Data? && PushesOut(c, s, input.key, env)
    && !((env.mark || !env.written) && SyncFails(|s.writers|, env.reach, c.retries))
  }

  /** The tuple is written, not synced in this call, and its writer dropped by a rotation whose close fails. */
  predicate LosesOnClose(s: Bolt, input: Input, env: Env) {
    input.Data? && !NoWriter(s, input, env) && env.written && !env.mark && env.rotate && !env.closed
  }

  predicate Syncs(c: Config, s: Bolt, input: Input, env: Env) {
    var s1 := if input.Tick? then s else Accept(c, s, input.t, input.key, env);
    env.mark || ((input.Tick? || NoWriter(s, input, env) || !env.written) && s1.batch != [])
  }

  /** Once nothing is pending, dropping a writer changes nothing about safety. */
  lemma SettledRotateSafeIff(s: Bolt, key: string, closed: bool)
    requires s.batch == [] && OneWriterPerKey(s.writers) && (Safe(s) || Lost(s))
    ensures Safe(Rotate(s, key, closed)) <==> Safe(s)
  {
    LostIsUnsafe(s);
    if Safe(s) {
      RotateSafeIff(s, key, closed);
    } else {
      RotateLoses(s, key, closed);
      LostIsUnsafe(Rotate(s, key, closed));
    }
  }

  lemma {:induction false} SettledSafeIff(s: Bolt, reach: seq<nat>, retries: nat)
    requires OneWriterPerKey(s.writers) && AckedDurable(s)
    ensures var s1 := SyncBatch(s, reach, retries);
            s1.batch == [] && OneWriterPerKey(s1.writers) && (Safe(s1) || Lost(s1))
            && (Safe(s1) <==> Covered(s) || SyncFails(|s.writers|, reach, retries))
  {
    SyncOutcome(s, reach, retries);
    SyncWriters(s, reach, retries);
    SyncSafeIff(s, reach, retries);
    if !Covered(s) && !SyncFails(|s.writers|, reach, retries) { SyncLoses(s, reach, retries); }
  }

  lemma SyncedCallSafeIff(c: Config, s: Bolt, t: Tuple, key: string, env: Env)
    requires Safe(s) && !s.dead && Fresh(s, t) && |s.writers| <= c.maxOpenFiles && c.maxOpenFiles > 0
    requires Syncs(c, s, Data(t, key), env)
    ensures Safe(Execute(c, s, Data(t, key), env))
            <==> !PushesOut(c, s, key, env) || SyncFails(|s.writers|, env.reach, c.retries)
  {
    var s1 := Accept(c, s, t, key, env);
    AcceptSafeIff(c, s, t, key, env);
    if PushesOut(c, s, key, env) { PushedOut(c, s, t, key, env); }
    SettledSafeIff(s1, env.reach, c.retries);
    SettledRotateSafeIff(SyncBatch(s1, env.reach, c.retries), key, env.closed);
  }

  lemma {:induction false} UnsyncedCallSafeIff(c: Config, s: Bolt, t: Tuple, key: string, env: Env)
    requires Safe(s) && !s.dead && Fresh(s, t) && |s.writers| <= c.maxOpenFiles && c.maxOpenFiles > 0
    requires !Syncs(c, s, Data(t, key), env)
    ensures Safe(Execute(c, s, Data(t, key), env))
            <==> !PushesOut(c, s, key, env) && !LosesOnClose(s, Data(t, key), env)
  {
    var s1 := Accept(c, s, t, key, env);
    AcceptSafeIff(c, s, t, key, env);
    LostIsUnsafe(s1);
    if !NoWriter(s, Data(t, key), env) && env.rotate {
      JustWritten(c, s, t, key, env);
      if Covered(s1) {
        RotateSafeIff(s1, key, env.closed);
      } else {
        RotateLoses(s1, key, env.closed);
        LostIsUnsafe(Rotate(s1, key, env.closed));
      }
    }
  }

  /**
   * One call keeps acknowledged tuples durable and pending ones within reach iff it neither pushes out a
   * writer that a pending tuple needs nor loses the tuple just written to a failing close.
   */
  lemma ExecuteSafeIff(c: Config, s: Bolt, input: Input, env: Env)
    requires Safe(s) && !s.dead && |s.writers| <= c.maxOpenFiles && c.maxOpenFiles > 0
    requires input.Data? ==> Fresh(s, input.t)
    ensures Safe(Execute(c, s, input, env)) <==> !LosesEldest(c, s, input, env) && !LosesOnClose(s, input, env)
  {
    match input
    case Tick => if Syncs(c, s, Tick, env) { SyncSafeIff(s, env.reach, c.retries); }
    case Data(t, key) =>
      if Syncs(c, s, input, env) {
        SyncedCallSafeIff(c, s, t, key, env);
      } else {
        UnsyncedCallSafeIff(c, s, t, key, env);
        if PushesOut(c, s, key, env) { assert s.batch != []; }
      }
  }

  // ---------- every run of lossless calls ----------

  /** Everything the bolt has to do with is among `k`. */
  ghost predicate Among(s: Bolt, k: set<Tuple>) {
    && (forall t :: t in s.batch ==> t in k)
    && (forall t :: t in s.durable ==> t in k)
    && (forall t :: InCache(s.writers, t) ==> t in k)
  }

  lemma AcceptAmong(c: Config, s: Bolt, t: Tuple, key: string, env: Env, k: set<Tuple>)
    requires Among(s, k)
    ensures Among(Accept(c, s, t, key, env), k + {t})
  {
    var ws := GetOrCreate(s.writers, key, c.maxOpenFiles);
    assert forall w :: w in ws ==> w in s.writers || w.unsynced == [];
    forall w, u | w in ws && u in w.unsynced ensures u in k {
      assert w in s.writers;
      assert InCache(s.writers, u);
    }
    var vs := WriteLast(ws, t);
    forall w, u | w in vs && u in w.unsynced ensures u in k + {t} {
      var j :| 0 <= j < |vs| && vs[j] == w;
      assert ws[j] in ws;
      if u in ws[j].unsynced { assert u in k; }
    }
  }

  lemma {:induction false} SyncAmong(s: Bolt, reach: seq<nat>, retries: nat, k: set<Tuple>)
    requires Among(s, k)
    ensures Among(SyncBatch(s, reach, retries), k)
  {
    SyncOutcome(s, reach, retries);
    forall t | InCache(SyncBatch(s, reach, retries).writers, t) ensures t in k {
      if !InCache(s.writers, t) { SyncUncaches(s, reach, retries, t); }
    }
  }

  lemma RotateAmong(s: Bolt, key: string, closed: bool, k: set<Tuple>)
    requires Among(s, k)
    ensures Among(Rotate(s, key, closed), k)
  {
    var i := Find(s.writers, key);
    forall t | i < |s.writers| && t in s.writers[i].unsynced ensures t in k {
      assert s.writers[i] in s.writers && InCache(s.writers, t);
    }
    assert forall w :: w in Without(s.writers, key) ==> w in s.writers;
  }

  lemma ExecuteAmong(c: Config, s: Bolt, input: Input, env: Env, k: set<Tuple>)
    requires Among(s, k)
    ensures Among(Execute(c, s, input, env), if input.Data? then k + {input.t} else k)
  {
    var k1 := if input.Data? then k + {input.t} else k;
    var s1 := if input.Tick? then s else Accept(c, s, input.t, input.key, env);
    if input.Data? { AcceptAmong(c, s, input.t, input.key, env, k); }
    SyncAmong(s1, env.reach, c.retries, k1);
    if input.Data? {
      RotateAmong(s1, input.key, env.closed, k1);
      RotateAmong(SyncBatch(s1, env.reach, c.retries), input.key, env.closed, k1);
    }
  }

  lemma {:induction false} AcceptBounded(c: Config, s: Bolt, t: Tuple, key: string, env: Env)
    requires |s.writers| <= c.maxOpenFiles
    ensures |Accept(c, s, t, key, env).writers| <= c.maxOpenFiles
  {
  }

  lemma RotateShrinks(s: Bolt, key: string, closed: bool)
    ensures |Rotate(s, key, closed).writers| <= |s.writers|
  {
  }

  lemma ExecuteBounded(c: Config, s: Bolt, input: Input, env: Env)
    requires |s.writers| <= c.maxOpenFiles
    ensures |Execute(c, s, input, env).writers| <= c.maxOpenFiles
  {
    var s1 := if input.Tick? then s else Accept(c, s, input.t, input.key, env);
    if input.Data? { AcceptBounded(c, s, input.t, input.key, env); }
    var s2 := if Syncs(c, s, input, env) then SyncBatch(s1, env.reach, c.retries) else s1;
    SyncWriters(s1, env.reach, c.retries);
    assert |s2.writers| == |s1.writers|;
    if input.Data? {
      RotateShrinks(s2, input.key, env.closed);
      assert Execute(c, s, input, env) == s2 || Execute(c, s, input, env) == Rotate(s2, input.key, env.closed);
    }
  }

  function Tuples(calls: seq<Call>): set<Tuple> {
    set i | 0 <= i < |calls| && calls[i].input.Data? :: calls[i].input.t
  }

  /** Every call brings a new delivery, and none loses a tuple. */
  ghost predicate Lossless(c: Config, calls: seq<Call>) {
    calls != [] ==>
      var before := calls[..|calls| - 1];
      var (s, call) := (Run(c, before), calls[|calls| - 1]);
      && Lossless(c, before)
      && (call.input.Data? ==> call.input.t !in Tuples(before))
      && (!s.dead ==> !LosesEldest(c, s, call.input, call.env) && !LosesOnClose(s, call.input, call.env))
  }

  lemma TuplesGrow(calls: seq<Call>)
    requires calls != []
    ensures var (before, input) := (calls[..|calls| - 1], calls[|calls| - 1].input);
            Tuples(calls) == if input.Data? then Tuples(before) + {input.t} else Tuples(before)
  {
    var before := calls[..|calls| - 1];
    assert calls == before + [calls[|calls| - 1]];
    forall t | t in Tuples(before) ensures t in Tuples(calls) {
      var i :| 0 <= i < |before| && before[i].input.Data? && before[i].input.t == t;
      assert calls[i] == before[i];
    }
    forall t | t in Tuples(calls)
      ensures t in Tuples(before) || (calls[|calls| - 1].input.Data? && calls[|calls| - 1].input.t == t)
    {
      var i :| 0 <= i < |calls| && calls[i].input.Data? && calls[i].input.t == t;
      if i < |before| { assert before[i] == calls[i]; }
    }
    if calls[|calls| - 1].input.Data? { assert calls[|calls| - 1].input.t in Tuples(calls); }
  }

  /**
   * Durability without a bound on the keys: over every run of calls none of which loses a tuple, every
   * acknowledged tuple was synced or closed after it was written.
   */
  lemma {:induction false} LosslessRunSafe(c: Config, calls: seq<Call>)
    requires Lossless(c, calls) && c.maxOpenFiles > 0
    ensures var s := Run(c, calls); Safe(s) && Among(s, Tuples(calls)) && |s.writers| <= c.maxOpenFiles
  {
    if calls != [] {
      var before := calls[..|calls| - 1];
      var (s, call) := (Run(c, before), calls[|calls| - 1]);
      LosslessRunSafe(c, before);
      TuplesGrow(calls);
      if !s.dead {
        ExecuteSafeIff(c, s, call.input, call.env);
        ExecuteAmong(c, s, call.input, call.env, Tuples(before));
        ExecuteBounded(c, s, call.input, call.env);
      }
    }
  }

  const CALM := Env(true, true, false, [], false, true)

  /**
   * A full cache, a new key, and an eldest writer with an unsynced pending tuple `lost`: the tuple is
   * acknowledged by the next successful sync and has never been synced.
   */
  lemma {:induction false} EvictedTupleAckedUnsynced(c: Config, s: Bolt, lost: Tuple, t: Tuple, key: string)
    requires s.writers != [] && Find(s.writers, key) == |s.writers| == c.maxOpenFiles && c.retries > 0 && !s.dead
    requires lost in s.batch && lost in s.writers[0].unsynced && lost !in s.durable && lost != t
    requires forall i :: 0 < i < |s.writers| ==> lost !in s.writers[i].unsynced
    ensures var s1 := Execute(c, s, Data(t, key), CALM);
            var s2 := Execute(c, s1, Tick, CALM.(reach := [|s1.writers|]));
            lost in s2.acked && lost !in s2.durable
  {
    EvictedWriters(s.writers, t, key);
    var s1 := Execute(c, s, Data(t, key), CALM);
    assert s1.writers == s.writers[1..] + [Writer(key, [t])];
    assert s1.batch == s.batch + [t];
    SyncKeepsKeys(s1.writers, |s1.writers|);
    assert lost !in Reached(s1.writers, |s1.writers|);
  }

  // ---------- runs that lose a tuple ----------

  const ONE_FILE := Config(1, 1)

  function RunOne(s: Bolt, input: Input, env: Env): Bolt {
    if s.dead then s else Execute(ONE_FILE, s, input, env)
  }

  lemma TwoCalls(a: Call, b: Call)
    ensures Run(ONE_FILE, [a]) == RunOne(START, a.input, a.env)
    ensures Run(ONE_FILE, [a, b]) == RunOne(Run(ONE_FILE, [a]), b.input, b.env)
  {
    assert [a][..0] == [] && [a, b][..1] == [a];
  }

  lemma {:induction false} ThreeCalls(a: Call, b: Call, c: Call)
    ensures Run(ONE_FILE, [a, b, c]) == RunOne(Run(ONE_FILE, [a, b]), c.input, c.env)
  {
    assert [a, b, c][..2] == [a, b];
  }

  /** From the start: one open file allowed, tuples 0 and 1 with different keys, then a tick that syncs. */
  lemma EvictionReached()
    ensures var calls := [Call(Data(0, "a"), CALM), Call(Data(1, "b"), CALM), Call(Tick, CALM.(reach := [1]))];
            var s := Run(ONE_FILE, calls);
            0 in s.acked && 0 !in s.durable
  {
    var (a, b, t) := (Call(Data(0, "a"), CALM), Call(Data(1, "b"), CALM), Call(Tick, CALM.(reach := [1])));
    TwoCalls(a, b);
    ThreeCalls(a, b, t);
    var s := Run(ONE_FILE, [a]);
    FirstWrite(CALM);
    assert "b" != "a" && Find(s.writers, "b") == 1;
    EvictedTupleAckedUnsynced(ONE_FILE, s, 0, 1, "b");
    var s1 := Execute(ONE_FILE, s, Data(1, "b"), CALM);
    EvictedWriters(s.writers, 1, "b");
    assert |s1.writers| == 1;
  }

  lemma FirstWrite(env: Env)
    requires env.created && env.written && !env.mark && !env.rotate
    ensures RunOne(START, Data(0, "a"), env) == START.(writers := [Writer("a", [0])], ttl := {"a"}, batch := [0])
  {
    var none: seq<Tuple> := [];
    assert none + [0] == [0] && START.batch + [0] == [0];
    assert GetOrCreate([], "a", 1) == [Writer("a", [])];
  }

  /** From the start: a tuple whose writer fails to close on rotation, then a tick with nothing left to sync. */
  lemma FailedCloseReached()
    ensures var calls := [Call(Data(0, "a"), CALM.(rotate := true, closed := false)), Call(Tick, CALM)];
            var s := Run(ONE_FILE, calls);
            0 in s.acked && 0 !in s.durable
  {
    var (a, t) := (Call(Data(0, "a"), CALM.(rotate := true, closed := false)), Call(Tick, CALM));
    TwoCalls(a, t);
    FirstWrite(CALM);
    var s := Execute(ONE_FILE, START, Data(0, "a"), CALM);
    assert Run(ONE_FILE, [a]) == Rotate(s, "a", false);
    assert Without(s.writers, "a") == [];
    assert Run(ONE_FILE, [a]).batch == [0];
  }
}
