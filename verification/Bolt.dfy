/**
 * The HDFS bolt: tuples are written through cached writers, kept pending until a sync, and then
 * acknowledged or failed together.
 */
module BoltRuns {
  type Tuple = nat

  /** A cached writer and what was written through it since it was last synced. */
  datatype Writer = Writer(key: string, unsynced: seq<Tuple>)

  /** `writers` is in access order, the eldest first; `durable`: tuples that were synced, or closed, after their write. */
  datatype Bolt = Bolt(
    writers: seq<Writer>,
    ttl: set<string>,
    batch: seq<Tuple>,
    acked: multiset<Tuple>,
    failed: multiset<Tuple>,
    durable: set<Tuple>,
    dead: bool)

  const START := Bolt([], {}, [], multiset{}, multiset{}, {}, false)

  datatype Config = Config(maxOpenFiles: nat, retries: nat)

  datatype Input = Tick | Data(t: Tuple, key: string)

  /**
   * What the file system and the policies do during one call: creating a writer, the write, the verdict of
   * the sync policy, how many writers each sync attempt reaches, and rotation with its close.
   */
  datatype Env = Env(created: bool, written: bool, mark: bool, reach: seq<nat>, rotate: bool, closed: bool)

  function Find(ws: seq<Writer>, key: string): (i: nat)
    ensures i <= |ws| && (i < |ws| ==> ws[i].key == key)
    ensures forall j :: 0 <= j < i ==> ws[j].key != key
  {
    if ws == [] || ws[0].key == key then 0 else 1 + Find(ws[1..], key)
  }

  function Without(ws: seq<Writer>, key: string): seq<Writer> {
    var i := Find(ws, key);
    if i < |ws| then ws[..i] + ws[i + 1..] else ws
  }

  /** `get` moves the writer to the end of the access order; `put` of a new one may push out the eldest. */
  function GetOrCreate(ws: seq<Writer>, key: string, max: nat): seq<Writer> {
    var i := Find(ws, key);
    if i < |ws| then Without(ws, key) + [ws[i]]
    else
      var grown := ws + [Writer(key, [])];
      if |grown| > max then grown[1..] else grown
  }

  /** The tuple goes to the writer just fetched, the last in access order unless it was pushed out itself. */
  function WriteLast(ws: seq<Writer>, t: Tuple): seq<Writer> {
    if ws == [] then ws
    else var w := ws[|ws| - 1]; ws[|ws| - 1 := w.(unsynced := w.unsynced + [t])]
  }

  /** The writer is obtained and the tuple written, or the tuple fails at once. */
  function Accept(c: Config, s: Bolt, t: Tuple, key: string, env: Env): Bolt {
    var isNew := Find(s.writers, key) == |s.writers|;
    if isNew && !env.created then s.(failed := s.failed + multiset{t})
    else
      var s1 := s.(writers := GetOrCreate(s.writers, key, c.maxOpenFiles),
                      ttl := if isNew then s.ttl + {key} else s.ttl);
      if env.written then s1.(writers := WriteLast(s1.writers, t), batch := s1.batch + [t])
      else s1.(failed := s1.failed + multiset{t})
  }

  /** One pass over the writers that gets through `n` of them. */
  function SyncFirst(ws: seq<Writer>, n: nat): seq<Writer> {
    if ws == [] || n == 0 then ws else [ws[0].(unsynced := [])] + SyncFirst(ws[1..], n - 1)
  }

  function Reached(ws: seq<Writer>, n: nat): set<Tuple> {
    if ws == [] || n == 0 then {} else (set t | t in ws[0].unsynced) + Reached(ws[1..], n - 1)
  }

  /** Attempts until a pass reaches every writer; the pending tuples are then acknowledged, or failed in the end. */
  function SyncBatch(s: Bolt, reach: seq<nat>, retries: nat): Bolt
    decreases retries
  {
    if retries == 0 then s.(failed := s.failed + multiset(s.batch), batch := [], dead := true)
    else
      var n := if reach == [] then 0 else reach[0];
      var s1 := s.(writers := SyncFirst(s.writers, n), durable := s.durable + Reached(s.writers, n));
      if n >= |s.writers| then s1.(acked := s1.acked + multiset(s1.batch), batch := [])
      else SyncBatch(s1, if reach == [] then [] else reach[1..], retries - 1)
  }

  /** Closing makes everything written through the writer durable; the writer leaves the cache either way. */
  function Rotate(s: Bolt, key: string, closed: bool): Bolt {
    var i := Find(s.writers, key);
    s.(writers := Without(s.writers, key), ttl := s.ttl - {key},
       durable := if closed && i < |s.writers| then s.durable + (set t | t in s.writers[i].unsynced) else s.durable)
  }

  /** No writer at hand: a tick, or a writer that could not be created. */
  predicate NoWriter(s: Bolt, input: Input, env: Env) {
    input.Tick? || (Find(s.writers, input.key) == |s.writers| && !env.created)
  }

  function Execute(c: Config, s: Bolt, input: Input, env: Env): Bolt {
    var s1 := if input.Tick? then s else Accept(c, s, input.t, input.key, env);
    var force := input.Tick? || NoWriter(s, input, env) || !env.written;
    var s2 := if env.mark || (force && s1.batch != []) then SyncBatch(s1, env.reach, c.retries) else s1;
    if !s2.dead && !NoWriter(s, input, env) && env.rotate then Rotate(s2, input.key, env.closed) else s2
  }

  // ---------- accounting ----------

  function Received(input: Input): multiset<Tuple> {
    if input.Tick? then multiset{} else multiset{input.t}
  }

  function Accounted(s: Bolt): multiset<Tuple> {
    s.acked + s.failed + multiset(s.batch)
  }

  lemma {:induction false} SyncAccounts(s: Bolt, reach: seq<nat>, retries: nat)
    ensures Accounted(SyncBatch(s, reach, retries)) == Accounted(s)
    ensures var s1 := SyncBatch(s, reach, retries);
            s1.batch == [] && (s1.dead ==> s1.acked == s.acked || s.dead)
            && s1.ttl == s.ttl && |s1.writers| == |s.writers|
    decreases retries
  {
    if retries > 0 {
      var n := if reach == [] then 0 else reach[0];
      SyncKeepsKeys(s.writers, n);
      if n < |s.writers| {
        var s1 := s.(writers := SyncFirst(s.writers, n), durable := s.durable + Reached(s.writers, n));
        SyncAccounts(s1, if reach == [] then [] else reach[1..], retries - 1);
      }
    }
  }

  lemma AcceptAccounts(c: Config, s: Bolt, t: Tuple, key: string, env: Env)
    ensures Accounted(Accept(c, s, t, key, env)) == Accounted(s) + multiset{t}
  {
    assert multiset(s.batch + [t]) == multiset(s.batch) + multiset{t};
  }

  lemma RotateAccounts(s: Bolt, key: string, closed: bool)
    ensures Accounted(Rotate(s, key, closed)) == Accounted(s)
  {
  }

  /** Each call settles or keeps exactly the tuples it was given before and the one it is given now. */
  lemma ExecuteAccounts(c: Config, s: Bolt, input: Input, env: Env)
    ensures Accounted(Execute(c, s, input, env)) == Accounted(s) + Received(input)
  {
    match input
    case Tick => SyncAccounts(s, env.reach, c.retries);
    case Data(t, key) =>
      var s1 := Accept(c, s, t, key, env);
      AcceptAccounts(c, s, t, key, env);
      SyncAccounts(s1, env.reach, c.retries);
      RotateAccounts(s1, key, env.closed);
      RotateAccounts(SyncBatch(s1, env.reach, c.retries), key, env.closed);
  }

  // ---------- when tuples are settled ----------

  /** How many writers attempt `k` reaches. */
  function Attempt(reach: seq<nat>, k: nat): nat {
    if k < |reach| then reach[k] else 0
  }

  /** One of the attempts gets through all `n` writers. */
  ghost predicate Succeeds(reach: seq<nat>, retries: nat, n: nat) {
    exists k :: 0 <= k < retries && Attempt(reach, k) >= n
  }

  lemma NextAttempts(reach: seq<nat>, retries: nat, n: nat)
    requires retries > 0
    ensures var rest := if reach == [] then [] else reach[1..];
            Succeeds(reach, retries, n) <==> Attempt(reach, 0) >= n || Succeeds(rest, retries - 1, n)
  {
    var rest := if reach == [] then [] else reach[1..];
    assert forall k: nat :: Attempt(rest, k) == Attempt(reach, k + 1);
    if k :| 0 <= k < retries && Attempt(reach, k) >= n {
      if k > 0 { assert Attempt(rest, k - 1) >= n; }
    }
  }

  /** All pending tuples are acknowledged exactly when some attempt reaches every writer; else all fail. */
  lemma {:induction false} SyncSettles(s: Bolt, reach: seq<nat>, retries: nat)
    ensures var s1 := SyncBatch(s, reach, retries);
            && s1.batch == []
            && if Succeeds(reach, retries, |s.writers|)
               then s1.acked == s.acked + multiset(s.batch) && s1.failed == s.failed && s1.dead == s.dead
               else s1.acked == s.acked && s1.failed == s.failed + multiset(s.batch) && s1.dead
    decreases retries
  {
    if retries > 0 {
      var n := Attempt(reach, 0);
      var rest := if reach == [] then [] else reach[1..];
      var s1 := s.(writers := SyncFirst(s.writers, n), durable := s.durable + Reached(s.writers, n));
      SyncKeepsKeys(s.writers, n);
      NextAttempts(reach, retries, |s.writers|);
      if n < |s.writers| { SyncSettles(s1, rest, retries - 1); }
    }
  }

  /** The call has a writer: one that is open, or one that could be created. */
  predicate HasWriter(s: Bolt, input: Input, env: Env) {
    input.Data? && ((exists w :: w in s.writers && w.key == input.key) || env.created)
  }

  /** The writers open after the call's own was obtained. */
  function OpenWriters(c: Config, s: Bolt, input: Input, env: Env): nat {
    if HasWriter(s, input, env) && (forall w :: w in s.writers ==> w.key != input.key) && |s.writers| < c.maxOpenFiles
    then |s.writers| + 1
    else |s.writers|
  }

  lemma FoundIff(ws: seq<Writer>, key: string)
    ensures Find(ws, key) < |ws| <==> exists w :: w in ws && w.key == key
  {
    var i := Find(ws, key);
    if i < |ws| { assert ws[i] in ws; }
    if w :| w in ws && w.key == key { var j :| 0 <= j < |ws| && ws[j] == w; }
  }

  /**
   * When tuples are settled: a written tuple waits until the policy says so; a tick, and a tuple that could
   * not be written, force what is pending out; and what was pending is acknowledged or failed as a whole.
   */
  lemma ExecuteSettles(c: Config, s: Bolt, input: Input, env: Env)
    ensures var s1 := Execute(c, s, input, env);
            var written := HasWriter(s, input, env) && env.written;
            var pending := if written then s.batch + [input.t] else s.batch;
            var syncs := env.mark || (pending != [] && !written);
            var ok := Succeeds(env.reach, c.retries, OpenWriters(c, s, input, env));
            && s1.batch == (if syncs then [] else pending)
            && s1.acked == (if syncs && ok then s.acked + multiset(pending) else s.acked)
            && s1.dead == (s.dead || (syncs && !ok))
  {
    var s1 := if input.Tick? then s else Accept(c, s, input.t, input.key, env);
    if input.Data? {
      FoundIff(s.writers, input.key);
      assert HasWriter(s, input, env) == !NoWriter(s, input, env);
      AcceptOpens(c, s, input.t, input.key, env);
    }
    SyncSettles(s1, env.reach, c.retries);
  }

  lemma AcceptOpens(c: Config, s: Bolt, t: Tuple, key: string, env: Env)
    ensures |Accept(c, s, t, key, env).writers| == OpenWriters(c, s, Data(t, key), env)
  {
    FoundIff(s.writers, key);
  }

  // ---------- durability ----------

  function Keys(ws: seq<Writer>): set<string> {
    set w | w in ws :: w.key
  }

  ghost predicate OneWriterPerKey(ws: seq<Writer>) {
    forall i, j :: 0 <= i < j < |ws| ==> ws[i].key != ws[j].key
  }

  /** Some cached writer holds the tuple unsynced. */
  ghost predicate InCache(ws: seq<Writer>, t: Tuple) {
    exists w :: w in ws && t in w.unsynced
  }

  /** A pending tuple is durable already, or its writer is still in the cache and will be reached by a sync. */
  ghost predicate Covered(s: Bolt) {
    forall t :: t in s.batch ==> t in s.durable || InCache(s.writers, t)
  }

  /** What acknowledging relies on, and what it promises: acknowledged tuples are durable. */
  ghost predicate Safe(s: Bolt) {
    OneWriterPerKey(s.writers) && Covered(s) && AckedDurable(s)
  }

  predicate AckedDurable(s: Bolt) {
    forall t :: t in s.acked ==> t in s.durable
  }

  ghost predicate Inv(s: Bolt) {
    Safe(s) && s.ttl == Keys(s.writers)
  }

  /** The guard: no writer is pushed out of the cache, and closes succeed. */
  predicate NoLoss(c: Config, s: Bolt, input: Input, env: Env) {
    && (input.Data? && Find(s.writers, input.key) == |s.writers| ==> |s.writers| < c.maxOpenFiles)
    && (env.rotate ==> env.closed)
  }

  lemma {:induction false} SyncFirstAt(ws: seq<Writer>, n: nat)
    ensures var r := SyncFirst(ws, n);
            |r| == |ws| && forall i :: 0 <= i < |ws| ==> r[i] == if i < n then ws[i].(unsynced := []) else ws[i]
  {
    if ws != [] && n > 0 { SyncFirstAt(ws[1..], n - 1); }
  }

  lemma {:induction false} ReachedIff(ws: seq<Writer>, n: nat, t: Tuple)
    ensures t in Reached(ws, n) <==> exists i :: 0 <= i < |ws| && i < n && t in ws[i].unsynced
  {
    if ws != [] && n > 0 {
      ReachedIff(ws[1..], n - 1, t);
      if i :| 0 <= i < |ws| && i < n && t in ws[i].unsynced {
        if i > 0 { assert ws[1..][i - 1] == ws[i]; }
      }
      if i :| 0 <= i < |ws[1..]| && i < n - 1 && t in ws[1..][i].unsynced {
        assert ws[1..][i] == ws[i + 1];
      }
    }
  }

  lemma SyncKeepsKeys(ws: seq<Writer>, n: nat)
    ensures var r := SyncFirst(ws, n);
            |r| == |ws| && (forall i :: 0 <= i < |ws| ==> r[i].key == ws[i].key)
            && (forall i :: 0 <= i < |ws| ==> r[i].unsynced == if i < n then [] else ws[i].unsynced)
    ensures forall t :: t in Reached(ws, n) <==> exists i :: 0 <= i < |ws| && i < n && t in ws[i].unsynced
  {
    SyncFirstAt(ws, n);
    forall t ensures t in Reached(ws, n) <==> exists i :: 0 <= i < |ws| && i < n && t in ws[i].unsynced {
      ReachedIff(ws, n, t);
    }
  }

  lemma KeysByIndex(ws: seq<Writer>, vs: seq<Writer>)
    requires |ws| == |vs| && forall i :: 0 <= i < |ws| ==> ws[i].key == vs[i].key
    ensures Keys(ws) == Keys(vs)
  {
    forall k ensures k in Keys(ws) <==> k in Keys(vs) {
      if k in Keys(ws) { var i :| 0 <= i < |ws| && ws[i].key == k; assert vs[i] in vs; }
      if k in Keys(vs) { var i :| 0 <= i < |vs| && vs[i].key == k; assert ws[i] in ws; }
    }
  }

  lemma SyncPassKeeps(s: Bolt, n: nat)
    requires Safe(s)
    ensures var s1 := s.(writers := SyncFirst(s.writers, n), durable := s.durable + Reached(s.writers, n));
            && Safe(s1) && Keys(s1.writers) == Keys(s.writers)
            && (n >= |s.writers| ==> forall t :: t in s.batch ==> t in s1.durable)
  {
    var ws := s.writers;
    var s1 := s.(writers := SyncFirst(ws, n), durable := s.durable + Reached(ws, n));
    SyncKeepsKeys(ws, n);
    KeysByIndex(ws, s1.writers);
    forall t | t in s.batch
      ensures t in s1.durable || (n < |ws| && InCache(s1.writers, t))
    {
      if t !in s.durable {
        var w :| w in ws && t in w.unsynced;
        var i :| 0 <= i < |ws| && ws[i] == w;
        if i >= n { assert s1.writers[i] in s1.writers; }
      }
    }
  }

  lemma {:induction false} SyncKeeps(s: Bolt, reach: seq<nat>, retries: nat)
    requires Safe(s)
    ensures Safe(SyncBatch(s, reach, retries)) && Keys(SyncBatch(s, reach, retries).writers) == Keys(s.writers)
    decreases retries
  {
    if retries > 0 {
      var n := if reach == [] then 0 else reach[0];
      SyncPassKeeps(s, n);
      if n < |s.writers| {
        var s1 := s.(writers := SyncFirst(s.writers, n), durable := s.durable + Reached(s.writers, n));
        SyncKeeps(s1, if reach == [] then [] else reach[1..], retries - 1);
      }
    }
  }

  lemma {:induction false} SyncWriters(s: Bolt, reach: seq<nat>, retries: nat)
    ensures var ws := SyncBatch(s, reach, retries).writers;
            |ws| == |s.writers| && forall i :: 0 <= i < |ws| ==> ws[i].key == s.writers[i].key
    decreases retries
  {
    if retries > 0 {
      var n := if reach == [] then 0 else reach[0];
      SyncKeepsKeys(s.writers, n);
      if n < |s.writers| {
        var s1 := s.(writers := SyncFirst(s.writers, n), durable := s.durable + Reached(s.writers, n));
        SyncWriters(s1, if reach == [] then [] else reach[1..], retries - 1);
      }
    }
  }

  lemma WithoutAt(ws: seq<Writer>, key: string)
    requires Find(ws, key) < |ws|
    ensures var (i, vs) := (Find(ws, key), Without(ws, key));
            |vs| == |ws| - 1 && forall j :: 0 <= j < |vs| ==> vs[j] == if j < i then ws[j] else ws[j + 1]
  {
    CutOut(ws, Find(ws, key));
  }

  lemma CutOut(ws: seq<Writer>, i: nat)
    requires i < |ws|
    ensures var vs := ws[..i] + ws[i + 1..];
            |vs| == |ws| - 1 && forall j :: 0 <= j < |vs| ==> vs[j] == if j < i then ws[j] else ws[j + 1]
  {
  }

  lemma WithoutMembers(ws: seq<Writer>, key: string)
    requires OneWriterPerKey(ws)
    ensures forall w :: w in Without(ws, key) <==> w in ws && w.key != key
  {
    var (i, vs) := (Find(ws, key), Without(ws, key));
    if i < |ws| {
      WithoutAt(ws, key);
      forall w | w in ws && w.key != key ensures w in vs {
        var j :| 0 <= j < |ws| && ws[j] == w;
        assert vs[if j < i then j else j - 1] == w;
      }
    }
  }

  lemma WithoutDistinct(ws: seq<Writer>, key: string)
    requires OneWriterPerKey(ws)
    ensures OneWriterPerKey(Without(ws, key))
  {
  }

  lemma WithoutWriters(ws: seq<Writer>, key: string)
    requires OneWriterPerKey(ws)
    ensures OneWriterPerKey(Without(ws, key))
    ensures forall w :: w in Without(ws, key) <==> w in ws && w.key != key
    ensures Keys(Without(ws, key)) == Keys(ws) - {key}
  {
    WithoutMembers(ws, key);
    WithoutDistinct(ws, key);
  }

  lemma AppendWriter(ws: seq<Writer>, w: Writer)
    requires OneWriterPerKey(ws) && forall v :: v in ws ==> v.key != w.key
    ensures OneWriterPerKey(ws + [w]) && Keys(ws + [w]) == Keys(ws) + {w.key}
    ensures forall v :: v in ws + [w] <==> v in ws || v == w
  {
    assert forall j :: 0 <= j < |ws| ==> ws[j] in ws;
  }

  lemma OnlyWriterOf(ws: seq<Writer>, key: string, w: Writer)
    requires OneWriterPerKey(ws) && w in ws && w.key == key
    ensures Find(ws, key) < |ws| && ws[Find(ws, key)] == w
  {
    var j :| 0 <= j < |ws| && ws[j] == w;
  }

  lemma {:induction false} MovedToEnd(ws: seq<Writer>, key: string)
    requires OneWriterPerKey(ws) && Find(ws, key) < |ws|
    ensures var vs := Without(ws, key) + [ws[Find(ws, key)]];
            OneWriterPerKey(vs) && Keys(vs) == Keys(ws) && forall w :: w in ws ==> w in vs
  {
    var w0 := ws[Find(ws, key)];
    assert w0 in ws;
    WithoutWriters(ws, key);
    AppendWriter(Without(ws, key), w0);
    forall w | w in ws ensures w in Without(ws, key) + [w0] {
      if w.key == key { OnlyWriterOf(ws, key, w); }
    }
  }

  lemma GetOrCreateWriters(ws: seq<Writer>, key: string, max: nat)
    requires OneWriterPerKey(ws) && (Find(ws, key) == |ws| ==> |ws| < max)
    ensures var vs := GetOrCreate(ws, key, max);
            && OneWriterPerKey(vs) && vs != [] && vs[|vs| - 1].key == key
            && Keys(vs) == Keys(ws) + {key}
            && forall w :: w in ws ==> w in vs
  {
    if Find(ws, key) < |ws| {
      MovedToEnd(ws, key);
      assert ws[Find(ws, key)] in ws;
    } else {
      AppendWriter(ws, Writer(key, []));
    }
  }

  lemma WriteLastWriters(ws: seq<Writer>, t: Tuple)
    requires OneWriterPerKey(ws) && ws != []
    ensures var vs := WriteLast(ws, t);
            && OneWriterPerKey(vs) && Keys(vs) == Keys(ws)
            && InCache(vs, t) && forall u :: InCache(ws, u) ==> InCache(vs, u)
  {
    var vs := WriteLast(ws, t);
    var last := |ws| - 1;
    KeysByIndex(ws, vs);
    assert vs[last] in vs && t in vs[last].unsynced;
    forall u | InCache(ws, u) ensures InCache(vs, u) {
      var w :| w in ws && u in w.unsynced;
      var i :| 0 <= i < |ws| && ws[i] == w;
      assert vs[i] in vs && u in vs[i].unsynced;
    }
  }

  /** The tuple `t`, if it became pending, was written through a writer that is still cached. */
  lemma WrittenCovered(s: Bolt, ws: seq<Writer>, t: Tuple)
    requires OneWriterPerKey(ws) && ws != [] && Covered(s) && forall u :: InCache(s.writers, u) ==> InCache(ws, u)
    ensures Covered(s.(writers := ws))
    ensures Covered(s.(writers := WriteLast(ws, t), batch := s.batch + [t]))
  {
    WriteLastWriters(ws, t);
  }

  /** With room for the writer, taking a tuple in leaves every pending tuple covered. */
  lemma {:induction false} AcceptCovers(c: Config, s: Bolt, t: Tuple, key: string, env: Env)
    requires Safe(s) && (env.created && Find(s.writers, key) == |s.writers| ==> |s.writers| < c.maxOpenFiles)
    ensures var s1 := Accept(c, s, t, key, env);
            && OneWriterPerKey(s1.writers) && Covered(s1) && s1.acked == s.acked && s1.durable == s.durable
            && |s1.writers| <= (if Find(s.writers, key) == |s.writers| then |s.writers| + 1 else |s.writers|)
  {
    if env.created || Find(s.writers, key) < |s.writers| {
      var ws := GetOrCreate(s.writers, key, c.maxOpenFiles);
      GetOrCreateWriters(s.writers, key, c.maxOpenFiles);
      WriteLastWriters(ws, t);
      WrittenCovered(s, ws, t);
    }
  }

  lemma AcceptKeeps(c: Config, s: Bolt, t: Tuple, key: string, env: Env)
    requires Inv(s) && NoLoss(c, s, Data(t, key), env)
    ensures Inv(Accept(c, s, t, key, env))
  {
    var ws := GetOrCreate(s.writers, key, c.maxOpenFiles);
    GetOrCreateWriters(s.writers, key, c.maxOpenFiles);
    WriteLastWriters(ws, t);
    WrittenCovered(s, ws, t);
    var i := Find(s.writers, key);
    if i < |s.writers| { assert s.writers[i] in s.writers; }
  }

  lemma RotateKeeps(s: Bolt, key: string)
    requires Safe(s)
    ensures Safe(Rotate(s, key, true)) && Keys(Rotate(s, key, true).writers) == Keys(s.writers) - {key}
  {
    var i := Find(s.writers, key);
    var s1 := Rotate(s, key, true);
    WithoutWriters(s.writers, key);
    forall t | t in s1.batch
      ensures t in s1.durable || InCache(s1.writers, t)
    {
      if t !in s.durable {
        var w :| w in s.writers && t in w.unsynced;
        if w.key == key { var j :| 0 <= j < |s.writers| && s.writers[j] == w; assert j == i; }
      }
    }
  }

  /** A call without loss: what it acknowledges was synced or closed after its write, and the two key sets agree. */
  lemma {:induction false} ExecuteKeeps(c: Config, s: Bolt, input: Input, env: Env)
    requires Inv(s) && NoLoss(c, s, input, env)
    ensures Inv(Execute(c, s, input, env))
  {
    var s1 := if input.Tick? then s else Accept(c, s, input.t, input.key, env);
    if input.Data? { AcceptKeeps(c, s, input.t, input.key, env); }
    var force := input.Tick? || NoWriter(s, input, env) || !env.written;
    var s2 := if env.mark || (force && s1.batch != []) then SyncBatch(s1, env.reach, c.retries) else s1;
    SyncKeeps(s1, env.reach, c.retries);
    SyncAccounts(s1, env.reach, c.retries);
    if !s2.dead && !NoWriter(s, input, env) && env.rotate { RotateKeeps(s2, input.key); }
  }

  // ---------- every run ----------

  datatype Call = Call(input: Input, env: Env)

  function Run(c: Config, calls: seq<Call>): Bolt {
    if calls == [] then START
    else
      var s := Run(c, calls[..|calls| - 1]);
      var call := calls[|calls| - 1];
      if s.dead then s else Execute(c, s, call.input, call.env)
  }

  /** The tuples handed to a bolt that was still alive. */
  function Inputs(c: Config, calls: seq<Call>): multiset<Tuple> {
    if calls == [] then multiset{}
    else
      var before := calls[..|calls| - 1];
      Inputs(c, before) + (if Run(c, before).dead then multiset{} else Received(calls[|calls| - 1].input))
  }

  /** Accounting: in every run each tuple is pending, acknowledged or failed, as often as it was handed in. */
  lemma {:induction false} RunAccounts(c: Config, calls: seq<Call>)
    ensures Accounted(Run(c, calls)) == Inputs(c, calls)
  {
    if calls != [] {
      var before := calls[..|calls| - 1];
      RunAccounts(c, before);
      ExecuteAccounts(c, Run(c, before), calls[|calls| - 1].input, calls[|calls| - 1].env);
    }
  }

  /** No more keys than the cache holds, and no failing close. */
  ghost predicate Spacious(c: Config, calls: seq<Call>, keys: set<string>) {
    && |keys| <= c.maxOpenFiles
    && forall i :: 0 <= i < |calls| ==>
         && (calls[i].input.Data? ==> calls[i].input.key in keys)
         && (calls[i].env.rotate ==> calls[i].env.closed)
  }

  lemma {:induction false} DistinctCount(ws: seq<Writer>)
    requires OneWriterPerKey(ws)
    ensures |Keys(ws)| == |ws|
  {
    if ws != [] {
      var (front, last) := (ws[..|ws| - 1], ws[|ws| - 1]);
      DistinctCount(front);
      assert ws == front + [last];
      assert Keys(ws) == Keys(front) + {last.key};
      assert last.key !in Keys(front);
    }
  }

  lemma SubsetCount(a: set<string>, b: set<string>)
    requires a <= b
    ensures |a| <= |b|
  {
    assert b == a + (b - a);
  }

  lemma NoEviction(c: Config, s: Bolt, key: string, keys: set<string>)
    requires Inv(s) && s.ttl <= keys && key in keys && |keys| <= c.maxOpenFiles
    ensures Find(s.writers, key) == |s.writers| ==> |s.writers| < c.maxOpenFiles
  {
    if Find(s.writers, key) == |s.writers| {
      assert key !in Keys(s.writers);
      DistinctCount(s.writers);
      SubsetCount(Keys(s.writers) + {key}, keys);
    }
  }

  /**
   * Durability: with no more keys than open files and closes that succeed, every acknowledged tuple was
   * synced or closed after it was written, and `writers` and `writersTtl` hold the same keys.
   */
  lemma {:induction false} AckedIsDurable(c: Config, calls: seq<Call>, keys: set<string>)
    requires Spacious(c, calls, keys)
    ensures Inv(Run(c, calls)) && Run(c, calls).ttl <= keys
  {
    if calls != [] {
      var before := calls[..|calls| - 1];
      var call := calls[|calls| - 1];
      var s := Run(c, before);
      AckedIsDurable(c, before, keys);
      if !s.dead {
        if call.input.Data? { NoEviction(c, s, call.input.key, keys); }
        ExecuteKeeps(c, s, call.input, call.env);
        TtlGrows(c, s, call.input, call.env);
      }
    }
  }

  lemma TtlGrows(c: Config, s: Bolt, input: Input, env: Env)
    ensures Execute(c, s, input, env).ttl <= s.ttl + (if input.Data? then {input.key} else {})
  {
    var s1 := if input.Tick? then s else Accept(c, s, input.t, input.key, env);
    SyncAccounts(s1, env.reach, c.retries);
  }
}

/** The bolt in the code's own form. */
module HdfsBoltClass {
  import opened BoltRuns

  class AbstractHdfsBolt {
    const c: Config
    var writers: seq<Writer>
    var writersTtl: set<string>
    var tupleBatch: seq<Tuple>
    var acked: multiset<Tuple>
    var failed: multiset<Tuple>
    ghost var durable: set<Tuple>
    var dead: bool

    ghost function View(): Bolt
      reads this
    {
      Bolt(writers, writersTtl, tupleBatch, acked, failed, durable, dead)
    }

    constructor (c: Config)
      ensures this.c == c && View() == START
    {
      this.c, writers, writersTtl, tupleBatch := c, [], {}, [];
      acked, failed, durable, dead := multiset{}, multiset{}, {}, false;
    }

    method GetOrCreateWriter(key: string, created: bool) returns (ok: bool)
      modifies this
      ensures ok == (Find(old(writers), key) < |old(writers)| || created)
      ensures View() == if ok then old(View()).(writers := GetOrCreate(old(writers), key, c.maxOpenFiles),
                                                ttl := if Find(old(writers), key) == |old(writers)|
                                                       then old(writersTtl) + {key} else old(writersTtl))
                        else old(View())
      ensures var (before, i) := (old(writers), Find(old(writers), key));
              var grown := before + [Writer(key, [])];
              writers == if i < |before| then before[..i] + before[i + 1..] + [before[i]]
                         else if !created then before
                         else if |grown| > c.maxOpenFiles then grown[1..] else grown
    {
      var i := Find(writers, key);
      if i < |writers| {
        writers := writers[..i] + writers[i + 1..] + [writers[i]];
        return true;
      }
      if !created { return false; }
      writers := writers + [Writer(key, [])];
      if |writers| > c.maxOpenFiles { writers := writers[1..]; }
      writersTtl := writersTtl + {key};
      ok := true;
    }

    /** One pass over the writers; it throws after `reach` of them. */
    method SyncAllWriters(reach: nat) returns (ok: bool)
      modifies this
      ensures ok == (reach >= |old(writers)|)
      ensures View() == old(View()).(writers := SyncFirst(old(writers), reach),
                                     durable := old(durable) + Reached(old(writers), reach))
    {
      var i := 0;
      SyncKeepsKeys(writers, reach);
      while i < |writers| && i < reach
        invariant 0 <= i <= |writers| && i <= reach
        invariant |writers| == |old(writers)|
        invariant forall j :: 0 <= j < |writers| ==>
                    writers[j] == if j < i then old(writers)[j].(unsynced := []) else old(writers)[j]
        invariant View() == old(View()).(writers := writers, durable := durable)
        invariant forall t :: t in durable <==> t in old(durable) || exists j :: 0 <= j < i && t in old(writers)[j].unsynced
      {
        durable := durable + set t | t in writers[i].unsynced;
        writers := writers[i := writers[i].(unsynced := [])];
        i := i + 1;
      }
      assert writers == SyncFirst(old(writers), reach);
      assert durable == old(durable) + Reached(old(writers), reach);
      ok := reach >= |writers|;
    }

    method DoRotationAndRemoveWriter(key: string, closed: bool)
      modifies this
      ensures View() == Rotate(old(View()), key, closed)
      ensures var (before, i) := (old(writers), Find(old(writers), key));
              && writers == (if i < |before| then before[..i] + before[i + 1..] else before)
              && writersTtl == old(writersTtl) - {key}
    {
      var i := Find(writers, key);
      if i < |writers| {
        if closed { durable := durable + set t | t in writers[i].unsynced; }
        writers := writers[..i] + writers[i + 1..];
      }
      writersTtl := writersTtl - {key};
    }

    /** Tries to sync; acknowledges the pending tuples, or fails them and kills the bolt. */
    method SyncAndSettle(reach: seq<nat>)
      requires !dead
      modifies this
      ensures View() == SyncBatch(old(View()), reach, c.retries)
    {
      var attempts := 0;
      var success := false;
      var left := reach;
      while !success && attempts < c.retries
        invariant 0 <= attempts <= c.retries && !dead
        invariant SyncBatch(old(View()), reach, c.retries)
                  == if success then View() else SyncBatch(View(), left, c.retries - attempts)
        decreases c.retries - attempts + (if success then 0 else 1)
      {
        var n := if left == [] then 0 else left[0];
        left := if left == [] then [] else left[1..];
        var ok := SyncAllWriters(n);
        attempts := attempts + 1;
        if ok {
          acked := acked + multiset(tupleBatch);
          tupleBatch := [];
          success := true;
        }
      }
      if !success {
        failed := failed + multiset(tupleBatch);
        tupleBatch := [];
        dead := true;
      }
    }

    /** Gets the writer and writes the tuple, or fails it; `writer`: a writer was obtained. */
    method AcceptTuple(t: Tuple, key: string, env: Env) returns (writer: bool)
      modifies this
      ensures writer == !NoWriter(old(View()), Data(t, key), env)
      ensures View() == Accept(c, old(View()), t, key, env)
    {
      writer := GetOrCreateWriter(key, env.created);
      if writer && env.written {
        writers := WriteLast(writers, t);
        tupleBatch := tupleBatch + [t];
      } else {
        failed := failed + multiset{t};
      }
    }

    method Execute(input: Input, env: Env)
      requires !dead
      modifies this
      ensures View() == BoltRuns.Execute(c, old(View()), input, env)
    {
      var force := false;
      var writer := false;
      match input {
        case Tick => force := true;
        case Data(t, key) =>
          writer := AcceptTuple(t, key, env);
          force := !writer || !env.written;
      }
      if env.mark || (force && |tupleBatch| > 0) {
        SyncAndSettle(env.reach);
        if dead { return; }
      }
      if writer && env.rotate { DoRotationAndRemoveWriter(input.key, env.closed); }
    }
  }
}
