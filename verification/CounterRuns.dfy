/**
 * The counting topology as it really runs: bolts and expiry tasks watch, read and commit in separate
 * steps, deltas travel through a queue into per-instance caches, caches are flushed key by key, and expiry
 * tasks decrement the stored counters directly. Every interleaving refines the atomic steps of `Sessions`.
 */
module CounterRuns {
  import opened Common
  import opened Sessions

  /** What one thread of a bolt or of the expiry service is in the middle of. */
  datatype Proc =
    | Idle
    | Watching(e: Event, dirty: bool)
    | Holding(e: Event, seen: Option<Pair>, dirty: bool)
    | Emitting(d: Delta)
    | TaskWatching(mac: Mac, dirty: bool)
    | TaskHolding(mac: Mac, seen: Option<Pair>, dirty: bool)
    | OwesBoth(v: Pair)
    | OwesPartner(v: Pair)

  type Counters = map<Key, int>

  datatype State = State(
    redis: Store,
    notices: multiset<Mac>,
    procs: seq<Proc>,
    queue: seq<Delta>,
    caches: seq<Counters>,
    counts: Counters)

  datatype Step =
    | Watch(i: nat, e: Event)
    | Get(i: nat)
    | Exec(i: nat, disturbed: bool)
    | Finish(i: nat)
    | Emit(i: nat)
    | Expire(mac: Mac, touch: bool)
    | TaskWatch(i: nat, mac: Mac)
    | TaskGet(i: nat)
    | TaskExec(i: nat, disturbed: bool)
    | DecrTotal(i: nat)
    | DecrPartner(i: nat)
    | Deliver(n: nat, j: nat)
    | FlushKey(j: nat, k: Key)

  /** Every watcher of `mac` is told that one of its keys was written. */
  function MarkOne(p: Proc, mac: Mac): Proc {
    match p
    case Watching(e, _) => if e.mac == mac then Watching(e, true) else p
    case Holding(e, seen, _) => if e.mac == mac then Holding(e, seen, true) else p
    case TaskWatching(m, _) => if m == mac then TaskWatching(m, true) else p
    case TaskHolding(m, seen, _) => if m == mac then TaskHolding(m, seen, true) else p
    case _ => p
  }

  function Mark(ps: seq<Proc>, mac: Mac): seq<Proc> {
    seq(|ps|, i requires 0 <= i < |ps| => MarkOne(ps[i], mac))
  }

  function Value(m: Counters, k: Key): int {
    if k in m then m[k] else 0
  }

  function Bump(m: Counters, k: Key, n: int): Counters {
    m[k := Value(m, k) + n]
  }

  function BumpPair(m: Counters, v: Pair, n: int): Counters {
    Bump(Bump(m, Total(v.channel), n), Partner(v.partner, v.channel), n)
  }

  function Maintain(m: Counters, d: Delta): Counters {
    var m1 := if d.add.Some? then BumpPair(m, d.add.value, 1) else m;
    if d.dec.Some? then BumpPair(m1, d.dec.value, -1) else m1
  }

  /** The transaction of a bolt thread would be sent now. */
  predicate Ready(p: Proc) {
    p.Holding? && Decide(p.e, p.seen).Transact?
  }

  predicate Enabled(s: State, st: Step) {
    match st
    case Watch(i, _) => i < |s.procs| && s.procs[i].Idle?
    case Get(i) => i < |s.procs| && s.procs[i].Watching?
    case Exec(i, _) => i < |s.procs| && Ready(s.procs[i])
    case Finish(i) => i < |s.procs| && s.procs[i].Holding? && !Ready(s.procs[i])
    case Emit(i) => i < |s.procs| && s.procs[i].Emitting?
    case Expire(mac, _) => mac in s.redis.live
    case TaskWatch(i, mac) => i < |s.procs| && s.procs[i].Idle? && mac in s.notices
    case TaskGet(i) => i < |s.procs| && s.procs[i].TaskWatching?
    case TaskExec(i, _) => i < |s.procs| && s.procs[i].TaskHolding?
    case DecrTotal(i) => i < |s.procs| && s.procs[i].OwesBoth?
    case DecrPartner(i) => i < |s.procs| && s.procs[i].OwesPartner?
    case Deliver(n, j) => n < |s.queue| && j < |s.caches|
    case FlushKey(j, k) => j < |s.caches| && k in s.caches[j]
  }

  /** A transaction may also be disturbed by something outside this model. */
  predicate Aborts(p: Proc, disturbed: bool)
    requires p.Holding? || p.TaskHolding?
  {
    p.dirty || disturbed
  }

  function Next(s: State, st: Step): State
    requires Enabled(s, st)
  {
    match st
    case Watch(i, e) => s.(procs := s.procs[i := Watching(e, false)])
    case Get(i) =>
      var p := s.procs[i];
      s.(procs := s.procs[i := Holding(p.e, Lookup(s.redis.cp, p.e.mac), p.dirty)])
    case Exec(i, disturbed) =>
      var p := s.procs[i];
      if Aborts(p, disturbed) then s.(procs := s.procs[i := Idle])
      else
        var a := Decide(p.e, p.seen);
        s.(redis := Put(s.redis, p.e.mac, a.value),
           procs := Mark(s.procs, p.e.mac)[i := Emitting(a.out)])
    case Finish(i) =>
      var p := s.procs[i];
      var refreshed := Decide(p.e, p.seen).Refresh? && p.e.mac in s.redis.live;
      s.(procs := (if refreshed then Mark(s.procs, p.e.mac) else s.procs)[i := Idle])
    case Emit(i) => s.(procs := s.procs[i := Idle], queue := s.queue + [s.procs[i].d])
    case Expire(mac, touch) =>
      s.(redis := s.redis.(live := s.redis.live - {mac}),
         notices := s.notices + multiset{mac},
         procs := if touch then Mark(s.procs, mac) else s.procs)
    case TaskWatch(i, mac) =>
      s.(procs := s.procs[i := TaskWatching(mac, false)], notices := s.notices - multiset{mac})
    case TaskGet(i) =>
      var p := s.procs[i];
      s.(procs := s.procs[i := TaskHolding(p.mac, Lookup(s.redis.cp, p.mac), p.dirty)])
    case TaskExec(i, disturbed) =>
      var p := s.procs[i];
      if Aborts(p, disturbed) then s.(procs := s.procs[i := Idle])
      else
        s.(redis := s.redis.(cp := s.redis.cp - {p.mac}),
           procs := (if p.mac in s.redis.cp then Mark(s.procs, p.mac) else s.procs)
                    [i := if p.seen.Some? then OwesBoth(p.seen.value) else Idle])
    case DecrTotal(i) =>
      var v := s.procs[i].v;
      s.(procs := s.procs[i := OwesPartner(v)], counts := Bump(s.counts, Total(v.channel), -1))
    case DecrPartner(i) =>
      var v := s.procs[i].v;
      s.(procs := s.procs[i := Idle], counts := Bump(s.counts, Partner(v.partner, v.channel), -1))
    case Deliver(n, j) =>
      s.(queue := s.queue[..n] + s.queue[n + 1..], caches := s.caches[j := Maintain(s.caches[j], s.queue[n])])
    case FlushKey(j, k) =>
      s.(counts := Bump(s.counts, k, s.caches[j][k]), caches := s.caches[j := s.caches[j] - {k}])
  }

  // ---------- counters in flight ----------

  function Owed(p: Proc, k: Key): int {
    match p
    case Emitting(d) => Effect(d, k)
    case OwesBoth(v) => -Unit(Some(v), k)
    case OwesPartner(v) => if k.Partner? then -Unit(Some(v), k) else 0
    case _ => 0
  }

  function Owing(ps: seq<Proc>, k: Key): int {
    if ps == [] then 0 else Owing(ps[..|ps| - 1], k) + Owed(ps[|ps| - 1], k)
  }

  function Queued(ds: seq<Delta>, k: Key): int {
    if ds == [] then 0 else Queued(ds[..|ds| - 1], k) + Effect(ds[|ds| - 1], k)
  }

  function Cached(cs: seq<Counters>, k: Key): int {
    if cs == [] then 0 else Cached(cs[..|cs| - 1], k) + Value(cs[|cs| - 1], k)
  }

  /** The stored counter, plus everything on its way to it. */
  function Balance(s: State, k: Key): int {
    Value(s.counts, k) + Cached(s.caches, k) + Queued(s.queue, k) + Owing(s.procs, k)
  }

  lemma {:induction false} OwingUpdate(ps: seq<Proc>, i: nat, p: Proc, k: Key)
    requires i < |ps|
    ensures Owing(ps[i := p], k) == Owing(ps, k) - Owed(ps[i], k) + Owed(p, k)
  {
    var n := |ps| - 1;
    if i == n {
      assert ps[i := p][..n] == ps[..n];
    } else {
      assert ps[i := p][..n] == ps[..n][i := p];
      OwingUpdate(ps[..n], i, p, k);
    }
  }

  lemma {:induction false} OwingMark(ps: seq<Proc>, mac: Mac, k: Key)
    ensures Owing(Mark(ps, mac), k) == Owing(ps, k)
  {
    if ps != [] {
      assert Mark(ps, mac)[..|ps| - 1] == Mark(ps[..|ps| - 1], mac);
      OwingMark(ps[..|ps| - 1], mac, k);
    }
  }

  lemma {:induction false} QueuedRemove(ds: seq<Delta>, n: nat, k: Key)
    requires n < |ds|
    ensures Queued(ds[..n] + ds[n + 1..], k) == Queued(ds, k) - Effect(ds[n], k)
  {
    var m := |ds| - 1;
    if n == m {
      assert ds[..n] + ds[n + 1..] == ds[..n];
    } else {
      var rest := ds[..n] + ds[n + 1..];
      assert rest[..m - 1] == ds[..m][..n] + ds[..m][n + 1..];
      QueuedRemove(ds[..m], n, k);
    }
  }

  lemma QueuedAppend(ds: seq<Delta>, d: Delta, k: Key)
    ensures Queued(ds + [d], k) == Queued(ds, k) + Effect(d, k)
  {
    assert (ds + [d])[..|ds|] == ds;
  }

  lemma {:induction false} CachedUpdate(cs: seq<Counters>, j: nat, c: Counters, k: Key)
    requires j < |cs|
    ensures Cached(cs[j := c], k) == Cached(cs, k) - Value(cs[j], k) + Value(c, k)
  {
    var n := |cs| - 1;
    if j == n {
      assert cs[j := c][..n] == cs[..n];
    } else {
      assert cs[j := c][..n] == cs[..n][j := c];
      CachedUpdate(cs[..n], j, c, k);
    }
  }

  lemma MaintainEffect(m: Counters, d: Delta, k: Key)
    ensures Value(Maintain(m, d), k) == Value(m, k) + Effect(d, k)
  {
  }

  // ---------- refinement ----------

  /** A thread that was not told of a write still holds what the store holds. */
  ghost predicate InSync(s: State) {
    forall i :: 0 <= i < |s.procs| ==> Synced(s.procs[i], s.redis.cp)
  }

  predicate Synced(p: Proc, cp: map<Mac, Pair>) {
    && (p.Holding? && !p.dirty ==> p.seen == Lookup(cp, p.e.mac))
    && (p.TaskHolding? && !p.dirty ==> p.seen == Lookup(cp, p.mac))
  }

  /** The atomic step that takes effect, if any: a transaction that goes through, or an expiry. */
  function Effective(s: State, st: Step): seq<Op>
    requires Enabled(s, st)
  {
    match st
    case Exec(i, disturbed) => if Aborts(s.procs[i], disturbed) then [] else [Session(s.procs[i].e)]
    case TaskExec(i, disturbed) => if Aborts(s.procs[i], disturbed) then [] else [Dropped(s.procs[i].mac)]
    case Expire(mac, _) => [Expired(mac)]
    case _ => []
  }

  lemma MarkedSynced(p: Proc, mac: Mac, cp: map<Mac, Pair>, cp': map<Mac, Pair>)
    requires Synced(p, cp) && forall m :: m != mac ==> Lookup(cp', m) == Lookup(cp, m)
    ensures Synced(MarkOne(p, mac), cp')
  {
  }

  lemma TransactionSynced(s: State, st: Step, n: nat)
    requires Enabled(s, st) && InSync(s) && n < |s.procs| && (st.Exec? || st.TaskExec?)
    ensures Synced(Next(s, st).procs[n], Next(s, st).redis.cp)
  {
    var p := s.procs[st.i];
    var cp' := Next(s, st).redis.cp;
    var mac := if st.Exec? then p.e.mac else p.mac;
    if n != st.i && !Aborts(p, st.disturbed) { MarkedSynced(s.procs[n], mac, s.redis.cp, cp'); }
  }

  /** A step that writes no viewer's key leaves every thread in step; one that reads puts its own in step. */
  lemma UnwrittenSynced(s: State, st: Step, n: nat)
    requires Enabled(s, st) && InSync(s) && n < |s.procs|
    requires !st.Exec? && !st.TaskExec? && !st.Expire? && !st.Finish?
    ensures Synced(Next(s, st).procs[n], Next(s, st).redis.cp)
  {
    assert Synced(s.procs[n], s.redis.cp);
  }

  lemma {:induction false} SyncKept(s: State, st: Step)
    requires Enabled(s, st) && InSync(s)
    ensures InSync(Next(s, st))
  {
    forall n | 0 <= n < |s.procs| ensures Synced(Next(s, st).procs[n], Next(s, st).redis.cp) {
      if st.Exec? || st.TaskExec? { TransactionSynced(s, st, n); }
      else if st.Expire? { MarkedSynced(s.procs[n], st.mac, s.redis.cp, s.redis.cp); }
      else if st.Finish? { MarkedSynced(s.procs[n], s.procs[st.i].e.mac, s.redis.cp, s.redis.cp); }
      else { UnwrittenSynced(s, st, n); }
    }
  }

  /** Only thread `i` moves, and owes afterwards what it owed before. */
  lemma ThreadMoves(s: State, s': State, i: nat, k: Key)
    requires i < |s.procs| == |s'.procs| && s'.procs == s.procs[i := s'.procs[i]]
    requires s'.queue == s.queue && s'.caches == s.caches && s'.counts == s.counts
    requires Owed(s'.procs[i], k) == Owed(s.procs[i], k)
    ensures Balance(s', k) == Balance(s, k)
  {
    OwingUpdate(s.procs, i, s'.procs[i], k);
  }

  lemma EmitSilent(s: State, i: nat, k: Key)
    requires Enabled(s, Emit(i))
    ensures Balance(Next(s, Emit(i)), k) == Balance(s, k)
  {
    OwingUpdate(s.procs, i, Idle, k);
    QueuedAppend(s.queue, s.procs[i].d, k);
  }

  lemma DecrSilent(s: State, st: Step, k: Key)
    requires Enabled(s, st) && (st.DecrTotal? || st.DecrPartner?)
    ensures Balance(Next(s, st), k) == Balance(s, k)
  {
    OwingUpdate(s.procs, st.i, Next(s, st).procs[st.i], k);
  }

  lemma SilentThread(s: State, st: Step, k: Key)
    requires Enabled(s, st) && Effective(s, st) == []
    requires !st.Finish? && !st.Expire? && !st.Deliver? && !st.FlushKey?
    ensures Balance(Next(s, st), k) == Balance(s, k)
  {
    if st.Emit? { EmitSilent(s, st.i, k); }
    else if st.DecrTotal? || st.DecrPartner? { DecrSilent(s, st, k); }
    else { ThreadMoves(s, Next(s, st), st.i, k); }
  }

  lemma SilentCounting(s: State, st: Step, k: Key)
    requires Enabled(s, st) && (st.Deliver? || st.FlushKey?)
    ensures Balance(Next(s, st), k) == Balance(s, k)
  {
    CachedUpdate(s.caches, st.j, Next(s, st).caches[st.j], k);
    if st.Deliver? {
      QueuedRemove(s.queue, st.n, k);
      MaintainEffect(s.caches[st.j], s.queue[st.n], k);
    }
  }

  lemma SilentFinish(s: State, i: nat, k: Key)
    requires Enabled(s, Finish(i))
    ensures Balance(Next(s, Finish(i)), k) == Balance(s, k)
  {
    var mac := s.procs[i].e.mac;
    OwingMark(s.procs, mac, k);
    OwingUpdate(s.procs, i, Idle, k);
    OwingUpdate(Mark(s.procs, mac), i, Idle, k);
  }

  /** A step without effect leaves the viewers' keys and every balance alone; in particular an aborted transaction does. */
  lemma SilentStep(s: State, st: Step, k: Key)
    requires Enabled(s, st) && Effective(s, st) == []
    ensures Next(s, st).redis == s.redis
    ensures Balance(Next(s, st), k) == Balance(s, k)
  {
    if st.Finish? { SilentFinish(s, st.i, k); }
    else if st.Deliver? || st.FlushKey? { SilentCounting(s, st, k); }
    else { SilentThread(s, st, k); }
  }

  lemma ExecEffective(s: State, i: nat, k: Key)
    requires Enabled(s, Exec(i, false)) && InSync(s) && !s.procs[i].dirty
    ensures var s' := Next(s, Exec(i, false));
            var (r, d) := Apply(s.redis, Session(s.procs[i].e));
            s'.redis == r && Balance(s', k) == Balance(s, k) + Effect(d, k)
  {
    var (p, s') := (s.procs[i], Next(s, Exec(i, false)));
    assert Synced(p, s.redis.cp);
    OwingMark(s.procs, p.e.mac, k);
    OwingUpdate(Mark(s.procs, p.e.mac), i, s'.procs[i], k);
  }

  lemma TaskEffective(s: State, i: nat, k: Key)
    requires Enabled(s, TaskExec(i, false)) && InSync(s) && !s.procs[i].dirty
    ensures var s' := Next(s, TaskExec(i, false));
            var (r, d) := Apply(s.redis, Dropped(s.procs[i].mac));
            s'.redis == r && Balance(s', k) == Balance(s, k) + Effect(d, k)
  {
    var (p, s') := (s.procs[i], Next(s, TaskExec(i, false)));
    assert Synced(p, s.redis.cp);
    OwingMark(s.procs, p.mac, k);
    OwingUpdate(if p.mac in s.redis.cp then Mark(s.procs, p.mac) else s.procs, i, s'.procs[i], k);
  }

  /** A step with effect is the atomic step, and moves every balance by the atomic delta. */
  lemma EffectiveStep(s: State, st: Step, k: Key)
    requires Enabled(s, st) && InSync(s) && Effective(s, st) != []
    ensures var (r, d) := Apply(s.redis, Effective(s, st)[0]);
            Next(s, st).redis == r && Balance(Next(s, st), k) == Balance(s, k) + Effect(d, k)
  {
    match st
    case Exec(i, _) => ExecEffective(s, i, k);
    case TaskExec(i, _) => TaskEffective(s, i, k);
    case Expire(mac, _) => OwingMark(s.procs, mac, k);
  }

  // ---------- emissions ----------

  /** What a step hands to the queue. */
  function Sent(s: State, st: Step): seq<Delta>
    requires Enabled(s, st)
  {
    if st.Emit? then [s.procs[st.i].d] else []
  }

  function Times(ds: seq<Delta>, d: Delta): nat {
    if ds == [] then 0 else Times(ds[..|ds| - 1], d) + if ds[|ds| - 1] == d then 1 else 0
  }

  /** The thread's transaction went through and `d` is still to be emitted. */
  function AboutToEmit(p: Proc, d: Delta): nat {
    if p == Emitting(d) then 1 else 0
  }

  function Unsent(ps: seq<Proc>, d: Delta): nat {
    if ps == [] then 0 else Unsent(ps[..|ps| - 1], d) + AboutToEmit(ps[|ps| - 1], d)
  }

  lemma {:induction false} UnsentUpdate(ps: seq<Proc>, i: nat, p: Proc, d: Delta)
    requires i < |ps|
    ensures Unsent(ps[i := p], d) == Unsent(ps, d) - AboutToEmit(ps[i], d) + AboutToEmit(p, d)
  {
    var n := |ps| - 1;
    if i == n {
      assert ps[i := p][..n] == ps[..n];
    } else {
      assert ps[i := p][..n] == ps[..n][i := p];
      UnsentUpdate(ps[..n], i, p, d);
    }
  }

  lemma {:induction false} UnsentMark(ps: seq<Proc>, mac: Mac, d: Delta)
    ensures Unsent(Mark(ps, mac), d) == Unsent(ps, d)
  {
    if ps != [] {
      assert Mark(ps, mac)[..|ps| - 1] == Mark(ps[..|ps| - 1], mac);
      UnsentMark(ps[..|ps| - 1], mac, d);
    }
  }

  lemma {:induction false} TimesAppend(ds: seq<Delta>, e: seq<Delta>, d: Delta)
    requires |e| <= 1
    ensures Times(ds + e, d) == Times(ds, d) + Times(e, d)
  {
    if e == [] {
      assert ds + e == ds;
    } else {
      assert (ds + e)[..|ds|] == ds && e[..0] == [];
    }
  }

  lemma FinishEmissions(s: State, i: nat, d: Delta)
    requires Enabled(s, Finish(i))
    ensures Unsent(Next(s, Finish(i)).procs, d) == Unsent(s.procs, d)
  {
    var mac := s.procs[i].e.mac;
    UnsentMark(s.procs, mac, d);
    UnsentUpdate(s.procs, i, Idle, d);
    UnsentUpdate(Mark(s.procs, mac), i, Idle, d);
  }

  lemma EmitEmissions(s: State, i: nat, d: Delta)
    requires Enabled(s, Emit(i))
    ensures Times(Sent(s, Emit(i)), d) + Unsent(Next(s, Emit(i)).procs, d) == Unsent(s.procs, d)
  {
    UnsentUpdate(s.procs, i, Idle, d);
    assert Sent(s, Emit(i))[..0] == [];
  }

  /** A step without effect emits what an earlier transaction left to emit, and nothing else; an aborted one nothing. */
  lemma SilentEmissions(s: State, st: Step, d: Delta)
    requires Enabled(s, st) && Effective(s, st) == []
    ensures Times(Sent(s, st), d) + Unsent(Next(s, st).procs, d) == Unsent(s.procs, d)
  {
    if st.Finish? { FinishEmissions(s, st.i, d); }
    else if st.Emit? { EmitEmissions(s, st.i, d); }
    else if !st.Deliver? && !st.FlushKey? && !st.Expire? {
      UnsentUpdate(s.procs, st.i, Next(s, st).procs[st.i], d);
    }
  }

  /** A step with effect leaves exactly the emission of its atomic step to be emitted. */
  lemma EffectiveEmissions(s: State, st: Step, d: Delta)
    requires Enabled(s, st) && InSync(s) && Effective(s, st) != []
    ensures Sent(s, st) == []
    ensures Unsent(Next(s, st).procs, d)
            == Unsent(s.procs, d) + if Emits(s.redis, Effective(s, st)[0], d) then 1 else 0
  {
    match st
    case Exec(i, _) =>
      var mac := s.procs[i].e.mac;
      UnsentMark(s.procs, mac, d);
      UnsentUpdate(Mark(s.procs, mac), i, Next(s, st).procs[i], d);
    case TaskExec(i, _) =>
      var p := s.procs[i];
      UnsentMark(s.procs, p.mac, d);
      UnsentUpdate(if p.mac in s.redis.cp then Mark(s.procs, p.mac) else s.procs, i, Next(s, st).procs[i], d);
    case Expire(mac, _) => UnsentMark(s.procs, mac, d);
  }

  // ---------- every run ----------

  function Idles(n: nat): seq<Proc> { seq(n, _ => Idle) }

  function Empties(n: nat): seq<Counters> { seq(n, _ => map[]) }

  /** `threads` threads and `instances` counting bolts, before the first event. */
  function Init(threads: nat, instances: nat): State {
    State(EMPTY, multiset{}, Idles(threads), [], Empties(instances), map[])
  }

  datatype Outcome = Outcome(s: State, ops: seq<Op>, emitted: seq<Delta>, legal: bool)

  /** Runs the steps; `ops` collects the atomic steps in the order in which they take effect, `emitted` the emissions. */
  function Run(threads: nat, instances: nat, steps: seq<Step>): Outcome {
    if steps == [] then Outcome(Init(threads, instances), [], [], true)
    else
      var o := Run(threads, instances, steps[..|steps| - 1]);
      var st := steps[|steps| - 1];
      if o.legal && Enabled(o.s, st) then
        Outcome(Next(o.s, st), o.ops + Effective(o.s, st), o.emitted + Sent(o.s, st), true)
      else o.(legal := false)
  }

  lemma {:induction false} NothingOwed(n: nat, k: Key)
    ensures Owing(Idles(n), k) == 0
  {
    if n > 0 {
      assert Idles(n)[..n - 1] == Idles(n - 1);
      NothingOwed(n - 1, k);
    }
  }

  lemma {:induction false} NothingCached(n: nat, k: Key)
    ensures Cached(Empties(n), k) == 0
  {
    if n > 0 {
      assert Empties(n)[..n - 1] == Empties(n - 1);
      NothingCached(n - 1, k);
    }
  }

  lemma {:induction false} NothingToEmit(n: nat, d: Delta)
    ensures Unsent(Idles(n), d) == 0
  {
    if n > 0 {
      assert Idles(n)[..n - 1] == Idles(n - 1);
      NothingToEmit(n - 1, d);
    }
  }

  lemma OneMoreOp(ops: seq<Op>, op: Op)
    ensures ApplyAll(ops + [op]) == Apply(ApplyAll(ops), op).0
    ensures forall k :: Count(ops + [op], k) == Count(ops, k) + Effect(Apply(ApplyAll(ops), op).1, k)
    ensures forall d :: Emissions(ops + [op], d) == Emissions(ops, d) + if Emits(ApplyAll(ops), op, d) then 1 else 0
  {
    assert (ops + [op])[..|ops|] == ops;
  }

  lemma StepApplies(s: State, st: Step, ops: seq<Op>, k: Key)
    requires Enabled(s, st) && InSync(s) && s.redis == ApplyAll(ops) && Balance(s, k) == Count(ops, k)
    ensures var (s', ops') := (Next(s, st), ops + Effective(s, st));
            InSync(s') && s'.redis == ApplyAll(ops') && Balance(s', k) == Count(ops', k)
  {
    SyncKept(s, st);
    if Effective(s, st) == [] {
      SilentStep(s, st, k);
      assert ops + Effective(s, st) == ops;
    } else {
      EffectiveStep(s, st, k);
      OneMoreOp(ops, Effective(s, st)[0]);
    }
  }

  lemma {:induction false} RunApplies(threads: nat, instances: nat, steps: seq<Step>, k: Key)
    requires Run(threads, instances, steps).legal
    ensures var o := Run(threads, instances, steps);
            InSync(o.s) && o.s.redis == ApplyAll(o.ops) && Balance(o.s, k) == Count(o.ops, k)
  {
    if steps == [] {
      NothingOwed(threads, k);
      NothingCached(instances, k);
    } else {
      var before := steps[..|steps| - 1];
      var o := Run(threads, instances, before);
      RunApplies(threads, instances, before, k);
      StepApplies(o.s, steps[|steps| - 1], o.ops, k);
    }
  }

  lemma {:induction false} StepEmits(s: State, st: Step, ops: seq<Op>, emitted: seq<Delta>, d: Delta)
    requires Enabled(s, st) && InSync(s) && s.redis == ApplyAll(ops)
    requires Times(emitted, d) + Unsent(s.procs, d) == Emissions(ops, d)
    ensures Times(emitted + Sent(s, st), d) + Unsent(Next(s, st).procs, d) == Emissions(ops + Effective(s, st), d)
  {
    TimesAppend(emitted, Sent(s, st), d);
    if Effective(s, st) == [] {
      SilentEmissions(s, st, d);
      assert ops + Effective(s, st) == ops;
    } else {
      EffectiveEmissions(s, st, d);
      OneMoreOp(ops, Effective(s, st)[0]);
    }
  }

  /** Each delta is emitted exactly as often as the atomic run emits it, except where a thread is just about to. */
  lemma {:induction false} RunEmits(threads: nat, instances: nat, steps: seq<Step>, d: Delta)
    requires Run(threads, instances, steps).legal
    ensures var o := Run(threads, instances, steps);
            Times(o.emitted, d) + Unsent(o.s.procs, d) == Emissions(o.ops, d)
  {
    if steps == [] {
      NothingToEmit(threads, d);
    } else {
      var before := steps[..|steps| - 1];
      var o := Run(threads, instances, before);
      RunEmits(threads, instances, before, d);
      RunApplies(threads, instances, before, Total([]));
      StepEmits(o.s, steps[|steps| - 1], o.ops, o.emitted, d);
    }
  }

  /**
   * Refinement: every interleaving ends with the viewers' keys of the atomic run `ops`, with every counter,
   * in-flight parts included, at the value the atomic run gives it, and with exactly the emissions of the
   * atomic run: each is emitted once, or a thread is about to emit it.
   */
  lemma {:induction false} RunsRefineAtomicSteps(threads: nat, instances: nat, steps: seq<Step>)
    requires Run(threads, instances, steps).legal
    ensures var o := Run(threads, instances, steps);
            && InSync(o.s)
            && o.s.redis == ApplyAll(o.ops)
            && (forall k :: Balance(o.s, k) == Count(o.ops, k))
            && forall d :: Times(o.emitted, d) + Unsent(o.s.procs, d) == Emissions(o.ops, d)
  {
    var o := Run(threads, instances, steps);
    RunApplies(threads, instances, steps, Total([]));
    forall k ensures Balance(o.s, k) == Count(o.ops, k) { RunApplies(threads, instances, steps, k); }
    forall d ensures Times(o.emitted, d) + Unsent(o.s.procs, d) == Emissions(o.ops, d) {
      RunEmits(threads, instances, steps, d);
    }
  }

  /**
   * Conservation: in every reachable state `total|c`, counted with caches, undelivered deltas and pending
   * decrements, is the number of viewers whose `mac|cp` names channel `c`.
   */
  lemma {:induction false} TotalsConserved(threads: nat, instances: nat, steps: seq<Step>, c: string)
    requires Run(threads, instances, steps).legal
    ensures var s := Run(threads, instances, steps).s;
            Balance(s, Total(c)) == Viewers(s.redis.cp, Total(c))
  {
    RunApplies(threads, instances, steps, Total(c));
    TotalsExact(Run(threads, instances, steps).ops, c);
  }

  /** The same for a partner's counter, when every viewer keeps the partner of the session. */
  lemma {:induction false} PartnersConserved(threads: nat, instances: nat, steps: seq<Step>, k: Key)
    requires Run(threads, instances, steps).legal
    requires AllPartnersKept(Run(threads, instances, steps).ops)
    ensures var s := Run(threads, instances, steps).s;
            Balance(s, k) == Viewers(s.redis.cp, k)
  {
    RunApplies(threads, instances, steps, k);
    PartnersExact(Run(threads, instances, steps).ops, k);
  }

  function BalanceSum(s: State, c: string, ps: seq<string>): int {
    if ps == [] then 0 else BalanceSum(s, c, ps[..|ps| - 1]) + Balance(s, Partner(ps[|ps| - 1], c))
  }

  lemma {:induction false} BalanceSumIsCountSum(threads: nat, instances: nat, steps: seq<Step>, c: string, ps: seq<string>)
    requires Run(threads, instances, steps).legal
    ensures var o := Run(threads, instances, steps);
            BalanceSum(o.s, c, ps) == CountSum(o.ops, c, ps)
  {
    if ps != [] {
      BalanceSumIsCountSum(threads, instances, steps, c, ps[..|ps| - 1]);
      RunApplies(threads, instances, steps, Partner(ps[|ps| - 1], c));
    }
  }

  /** The partner counters of a channel always add up to its total. */
  lemma {:induction false} PartnersAddUp(threads: nat, instances: nat, steps: seq<Step>, c: string, ps: seq<string>)
    requires Run(threads, instances, steps).legal
    requires Distinct(ps) && PartnersAmong(Run(threads, instances, steps).ops, ps)
    ensures var s := Run(threads, instances, steps).s;
            Balance(s, Total(c)) == BalanceSum(s, c, ps)
  {
    RunApplies(threads, instances, steps, Total(c));
    BalanceSumIsCountSum(threads, instances, steps, c, ps);
    PartnerBreakdown(Run(threads, instances, steps).ops, c, ps);
  }

  /** Nothing on its way: no emission or decrement pending, queue and caches empty. */
  predicate Quiet(s: State) {
    && (forall i :: 0 <= i < |s.procs| ==> !s.procs[i].Emitting? && !s.procs[i].OwesBoth? && !s.procs[i].OwesPartner?)
    && s.queue == []
    && (forall j :: 0 <= j < |s.caches| ==> s.caches[j] == map[])
  }

  lemma {:induction false} QuietOwes(ps: seq<Proc>, k: Key)
    requires forall i :: 0 <= i < |ps| ==> !ps[i].Emitting? && !ps[i].OwesBoth? && !ps[i].OwesPartner?
    ensures Owing(ps, k) == 0
  {
    if ps != [] { QuietOwes(ps[..|ps| - 1], k); }
  }

  lemma {:induction false} QuietCaches(cs: seq<Counters>, k: Key)
    requires forall j :: 0 <= j < |cs| ==> cs[j] == map[]
    ensures Cached(cs, k) == 0
  {
    if cs != [] { QuietCaches(cs[..|cs| - 1], k); }
  }

  /** At rest every stored total is exact, and so never negative. */
  lemma QuietTotalsExact(threads: nat, instances: nat, steps: seq<Step>, c: string)
    requires Run(threads, instances, steps).legal && Quiet(Run(threads, instances, steps).s)
    ensures var s := Run(threads, instances, steps).s;
            Value(s.counts, Total(c)) == Viewers(s.redis.cp, Total(c)) >= 0
  {
    var s := Run(threads, instances, steps).s;
    TotalsConserved(threads, instances, steps, c);
    QuietOwes(s.procs, Total(c));
    QuietCaches(s.caches, Total(c));
  }
}
