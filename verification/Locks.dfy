/**
 * Timed mutual exclusion between spouts. A lock file names its last writer and the time of its last
 * entry; an entry older than the timeout may be taken over by a spout that holds the directory lock. The
 * directory lock is itself a file that may be taken over when it has grown old, in three separate steps.
 */
module Locks {
  import opened Common

  type Spout = nat
  type File = string

  datatype DirFile = DirFile(gen: nat, modified: nat)

  datatype Entry = Entry(writer: Spout, time: nat)

  /** Where a spout stands with the directory lock; a spout without a phase does not hold it. */
  datatype Phase =
    | Examined(gen: nat)
    | Deleted
    | Holding(gen: nat, since: nat, stale: Option<File>)

  datatype State = State(
    now: nat,
    alive: set<Spout>,
    dir: Option<DirFile>,
    nextGen: nat,
    phase: map<Spout, Phase>,
    locks: map<File, Entry>,
    owns: set<(Spout, File)>)

  const START := State(0, {}, None, 0, map[], map[], {})

  datatype Step =
    | Join(s: Spout)
    | Die(s: Spout)
    | Tick
    | DirTry(s: Spout)
    | DirExamine(s: Spout)
    | DirDelete(s: Spout)
    | DirCreate(s: Spout)
    | DirRelease(s: Spout)
    | Scan(s: Spout, f: File)
    | Take(s: Spout, f: File)
    | TryLock(s: Spout, f: File)
    | Heartbeat(s: Spout, f: File)
    | Release(s: Spout, f: File)

  predicate Holds(st: State, s: Spout) {
    s in st.alive && s in st.phase && st.phase[s].Holding?
  }

  predicate Owns(st: State, s: Spout, f: File) {
    s in st.alive && (s, f) in st.owns
  }

  predicate Enabled(st: State, e: Step, timeout: nat) {
    match e
    case Join(s) => s !in st.alive && s !in st.phase && forall p :: p in st.owns ==> p.0 != s
    case Tick => true
    case Die(s) => s in st.alive
    case DirTry(s) => s in st.alive && s !in st.phase
    case DirExamine(s) => s in st.alive && s !in st.phase && st.dir.Some? && st.dir.value.modified + timeout <= st.now
    case DirDelete(s) => s in st.alive && s in st.phase && st.phase[s].Examined?
    case DirCreate(s) => s in st.alive && s in st.phase && st.phase[s].Deleted?
    case DirRelease(s) => Holds(st, s)
    case Scan(s, f) => Holds(st, s) && f in st.locks && st.locks[f].time + timeout <= st.now
    case Take(s, f) => Holds(st, s) && st.phase[s].stale == Some(f)
    case TryLock(s, f) => s in st.alive
    case Heartbeat(s, f) => Owns(st, s, f)
    case Release(s, f) => Owns(st, s, f)
  }

  function Next(st: State, e: Step): State {
    match e
    case Join(s) => st.(alive := st.alive + {s})
    case Die(s) => st.(alive := st.alive - {s})
    case Tick => st.(now := st.now + 1)
    case DirTry(s) =>
      if st.dir.Some? then st
      else st.(dir := Some(DirFile(st.nextGen, st.now)), nextGen := st.nextGen + 1,
               phase := st.phase[s := Holding(st.nextGen, st.now, None)])
    case DirExamine(s) => if st.dir.Some? then st.(phase := st.phase[s := Examined(st.dir.value.gen)]) else st
    case DirDelete(s) =>
      if st.dir.None? then st.(phase := st.phase - {s}) else st.(dir := None, phase := st.phase[s := Deleted])
    case DirCreate(s) =>
      // The lock is handed out whether or not the file could be created.
      st.(dir := if st.dir.Some? then st.dir else Some(DirFile(st.nextGen, st.now)), nextGen := st.nextGen + 1,
          phase := st.phase[s := Holding(st.nextGen, st.now, None)])
    case DirRelease(s) => st.(dir := None, phase := st.phase - {s})
    case Scan(s, f) =>
      if s in st.phase && st.phase[s].Holding? then st.(phase := st.phase[s := st.phase[s].(stale := Some(f))]) else st
    case Take(s, f) =>
      var st1 := if s in st.phase && st.phase[s].Holding?
                 then st.(phase := st.phase[s := st.phase[s].(stale := None)]) else st;
      if f in st.locks then st1.(locks := st.locks[f := Entry(s, st.now)], owns := st.owns + {(s, f)}) else st1
    case TryLock(s, f) =>
      if f in st.locks then st else st.(locks := st.locks[f := Entry(s, st.now)], owns := st.owns + {(s, f)})
    case Heartbeat(s, f) => if f in st.locks then st.(locks := st.locks[f := Entry(s, st.now)]) else st
    case Release(s, f) => st.(locks := st.locks - {f}, owns := st.owns - {(s, f)})
  }

  /**
   * What the code relies on and does not enforce. Time passes only as far as every live spout has logged
   * to its files, and released the directory, within the timeout; a takeover of the directory lock deletes
   * the file it examined and not a newer one, and is the first to create the file anew.
   */
  predicate Timely(st: State, e: Step, timeout: nat) {
    match e
    case Tick =>
      && (forall p :: p in st.owns && p.0 in st.alive && p.1 in st.locks ==> st.now + 1 < st.locks[p.1].time + timeout)
      && (forall s :: s in st.phase && s in st.alive && st.phase[s].Holding? ==> st.now + 1 < st.phase[s].since + timeout)
    case DirDelete(s) => s in st.phase && st.phase[s].Examined? && st.dir.Some? ==> st.dir.value.gen == st.phase[s].gen
    case DirCreate(_) => st.dir.None?
    case _ => true
  }

  // ---------- the invariant ----------

  /** A live holder of the directory lock made the present file, and recently. */
  ghost predicate DirSafe(st: State, timeout: nat) {
    && (forall s :: Holds(st, s) ==>
          && st.dir == Some(DirFile(st.phase[s].gen, st.phase[s].since))
          && st.now < st.phase[s].since + timeout)
    && (forall s, t :: Holds(st, s) && Holds(st, t) ==> s == t)
  }

  /** A file examined as old and still in place is still old. */
  ghost predicate ExaminedOld(st: State, timeout: nat) {
    && (st.dir.Some? ==> st.dir.value.gen < st.nextGen)
    && (forall s :: s in st.phase && st.phase[s].Examined? ==> st.phase[s].gen < st.nextGen)
    && (forall s :: s in st.phase && st.phase[s].Examined? && st.dir.Some? && st.dir.value.gen == st.phase[s].gen ==>
          st.dir.value.modified + timeout <= st.now)
  }

  /** A live owner wrote the last entry of its lock file, and recently. */
  ghost predicate FilesSafe(st: State, timeout: nat) {
    forall s, f :: Owns(st, s, f) ==> f in st.locks && st.locks[f].writer == s && st.now < st.locks[f].time + timeout
  }

  /** A lock file about to be taken over is there and has no live owner. */
  ghost predicate ScannedFree(st: State) {
    forall s :: Holds(st, s) && st.phase[s].stale.Some? ==>
      var f := st.phase[s].stale.value;
      f in st.locks && forall t :: !Owns(st, t, f)
  }

  ghost predicate Inv(st: State, timeout: nat) {
    DirSafe(st, timeout) && ExaminedOld(st, timeout) && FilesSafe(st, timeout) && ScannedFree(st)
  }

  /** Who holds the directory after a step held it before, unchanged, or has just made the file. */
  lemma HeldBefore(st: State, e: Step, timeout: nat, x: Spout)
    requires Enabled(st, e, timeout) && Timely(st, e, timeout) && Holds(Next(st, e), x)
    ensures var p := Next(st, e).phase[x];
            || (Holds(st, x) && st.phase[x].gen == p.gen && st.phase[x].since == p.since)
            || ((e.DirTry? || e.DirCreate?) && e.s == x && st.dir == None && p == Holding(st.nextGen, st.now, None)
                && Next(st, e).dir == Some(DirFile(st.nextGen, st.now)))
    ensures !(Holds(st, x) && (e.DirTry? || e.DirCreate?) && e.s == x && st.dir == None)
  {
  }

  /** Who owns a lock file after a step owned it before or has just written its entry. */
  lemma OwnedBefore(st: State, e: Step, timeout: nat, x: Spout, f: File)
    requires Enabled(st, e, timeout) && Owns(Next(st, e), x, f)
    ensures Owns(st, x, f) || ((e.Take? || e.TryLock?) && e.s == x && e.f == f && Next(st, e).locks[f] == Entry(x, st.now))
  {
  }

  lemma DirSafeKept(st: State, e: Step, timeout: nat)
    requires Inv(st, timeout) && Enabled(st, e, timeout) && Timely(st, e, timeout) && timeout > 0
    ensures DirSafe(Next(st, e), timeout)
  {
    var st' := Next(st, e);
    forall x | Holds(st', x)
      ensures st'.dir == Some(DirFile(st'.phase[x].gen, st'.phase[x].since)) && st'.now < st'.phase[x].since + timeout
    {
      HeldBefore(st, e, timeout, x);
    }
    forall x, y | Holds(st', x) && Holds(st', y) ensures x == y {
      HeldBefore(st, e, timeout, x);
      HeldBefore(st, e, timeout, y);
    }
  }

  lemma {:induction false} ExaminedOldKept(st: State, e: Step, timeout: nat)
    requires Inv(st, timeout) && Enabled(st, e, timeout) && Timely(st, e, timeout) && timeout > 0
    ensures ExaminedOld(Next(st, e), timeout)
  {
  }

  lemma FilesSafeKept(st: State, e: Step, timeout: nat)
    requires Inv(st, timeout) && Enabled(st, e, timeout) && Timely(st, e, timeout) && timeout > 0
    ensures FilesSafe(Next(st, e), timeout)
  {
    var st' := Next(st, e);
    forall x, f | Owns(st', x, f)
      ensures f in st'.locks && st'.locks[f].writer == x && st'.now < st'.locks[f].time + timeout
    {
      OwnedBefore(st, e, timeout, x, f);
      if Owns(st, x, f) {
        assert (x, f).0 == x && (x, f).1 == f && (x, f) in st.owns;
        if e.Heartbeat? || e.Release? { assert Owns(st, e.s, e.f); }
      }
    }
  }

  lemma ScannedFreeKept(st: State, e: Step, timeout: nat)
    requires Inv(st, timeout) && Enabled(st, e, timeout) && Timely(st, e, timeout) && timeout > 0
    ensures ScannedFree(Next(st, e))
  {
    var st' := Next(st, e);
    forall x | Holds(st', x) && st'.phase[x].stale.Some?
      ensures st'.phase[x].stale.value in st'.locks && forall t :: !Owns(st', t, st'.phase[x].stale.value)
    {
      var f := st'.phase[x].stale.value;
      HeldBefore(st, e, timeout, x);
      if e.Take? || e.Scan? { assert Holds(st, e.s) && e.s == x; }
      if e.Release? { assert Owns(st, e.s, e.f); }
      forall t ensures !Owns(st', t, f) {
        if Owns(st', t, f) { OwnedBefore(st, e, timeout, t, f); }
      }
    }
  }

  lemma {:induction false} StepKeeps(st: State, e: Step, timeout: nat)
    requires Inv(st, timeout) && Enabled(st, e, timeout) && Timely(st, e, timeout) && timeout > 0
    ensures Inv(Next(st, e), timeout)
  {
    DirSafeKept(st, e, timeout);
    ExaminedOldKept(st, e, timeout);
    FilesSafeKept(st, e, timeout);
    ScannedFreeKept(st, e, timeout);
  }

  // ---------- every run ----------

  function Run(steps: seq<Step>): State {
    if steps == [] then START else Next(Run(steps[..|steps| - 1]), steps[|steps| - 1])
  }

  predicate TimelyRun(steps: seq<Step>, timeout: nat) {
    steps != [] ==>
      var before := steps[..|steps| - 1];
      var e := steps[|steps| - 1];
      TimelyRun(before, timeout) && Enabled(Run(before), e, timeout) && Timely(Run(before), e, timeout)
  }

  lemma {:induction false} RunKeeps(steps: seq<Step>, timeout: nat)
    requires TimelyRun(steps, timeout) && timeout > 0
    ensures Inv(Run(steps), timeout)
  {
    if steps != [] {
      var before := steps[..|steps| - 1];
      RunKeeps(before, timeout);
      StepKeeps(Run(before), steps[|steps| - 1], timeout);
    }
  }

  /** Mutual exclusion: at every step of a timely run no lock file, and not the directory, has two live owners. */
  lemma {:induction false} MutualExclusion(steps: seq<Step>, timeout: nat, s: Spout, t: Spout, f: File)
    requires TimelyRun(steps, timeout) && timeout > 0
    ensures Owns(Run(steps), s, f) && Owns(Run(steps), t, f) ==> s == t
    ensures Holds(Run(steps), s) && Holds(Run(steps), t) ==> s == t
  {
    RunKeeps(steps, timeout);
  }

  /**
   * Recovery: in any state a timely run reaches with the directory free, an idle live spout can take a lock
   * over exactly when its last entry is at least `timeout` old; nobody alive then owned it.
   */
  lemma {:induction false} TakenOverIff(steps: seq<Step>, timeout: nat, s: Spout, f: File)
    requires TimelyRun(steps, timeout) && timeout > 0
    requires var st := Run(steps); s in st.alive && s !in st.phase && st.dir.None? && f in st.locks
    ensures var (st, takeover) := (Run(steps), steps + [DirTry(s)] + [Scan(s, f)] + [Take(s, f)]);
            && (TimelyRun(takeover, timeout) <==> st.locks[f].time + timeout <= st.now)
            && (TimelyRun(takeover, timeout) ==>
                  && Owns(Run(takeover), s, f)
                  && f in Run(takeover).locks && Run(takeover).locks[f] == Entry(s, st.now)
                  && forall t :: !Owns(st, t, f))
  {
    RunKeeps(steps, timeout);
    Then(steps, DirTry(s), timeout);
    Then(steps + [DirTry(s)], Scan(s, f), timeout);
    Then(steps + [DirTry(s)] + [Scan(s, f)], Take(s, f), timeout);
  }

  lemma Then(steps: seq<Step>, e: Step, timeout: nat)
    ensures Run(steps + [e]) == Next(Run(steps), e)
    ensures TimelyRun(steps + [e], timeout) <==>
              TimelyRun(steps, timeout) && Enabled(Run(steps), e, timeout) && Timely(Run(steps), e, timeout)
  {
    assert (steps + [e])[..|steps|] == steps;
  }

  /** An entry written now keeps everybody else away until `timeout` has passed. */
  lemma HeartbeatRenews(st: State, s: Spout, f: File, timeout: nat, t: Spout, later: nat)
    requires Enabled(st, Heartbeat(s, f), timeout) && f in st.locks
    requires Holds(st, t)
    ensures Enabled(Next(st, Heartbeat(s, f)).(now := later), Scan(t, f), timeout) <==> st.now + timeout <= later
  {
  }

  /** A lock that its owner has released is anybody's. */
  lemma ReleasedIsFree(st: State, s: Spout, f: File, timeout: nat, t: Spout)
    requires Enabled(st, Release(s, f), timeout) && t in st.alive
    ensures var st1 := Next(Next(st, Release(s, f)), TryLock(t, f));
            Owns(st1, t, f) && f in st1.locks && st1.locks[f] == Entry(t, st.now) && (t != s ==> !Owns(st1, s, f))
  {
  }

  /** The last step of a takeover keeps the directory lock sound exactly when it wins the creation. */
  lemma CreateSafeIff(st: State, s: Spout, timeout: nat)
    requires Inv(st, timeout) && Enabled(st, DirCreate(s), timeout) && timeout > 0
    ensures DirSafe(Next(st, DirCreate(s)), timeout) <==> st.dir.None?
  {
    var st' := Next(st, DirCreate(s));
    if st.dir.None? {
      StepKeeps(st, DirCreate(s), timeout);
    } else {
      assert Holds(st', s);
    }
  }

  /** A live spout holds the directory by the file of this generation. */
  ghost predicate HeldBy(st: State, gen: nat) {
    exists t :: Holds(st, t) && st.phase[t].gen == gen
  }

  /**
   * The delete of a takeover keeps the directory lock sound iff the file is the one it examined, or a newer
   * one whose maker no longer holds it: so deleting only what was examined is always safe.
   */
  lemma DeleteSafeIff(st: State, s: Spout, timeout: nat)
    requires Inv(st, timeout) && Enabled(st, DirDelete(s), timeout) && st.dir.Some? && timeout > 0
    ensures DirSafe(Next(st, DirDelete(s)), timeout)
            <==> st.dir.value.gen == st.phase[s].gen || !HeldBy(st, st.dir.value.gen)
    ensures st.dir.value.gen == st.phase[s].gen ==> forall t :: !Holds(st, t)
  {
    var st' := Next(st, DirDelete(s));
    forall t | Holds(st, t) ensures st.dir.value.gen == st.phase[t].gen != st.phase[s].gen && Holds(st', t) {
      assert t != s;
    }
    assert forall t :: Holds(st', t) ==> Holds(st, t);
  }

  /** Two idle live spouts, an old directory lock, and a lock file whose last entry is old. */
  ghost predicate RaceOpen(st: State, x: Spout, y: Spout, f: File, timeout: nat) {
    && x != y && x in st.alive && y in st.alive && x !in st.phase && y !in st.phase
    && st.dir.Some? && st.dir.value.modified + timeout <= st.now
    && f in st.locks && st.locks[f].time + timeout <= st.now
  }

  function BothExamine(st: State, x: Spout, y: Spout): State {
    Next(Next(st, DirExamine(x)), DirExamine(y))
  }

  function FinishTakeover(st: State, x: Spout): State {
    Next(Next(st, DirDelete(x)), DirCreate(x))
  }

  predicate MayFinish(st: State, x: Spout, timeout: nat) {
    Enabled(st, DirDelete(x), timeout) && Enabled(Next(st, DirDelete(x)), DirCreate(x), timeout)
  }

  lemma FinishedTakeover(st: State, x: Spout, timeout: nat)
    requires x in st.alive && x in st.phase && st.phase[x].Examined? && st.dir.Some?
    ensures MayFinish(st, x, timeout) && Holds(FinishTakeover(st, x), x)
    ensures FinishTakeover(st, x).dir.Some?
    ensures var st' := FinishTakeover(st, x);
            st'.phase == st.phase[x := Holding(st.nextGen, st.now, None)]
            && st'.alive == st.alive && st'.locks == st.locks && st'.now == st.now
  {
  }

  /**
   * Without the guard both rivals win: each examines the old lock, the first takes over, the second deletes
   * the first one's new file and takes over as well. Both hold the directory, both have found the same lock
   * file old, and both end up owning it.
   */
  lemma {:induction false} RacingTakeovers(st: State, x: Spout, y: Spout, f: File, timeout: nat)
    requires RaceOpen(st, x, y, f, timeout)
    ensures Enabled(st, DirExamine(x), timeout) && Enabled(Next(st, DirExamine(x)), DirExamine(y), timeout)
    ensures var st1 := BothExamine(st, x, y);
            var st2 := FinishTakeover(st1, x);
            var st3 := FinishTakeover(st2, y);
            && MayFinish(st1, x, timeout) && MayFinish(st2, y, timeout)
            && Holds(st3, x) && Holds(st3, y)
            && Enabled(st3, Scan(x, f), timeout) && Enabled(Next(st3, Scan(x, f)), Scan(y, f), timeout)
            && BothOwn(Next(Next(st3, Scan(x, f)), Scan(y, f)), x, y, f, timeout)
  {
    var st1 := BothExamine(st, x, y);
    FinishedTakeover(st1, x, timeout);
    var st2 := FinishTakeover(st1, x);
    FinishedTakeover(st2, y, timeout);
    BothScan(FinishTakeover(st2, y), x, y, f, timeout);
  }

  /** Both spouts may take the file now, and after both have, both own it. */
  predicate BothOwn(st: State, x: Spout, y: Spout, f: File, timeout: nat) {
    var st1 := Next(st, Take(x, f));
    var st2 := Next(st1, Take(y, f));
    Enabled(st, Take(x, f), timeout) && Enabled(st1, Take(y, f), timeout) && Owns(st2, x, f) && Owns(st2, y, f)
  }

  lemma BothScan(st: State, x: Spout, y: Spout, f: File, timeout: nat)
    requires x != y && Holds(st, x) && Holds(st, y) && f in st.locks && st.locks[f].time + timeout <= st.now
    ensures Enabled(st, Scan(x, f), timeout) && Enabled(Next(st, Scan(x, f)), Scan(y, f), timeout)
    ensures BothOwn(Next(Next(st, Scan(x, f)), Scan(y, f)), x, y, f, timeout)
  {
  }

  /** Spout 2 takes the directory and a lock file and dies; spouts 0 and 1 are there. */
  function Abandoned(f: File): seq<Step> {
    [Join(0), Join(1), Join(2), DirTry(2), TryLock(2, f), Die(2)]
  }

  function Ticks(n: nat): seq<Step> {
    if n == 0 then [] else Ticks(n - 1) + [Tick]
  }

  lemma OneMore(steps: seq<Step>, e: Step, timeout: nat)
    ensures Run(steps + [e]) == Next(Run(steps), e)
    ensures TimelyRun(steps + [e], timeout)
            <==> TimelyRun(steps, timeout) && Enabled(Run(steps), e, timeout) && Timely(Run(steps), e, timeout)
  {
    assert (steps + [e])[..|steps|] == steps;
  }

  const JOINED: seq<Step> := [Join(0), Join(1), Join(2)]

  lemma ThreeJoin(timeout: nat)
    ensures TimelyRun(JOINED, timeout) && Run(JOINED) == START.(alive := {0, 1, 2})
  {
    assert [] + [Join(0)] == [Join(0)] && [Join(0)] + [Join(1)] == [Join(0), Join(1)];
    assert [Join(0), Join(1)] + [Join(2)] == JOINED;
    OneMore([], Join(0), timeout);
    OneMore([Join(0)], Join(1), timeout);
    OneMore([Join(0), Join(1)], Join(2), timeout);
  }

  lemma AbandonedRun(f: File, timeout: nat)
    ensures TimelyRun(Abandoned(f), timeout)
    ensures Run(Abandoned(f)) == State(0, {0, 1}, Some(DirFile(0, 0)), 1, map[2 := Holding(0, 0, None)],
                                       map[f := Entry(2, 0)], {(2, f)})
  {
    ThreeJoin(timeout);
    assert Abandoned(f) == JOINED + [DirTry(2)] + [TryLock(2, f)] + [Die(2)];
    OneMore(JOINED, DirTry(2), timeout);
    OneMore(JOINED + [DirTry(2)], TryLock(2, f), timeout);
    OneMore(JOINED + [DirTry(2)] + [TryLock(2, f)], Die(2), timeout);
    assert {0, 1, 2} - {2} == {0, 1};
  }

  /** Nobody alive owns or holds anything. */
  ghost predicate Unwatched(st: State) {
    (forall p :: p in st.owns ==> p.0 !in st.alive) && forall s :: s in st.phase ==> s !in st.alive
  }

  lemma TickPasses(st: State, timeout: nat)
    requires Unwatched(st)
    ensures Enabled(st, Tick, timeout) && Timely(st, Tick, timeout)
    ensures Next(st, Tick) == st.(now := st.now + 1) && Unwatched(Next(st, Tick))
  {
  }

  /** A timely run after which nobody is watching, with the state it ends in. */
  ghost predicate EndsUnwatched(steps: seq<Step>, timeout: nat, st: State) {
    TimelyRun(steps, timeout) && Run(steps) == st && Unwatched(st)
  }

  lemma OneTick(steps: seq<Step>, timeout: nat, st: State)
    requires EndsUnwatched(steps, timeout, st)
    ensures EndsUnwatched(steps + [Tick], timeout, st.(now := st.now + 1))
  {
    TickPasses(st, timeout);
    OneMore(steps, Tick, timeout);
  }

  lemma TicksAppend(steps: seq<Step>, n: nat)
    requires n > 0
    ensures steps + Ticks(n) == (steps + Ticks(n - 1)) + [Tick]
  {
  }

  /** Time may then pass as long as it likes. */
  lemma {:induction false} TicksPass(steps: seq<Step>, n: nat, timeout: nat, st: State)
    requires EndsUnwatched(steps, timeout, st)
    ensures EndsUnwatched(steps + Ticks(n), timeout, st.(now := st.now + n))
    decreases n
  {
    if n == 0 {
      assert steps + Ticks(0) == steps;
    } else {
      TicksPass(steps, n - 1, timeout, st);
      OneTick(steps + Ticks(n - 1), timeout, st.(now := st.now + (n - 1)));
      TicksAppend(steps, n);
    }
  }

  /** For every timeout a timely run from the start opens the race. */
  lemma {:induction false} RaceReached(f: File, timeout: nat)
    ensures var steps := Abandoned(f) + Ticks(timeout);
            TimelyRun(steps, timeout) && RaceOpen(Run(steps), 0, 1, f, timeout)
  {
    AbandonedRun(f, timeout);
    TicksPass(Abandoned(f), timeout, timeout, Run(Abandoned(f)));
  }
}
