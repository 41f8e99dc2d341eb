/**
 * What a viewer counter says about viewers whose key is still alive. `mac` expires by itself, `mac|cp` is
 * removed by an expiry handler (`TriggerTask`): the two keys of a viewer agree again once it is through, provided the
 * handler was not late and its transaction was not refused for nothing.
 */
module LiveCounts {
  import opened Common
  import opened Sessions
  import opened CounterRuns

  /** An expiry task for `mac` whose transaction would still go through. */
  predicate CleanTask(p: Proc, mac: Mac) {
    (p.TaskWatching? || p.TaskHolding?) && p.mac == mac && !p.dirty
  }

  ghost predicate TaskAt(ps: seq<Proc>, i: nat, mac: Mac) {
    i < |ps| && CleanTask(ps[i], mac)
  }

  /** Somebody is still going to remove the session of `mac`. */
  ghost predicate Pending(s: State, mac: Mac) {
    mac in s.notices || exists i :: TaskAt(s.procs, i, mac)
  }

  /** Every live viewer has a session. */
  ghost predicate LiveHaveSessions(s: State) {
    forall m :: m in s.redis.live ==> m in s.redis.cp
  }

  /** No expiry task is about to remove the session of a live viewer. */
  ghost predicate TasksBehind(s: State) {
    forall i, m :: TaskAt(s.procs, i, m) ==> m !in s.redis.live
  }

  /** Every session belongs to a live viewer or is about to be removed. */
  ghost predicate SessionsCovered(s: State) {
    forall m :: m in s.redis.cp ==> m in s.redis.live || Pending(s, m)
  }

  ghost predicate Faithful(s: State) {
    LiveHaveSessions(s) && TasksBehind(s) && SessionsCovered(s)
  }

  /** The notice is acted on after the viewer has come back: `run` does not look whether `mac` exists again. */
  predicate Late(s: State, st: Step) {
    st.TaskWatch? && st.mac in s.redis.live
  }

  /** A refused transaction is not tried again, and this handler was the last to know of the expired session. */
  ghost predicate Forgets(s: State, st: Step)
    requires Enabled(s, st)
  {
    st.TaskExec? && st.disturbed &&
    var p := s.procs[st.i];
    !p.dirty && p.mac in s.redis.cp && p.mac !in s.redis.live && p.mac !in s.notices
    && !exists j :: j != st.i && TaskAt(s.procs, j, p.mac)
  }

  lemma MarkedTask(ps: seq<Proc>, mac: Mac, i: nat, m: Mac)
    ensures TaskAt(Mark(ps, mac), i, m) <==> TaskAt(ps, i, m) && m != mac
  {
  }

  lemma LiveHaveSessionsKept(s: State, st: Step)
    requires Enabled(s, st) && Faithful(s)
    ensures LiveHaveSessions(Next(s, st))
  {
    if st.TaskExec? { assert !s.procs[st.i].dirty ==> TaskAt(s.procs, st.i, s.procs[st.i].mac); }
  }

  /** Which tasks are clean after a step. */
  lemma TaskAfter(s: State, st: Step, i: nat, m: Mac)
    requires Enabled(s, st) && TaskAt(Next(s, st).procs, i, m)
    ensures TaskAt(s.procs, i, m) || (st.TaskWatch? && st.i == i && st.mac == m)
    ensures m in Next(s, st).redis.live ==> m in s.redis.live
  {
    match st
    case Exec(n, _) => MarkedTask(s.procs, s.procs[n].e.mac, i, m);
    case Finish(n) => MarkedTask(s.procs, s.procs[n].e.mac, i, m);
    case Expire(mac, _) => MarkedTask(s.procs, mac, i, m);
    case TaskExec(n, _) => MarkedTask(s.procs, s.procs[n].mac, i, m);
    case _ =>
  }

  lemma TasksBehindKeptIff(s: State, st: Step)
    requires Enabled(s, st) && Faithful(s)
    ensures TasksBehind(Next(s, st)) <==> !Late(s, st)
  {
    forall i, m | !Late(s, st) && TaskAt(Next(s, st).procs, i, m) ensures m !in Next(s, st).redis.live {
      TaskAfter(s, st, i, m);
    }
    if Late(s, st) { assert TaskAt(Next(s, st).procs, st.i, st.mac); }
  }

  /** A session that is pending stays pending, unless its viewer is live again, it is gone, or it is forgotten. */
  lemma StillPending(s: State, st: Step, m: Mac)
    requires Enabled(s, st) && !Forgets(s, st) && Pending(s, m)
    requires m in s.redis.cp && m !in s.redis.live && m in Next(s, st).redis.cp && m !in Next(s, st).redis.live
    ensures Pending(Next(s, st), m)
  {
    if m in s.notices {
      if st.TaskWatch? && st.mac == m { assert TaskAt(Next(s, st).procs, st.i, m); }
    } else {
      var i :| TaskAt(s.procs, i, m);
      if st.TaskExec? && st.i == i {
        var j :| j != i && TaskAt(s.procs, j, m);
        assert TaskAt(Next(s, st).procs, j, m);
      } else {
        TaskStays(s, st, i, m);
      }
    }
  }

  lemma {:induction false} TaskStays(s: State, st: Step, i: nat, m: Mac)
    requires Enabled(s, st) && TaskAt(s.procs, i, m) && m !in s.redis.live && !(st.TaskExec? && st.i == i)
    requires m in s.redis.cp && m in Next(s, st).redis.cp && m !in Next(s, st).redis.live
    ensures TaskAt(Next(s, st).procs, i, m)
  {
    match st
    case Exec(n, _) => MarkedTask(s.procs, s.procs[n].e.mac, i, m);
    case Finish(n) => MarkedTask(s.procs, s.procs[n].e.mac, i, m);
    case Expire(mac, _) => MarkedTask(s.procs, mac, i, m);
    case TaskExec(n, _) => MarkedTask(s.procs, s.procs[n].mac, i, m);
    case _ =>
  }

  lemma SessionsCoveredKeptIff(s: State, st: Step)
    requires Enabled(s, st) && Faithful(s)
    ensures SessionsCovered(Next(s, st)) <==> !Forgets(s, st)
  {
    var s' := Next(s, st);
    if Forgets(s, st) {
      var m := s.procs[st.i].mac;
      forall j ensures !TaskAt(s'.procs, j, m) {
        if TaskAt(s'.procs, j, m) { TaskAfter(s, st, j, m); }
      }
      assert !Pending(s', m);
    } else {
      forall m | m in s'.redis.cp && m !in s'.redis.live ensures Pending(s', m) {
        if st.Expire? && st.mac == m {
        } else {
          StillPending(s, st, m);
        }
      }
    }
  }

  /** Exactly the late task and the forgotten one make the two keys of a viewer part. */
  lemma StepFaithfulIff(s: State, st: Step)
    requires Enabled(s, st) && Faithful(s)
    ensures Faithful(Next(s, st)) <==> !Late(s, st) && !Forgets(s, st)
  {
    LiveHaveSessionsKept(s, st);
    TasksBehindKeptIff(s, st);
    SessionsCoveredKeptIff(s, st);
  }

  ghost predicate TimelyRun(threads: nat, instances: nat, steps: seq<Step>) {
    steps != [] ==>
      var before := steps[..|steps| - 1];
      var o := Run(threads, instances, before);
      TimelyRun(threads, instances, before)
      && (o.legal && Enabled(o.s, steps[|steps| - 1]) ==>
            !Late(o.s, steps[|steps| - 1]) && !Forgets(o.s, steps[|steps| - 1]))
  }

  lemma {:induction false} RunFaithful(threads: nat, instances: nat, steps: seq<Step>)
    requires Run(threads, instances, steps).legal && TimelyRun(threads, instances, steps)
    ensures Faithful(Run(threads, instances, steps).s)
  {
    if steps != [] {
      var before := steps[..|steps| - 1];
      RunFaithful(threads, instances, before);
      StepFaithfulIff(Run(threads, instances, before).s, steps[|steps| - 1]);
    }
  }

  /** The live viewers of a channel. */
  ghost function Watching(s: State, c: string): set<Mac> {
    set m | m in s.redis.live && m in s.redis.cp && s.redis.cp[m].channel == c
  }

  /** At rest, with every expiry dealt with, each stored total is the number of live viewers of the channel. */
  lemma {:induction false} QuietTotalsCountLive(threads: nat, instances: nat, steps: seq<Step>, c: string)
    requires Run(threads, instances, steps).legal && TimelyRun(threads, instances, steps)
    requires Quiet(Run(threads, instances, steps).s)
    requires forall m :: !Pending(Run(threads, instances, steps).s, m)
    ensures var s := Run(threads, instances, steps).s;
            s.redis.cp.Keys == s.redis.live && Value(s.counts, Total(c)) == |Watching(s, c)|
  {
    var s := Run(threads, instances, steps).s;
    RunFaithful(threads, instances, steps);
    QuietTotalsExact(threads, instances, steps, c);
    assert Watching(s, c) == Macs(s.redis.cp, Total(c));
  }

  // ---------- both failing steps are reached ----------

  lemma OneMore(steps: seq<Step>, st: Step)
    ensures var o := Run(2, 1, steps);
            Run(2, 1, steps + [st])
            == if o.legal && Enabled(o.s, st) then
                 Outcome(Next(o.s, st), o.ops + Effective(o.s, st), o.emitted + Sent(o.s, st), true)
               else o.(legal := false)
  {
    assert (steps + [st])[..|steps|] == steps;
  }

  /** A legal run of two threads that ends in this state. */
  ghost predicate Reaches(steps: seq<Step>, s: State) {
    Run(2, 1, steps).legal && Run(2, 1, steps).s == s
  }

  lemma StepReaches(steps: seq<Step>, s: State, st: Step)
    requires Reaches(steps, s) && Enabled(s, st)
    ensures Reaches(steps + [st], Next(s, st))
  {
    OneMore(steps, st);
  }

  /** Thread 0 handles one event without being disturbed. */
  function Handle(e: Event): seq<Step> { [Watch(0, e), Get(0), Exec(0, false)] }

  lemma {:induction false} ThreeReach(steps: seq<Step>, s: State, a: Step, b: Step, c: Step)
    requires Reaches(steps, s) && Enabled(s, a) && Enabled(Next(s, a), b) && Enabled(Next(Next(s, a), b), c)
    ensures Reaches(steps + [a, b, c], Next(Next(Next(s, a), b), c))
  {
    StepReaches(steps, s, a);
    StepReaches(steps + [a], Next(s, a), b);
    StepReaches(steps + [a] + [b], Next(Next(s, a), b), c);
    assert steps + [a] + [b] + [c] == steps + [a, b, c];
  }

  function Play(m: Mac, channel: string, partner: string): Event { Event("0", m, channel, partner) }

  /** A viewer has begun to play, was counted, and has expired. */
  function Lapsed(m: Mac, v: Pair): State {
    State(Store({}, map[m := v]), multiset{m}, [Idle, Idle], [Delta(Some(v), None)], [map[]], map[])
  }

  function PlayAndLapse(m: Mac, channel: string, partner: string): seq<Step> {
    Handle(Play(m, channel, partner)) + [Emit(0)] + [Expire(m, false)]
  }

  lemma LapsedReached(m: Mac, channel: string, partner: string)
    ensures Reaches(PlayAndLapse(m, channel, partner), Lapsed(m, Pair(channel, partner)))
  {
    var (e, v) := (Play(m, channel, partner), Pair(channel, partner));
    assert Reaches([], State(EMPTY, multiset{}, [Idle, Idle], [], [map[]], map[]));
    ThreeReach([], State(EMPTY, multiset{}, [Idle, Idle], [], [map[]], map[]), Watch(0, e), Get(0), Exec(0, false));
    assert [] + Handle(e) == Handle(e);
    var played := State(Store({m}, map[m := v]), multiset{}, [Emitting(Delta(Some(v), None)), Idle], [], [map[]], map[]);
    assert Reaches(Handle(e), played);
    StepReaches(Handle(e), played, Emit(0));
    var counted := played.(procs := [Idle, Idle], queue := [Delta(Some(v), None)]);
    assert Reaches(Handle(e) + [Emit(0)], counted);
    StepReaches(Handle(e) + [Emit(0)], counted, Expire(m, false));
    assert Next(counted, Expire(m, false)) == Lapsed(m, v);
  }

  /** From the start: the viewer plays again before its expiry is handled, and then the handler begins. */
  lemma LateReached(m: Mac, channel: string, partner: string)
    ensures var steps := PlayAndLapse(m, channel, partner) + Handle(Play(m, channel, partner));
            var o := Run(2, 1, steps);
            o.legal && Enabled(o.s, TaskWatch(1, m)) && Late(o.s, TaskWatch(1, m))
  {
    var (e, s) := (Play(m, channel, partner), Lapsed(m, Pair(channel, partner)));
    LapsedReached(m, channel, partner);
    ThreeReach(PlayAndLapse(m, channel, partner), s, Watch(0, e), Get(0), Exec(0, false));
  }

  /** From the start: the only handler of an expired session has its transaction refused. */
  lemma ForgetsReached(m: Mac, channel: string, partner: string)
    ensures var steps := PlayAndLapse(m, channel, partner) + [TaskWatch(1, m)] + [TaskGet(1)];
            var o := Run(2, 1, steps);
            o.legal && Enabled(o.s, TaskExec(1, true)) && Forgets(o.s, TaskExec(1, true))
  {
    var (steps, s) := (PlayAndLapse(m, channel, partner), Lapsed(m, Pair(channel, partner)));
    LapsedReached(m, channel, partner);
    StepReaches(steps, s, TaskWatch(1, m));
    StepReaches(steps + [TaskWatch(1, m)], Next(s, TaskWatch(1, m)), TaskGet(1));
  }
}
