/**
 * Sessions of the spout after one another, with the lock file they share: every heartbeat and every takeover
 * is logged in it, and an owner may also die in the middle of a heartbeat. The next owner starts from what it
 * finds there, at the right character but with a line number that may be cut short, so lines are told apart
 * by where they stand in the file and no longer by the numbers the sessions give them.
 */
module SpoutTorn {
  import opened Common
  import opened TextReader
  import opened SpoutLog
  import opened SpoutRuns
  import opened LockLog
  import opened LockResume

  /**
   * `base`: how many lines of the file really lie before the session; `done`: lines acknowledged earlier;
   * `first` and `ops`: the history of the lock file, whose present owner is `owner`.
   */
  datatype Past = Past(now: Session, done: set<nat>, base: nat, owner: string, first: Entry, ops: seq<LogOp>) {
    function LockFile(): string { Contents(first, ops) }
  }

  /**
   * A call, with the time at which it may log; a death between heartbeats; a death inside the heartbeat of
   * call `e`, `written` characters of it on disk. After a death `next` takes the lock file over.
   */
  datatype Deed =
    | Call(e: Event, time: nat)
    | Death(next: string, time: nat)
    | TornDeath(e: Event, at: nat, written: nat, next: string, time: nat)

  /** Line `l` of the file was acknowledged in a session with `base` lines before it. */
  predicate AckedAt(acked: set<nat>, base: nat, l: nat) {
    l > base && l - base in acked
  }

  function AckedSince(c: Config, h: Session, base: nat): set<nat> {
    set l: nat | base < l <= base + |Records(c, h.start)| && AckedAt(h.acked, base, l)
  }

  /** How many lines of the file lie before the logged position. */
  function LoggedLines(h: Session, base: nat): nat {
    if h.s.logged.line >= h.start.line then base + (h.s.logged.line - h.start.line) else base
  }

  /** The entry that the heartbeat of a call writes. */
  function Heartbeat(c: Config, g: Past, e: Event, time: nat): Entry {
    Entry(time, g.owner, Step(c, g.now, e).s.logged.Print())
  }

  /**
   * The session `h` is over and `next` takes over: it logs the offset it finds, as it finds it, and starts to
   * read there. Without an offset that can be taken apart it does not get so far.
   */
  function TakeOver(c: Config, g: Past, h: Session, next: string, time: nat): Past {
    match LastEntry(g.LockFile())
    case None => g
    case Some(found) =>
      var start := if Parse(found.offset).Some? then Parse(found.offset).value else ORIGIN;
      Past(Session(start, Open(start), {}), g.done + AckedSince(c, h, g.base), LoggedLines(h, g.base),
           next, g.first, g.ops + [Append(Entry(time, next, found.offset))])
  }

  /** The session at the death: with its heartbeat written, or the call's acknowledgement alone. */
  function AtDeath(c: Config, h: Session, e: Event, written: bool): Session {
    if written then Step(c, h, e) else h.(acked := SpoutRuns.Pending(c, h, e).acked)
  }

  /** The lock file after the death inside a heartbeat. */
  function TornLock(c: Config, g: Past, d: Deed): Past
    requires d.TornDeath?
  {
    g.(ops := g.ops + [Torn(Heartbeat(c, g, d.e, d.at), d.written)])
  }

  function Do(c: Config, g: Past, d: Deed): Past {
    match d
    case Call(e, time) =>
      g.(now := Step(c, g.now, e),
         ops := if Logs(c, g.now, e) then g.ops + [Append(Heartbeat(c, g, e, time))] else g.ops)
    case Death(next, time) => TakeOver(c, g, g.now, next, time)
    case TornDeath(e, _, written, next, time) =>
      TakeOver(c, TornLock(c, g, d), AtDeath(c, g.now, e, written > 1), next, time)
  }

  /** `owner` creates the lock file and opens the text file. */
  function Begin(owner: string, time: nat): Past {
    Past(Session(ORIGIN, Open(ORIGIN), {}), {}, 0, owner, Entry(time, owner, "0"), [])
  }

  function RunAll(c: Config, owner: string, time: nat, deeds: seq<Deed>): Past {
    if deeds == [] then Begin(owner, time)
    else Do(c, RunAll(c, owner, time, deeds[..|deeds| - 1]), deeds[|deeds| - 1])
  }

  /** What the spout relies on: guarded calls, proper names, and a torn heartbeat that can still be taken apart. */
  predicate LegalDeed(c: Config, g: Past, d: Deed) {
    && g.now.s.reader.Some?
    && (!d.Death? ==> Enabled(g.now, d.e) && Guarded(c, g.now, d.e))
    && (!d.Call? ==> Name(d.next))
    && (d.TornDeath? ==> Logs(c, g.now, d.e) && ResumeOffset(TornLock(c, g, d).LockFile()).Some?)
  }

  predicate LegalDeeds(c: Config, owner: string, time: nat, deeds: seq<Deed>) {
    deeds != [] ==>
      LegalDeeds(c, owner, time, deeds[..|deeds| - 1])
      && LegalDeed(c, RunAll(c, owner, time, deeds[..|deeds| - 1]), deeds[|deeds| - 1])
  }

  /** `o` is the character behind the first `k` lines of the file. */
  ghost predicate BoundaryAt(c: Config, o: Offset, k: nat) {
    k <= |ReadAll(c.text, ORIGIN)| && o.chars == After(c.text, ORIGIN, k).chars
  }

  lemma ReadsSuffix(c: Config, o: Offset, k: nat)
    requires BoundaryAt(c, o, k)
    ensures SameLines(ReadAll(c.text, o), ReadAll(c.text, ORIGIN)[k..])
  {
    ResumeReads(c.text, ORIGIN, k);
    SameCharSameLines(Rest(c.text, o), o, After(c.text, ORIGIN, k));
  }

  lemma LoggedBoundaryAt(c: Config, h: Session, base: nat)
    requires BoundaryAt(c, h.start, base) && LogSafe(c, h)
    ensures BoundaryAt(c, h.s.logged, LoggedLines(h, base))
  {
    ReadsSuffix(c, h.start, base);
    var (all, d) := (ReadAll(c.text, ORIGIN), h.s.logged.line - h.start.line);
    if d > 0 { assert all[base..][d - 1] == all[base + d - 1]; }
  }

  ghost predicate LineDone(g: Past, l: nat) {
    l in g.done || AckedAt(g.now.acked, g.base, l)
  }

  ghost predicate BeforeDone(g: Past) {
    forall l: nat :: 1 <= l <= g.base ==> l in g.done
  }

  ghost predicate GoodAt(c: Config, g: Past) {
    && BoundaryAt(c, g.now.start, g.base)
    && BeforeDone(g)
    && LogSafe(c, g.now)
    && (g.now.s.reader.Some? ==> Sound(c, g.now))
  }

  /** Every line before the logged position was acknowledged in the session or before it. */
  lemma LoggedLinesDone(c: Config, g: Past, h: Session, l: nat)
    requires BeforeDone(g) && LogSafe(c, h) && 1 <= l <= LoggedLines(h, g.base)
    ensures l in g.done || (AckedAt(h.acked, g.base, l) && l <= g.base + |Records(c, h.start)|)
  {
    if l > g.base { assert AckedLine(h.start, h.acked, h.start.line + (l - g.base)); }
  }

  /** The last entry of the lock file is whole and gives the position the session has logged. */
  ghost predicate LockGood(g: Past) {
    && Name(g.owner) && LastComplete(g.ops)
    && LastLogged(g.first, g.ops).Plain()
    && Parse(LastLogged(g.first, g.ops).offset) == Some(g.now.s.logged)
  }

  /** Whoever reads the lock file starts where the session has logged. */
  lemma {:induction false} LockGivesLogged(g: Past)
    requires LockGood(g)
    ensures ResumeOffset(g.LockFile()) == Some(g.now.s.logged)
    ensures LastEntry(g.LockFile()).Some? && LastEntry(g.LockFile()).value.Plain()
  {
    ResumesWhereLogged(g.first, g.ops);
    LastEntryIsRead(g.first, g.ops);
  }

  /** A takeover from a lock file that leads to the character logged. */
  lemma {:induction false} TakeOverGood(c: Config, g: Past, h: Session, next: string, time: nat)
    requires Terminated(c.text) && BeforeDone(g) && BoundaryAt(c, h.start, g.base) && LogSafe(c, h)
    requires LastEntry(g.LockFile()).Some? && LastEntry(g.LockFile()).value.Plain() && Name(next)
    requires ResumeOffset(g.LockFile()).Some? && ResumeOffset(g.LockFile()).value.chars == h.s.logged.chars
    ensures GoodAt(c, TakeOver(c, g, h, next, time)) && LockGood(TakeOver(c, g, h, next, time))
  {
    var start := ResumeOffset(g.LockFile()).value;
    LoggedBoundaryAt(c, h, g.base);
    OpenGood(c, start);
    TakeOverDone(c, g, h, next, time);
  }

  lemma OpenGood(c: Config, start: Offset)
    requires Terminated(c.text)
    ensures var h := Session(start, Open(start), {}); Sound(c, h) && LogSafe(c, h)
  {
    TerminatedNumbered(c, start);
    OpenSound(c, start);
  }

  lemma TakeOverDone(c: Config, g: Past, h: Session, next: string, time: nat)
    requires BeforeDone(g) && LogSafe(c, h) && LastEntry(g.LockFile()).Some?
    ensures BeforeDone(TakeOver(c, g, h, next, time))
  {
    var g1 := TakeOver(c, g, h, next, time);
    forall l: nat | 1 <= l <= g1.base ensures l in g1.done { LoggedLinesDone(c, g, h, l); }
  }

  lemma {:induction false} AtDeathSafe(c: Config, h: Session, e: Event, written: bool)
    requires Sound(c, h) && Enabled(h, e) && Guarded(c, h, e)
    ensures AtDeath(c, h, e, written).start == h.start && LogSafe(c, AtDeath(c, h, e, written))
  {
    LoggedByStep(c, h, e);
    if written {
      StepSafeIff(c, h, e);
    } else {
      SafeKept(Records(c, h.start), h.start, h.acked, SpoutRuns.Pending(c, h, e).acked, h.s.logged);
    }
  }

  lemma {:induction false} CallGood(c: Config, g: Past, e: Event, time: nat)
    requires GoodAt(c, g) && LockGood(g) && g.now.s.reader.Some? && Enabled(g.now, e) && Guarded(c, g.now, e)
    ensures GoodAt(c, Do(c, g, Call(e, time))) && LockGood(Do(c, g, Call(e, time)))
  {
    StepSound(c, g.now, e);
    LoggedByStep(c, g.now, e);
    PrintedIsPlain(time, g.owner, Step(c, g.now, e).s.logged);
  }

  /** What a heartbeat cut short leaves to be found, if it can be taken apart. */
  lemma {:induction false} TornLockGives(c: Config, g: Past, d: Deed)
    requires LockGood(g) && d.TornDeath? && ResumeOffset(TornLock(c, g, d).LockFile()).Some?
    ensures var lock := TornLock(c, g, d).LockFile();
            LastEntry(lock).Some? && LastEntry(lock).value.Plain()
            && ResumeOffset(lock).value.chars
               == (if d.written > 1 then Step(c, g.now, d.e).s.logged else g.now.s.logged).chars
  {
    var (o, hb) := (Step(c, g.now, d.e).s.logged, Heartbeat(c, g, d.e, d.at));
    PrintedIsPlain(d.at, g.owner, o);
    TornWriteResumes(g.first, g.ops, hb, d.written, o);
    FoundIsPlain(g.first, g.ops, hb, d.written);
    LockGivesLogged(g);
  }

  lemma {:induction false} TornDeathGood(c: Config, g: Past, d: Deed)
    requires Terminated(c.text) && GoodAt(c, g) && LockGood(g) && d.TornDeath? && LegalDeed(c, g, d)
    ensures GoodAt(c, Do(c, g, d)) && LockGood(Do(c, g, d))
  {
    var h := AtDeath(c, g.now, d.e, d.written > 1);
    TornLockGives(c, g, d);
    AtDeathSafe(c, g.now, d.e, d.written > 1);
    TakeOverGood(c, TornLock(c, g, d), h, d.next, d.time);
  }

  lemma {:induction false} DeedGood(c: Config, g: Past, d: Deed)
    requires Terminated(c.text) && GoodAt(c, g) && LockGood(g) && LegalDeed(c, g, d)
    ensures GoodAt(c, Do(c, g, d)) && LockGood(Do(c, g, d))
  {
    match d
    case Call(e, time) => CallGood(c, g, e, time);
    case Death(next, time) =>
      LockGivesLogged(g);
      TakeOverGood(c, g, g.now, next, time);
    case TornDeath(_, _, _, _, _) => TornDeathGood(c, g, d);
  }

  lemma BeginGood(c: Config, owner: string, time: nat)
    requires Terminated(c.text) && Name(owner)
    ensures GoodAt(c, Begin(owner, time)) && LockGood(Begin(owner, time))
  {
    OpenGood(c, ORIGIN);
  }

  lemma {:induction false} RunGoodAt(c: Config, owner: string, time: nat, deeds: seq<Deed>)
    requires Terminated(c.text) && Name(owner) && LegalDeeds(c, owner, time, deeds)
    ensures var g := RunAll(c, owner, time, deeds); GoodAt(c, g) && LockGood(g)
  {
    if deeds == [] {
      BeginGood(c, owner, time);
    } else {
      var before := deeds[..|deeds| - 1];
      RunGoodAt(c, owner, time, before);
      DeedGood(c, RunAll(c, owner, time, before), deeds[|deeds| - 1]);
    }
  }

  /** What a reader started at `o` sees of a file of which `k` lines lie before that position. */
  ghost predicate ReadsOnFrom(c: Config, g: Past, o: Offset, k: nat) {
    var (all, rs) := (ReadAll(c.text, ORIGIN), ReadAll(c.text, o));
    && k <= |all| && SameLines(rs, all[k..])
    && (forall l: nat :: 1 <= l <= k ==> LineDone(g, l))
    && (forall l: nat :: 1 <= l <= |all| && !LineDone(g, l) ==> l > k && rs[l - 1 - k].line == all[l - 1].line)
  }

  /**
   * Resume over whole runs, from the text of the lock file: at every point of every run, heartbeats cut short
   * and takeovers that log what they found included, the lock file gives a position from which the file's
   * lines are read from some line `k` on; every line before was acknowledged, and every other one is read.
   */
  lemma {:induction false} TornRunResume(c: Config, owner: string, time: nat, deeds: seq<Deed>)
    requires Terminated(c.text) && Name(owner) && LegalDeeds(c, owner, time, deeds)
    ensures var g := RunAll(c, owner, time, deeds);
            var start := ResumeOffset(g.LockFile());
            start.Some? && ReadsOnFrom(c, g, start.value, LoggedLines(g.now, g.base))
  {
    var g := RunAll(c, owner, time, deeds);
    RunGoodAt(c, owner, time, deeds);
    LockGivesLogged(g);
    GoodReadsOn(c, g);
  }

  lemma {:induction false} GoodReadsOn(c: Config, g: Past)
    requires GoodAt(c, g)
    ensures ReadsOnFrom(c, g, g.now.s.logged, LoggedLines(g.now, g.base))
  {
    var (all, rs) := (ReadAll(c.text, ORIGIN), ReadAll(c.text, g.now.s.logged));
    var k := LoggedLines(g.now, g.base);
    LoggedBoundaryAt(c, g.now, g.base);
    ReadsSuffix(c, g.now.s.logged, k);
    forall l: nat | 1 <= l <= k ensures LineDone(g, l) { LoggedLinesDone(c, g, g.now, l); }
    forall l: nat | 1 <= l <= |all| && !LineDone(g, l) ensures l > k && rs[l - 1 - k].line == all[l - 1].line {
      LineInSuffix(rs, all, k, l);
    }
  }

  lemma LineInSuffix(rs: seq<Record>, all: seq<Record>, k: nat, l: nat)
    requires k < l <= |all| && SameLines(rs, all[k..])
    ensures l - 1 - k < |rs| && rs[l - 1 - k].line == all[l - 1].line
  {
    assert all[k..][l - 1 - k] == all[l - 1];
  }

  /** The session after a death starts where the lock file says, heartbeat cut short or not. */
  lemma LockFileGivesStart(c: Config, g: Past, d: Deed)
    requires LockGood(g) && LegalDeed(c, g, d) && !d.Call?
    ensures var lock := if d.Death? then g.LockFile() else TornLock(c, g, d).LockFile();
            ResumeOffset(lock) == Some(Do(c, g, d).now.start)
  {
    LockGivesLogged(g);
    if d.TornDeath? { TornLockGives(c, g, d); }
  }
}
