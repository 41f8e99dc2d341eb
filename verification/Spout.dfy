/** What a session's tracker and log say about the lines `rs` it reads from `start`, given the acknowledged numbers. */
module SpoutLog {
  import opened TextReader
  import opened Tracker

  /** Line `l` of the file was acknowledged in this session. */
  predicate AckedLine(start: Offset, acked: set<nat>, l: nat) {
    l > start.line && l - start.line in acked
  }

  /** The acknowledged positions of a session, by line. */
  ghost function Positions(rs: seq<Record>, start: Offset, acked: set<nat>): Acked {
    map l: nat | start.line < l <= start.line + |rs| && AckedLine(start, acked, l) :: rs[l - start.line - 1].end
  }

  /** The tracker holds acknowledged positions only, and its head is safe once the first line is among them. */
  ghost predicate HeadSound(rs: seq<Record>, start: Offset, acked: set<nat>, tracker: seq<Offset>) {
    && Tracks(tracker, Positions(rs, start, acked))
    && (1 in acked ==> HeadSafe(tracker, Positions(rs, start, acked), start.line + 1))
  }

  /** `o` is the position behind a line of the session and every line up to it has been acknowledged. */
  ghost predicate PositionSafe(rs: seq<Record>, start: Offset, acked: set<nat>, o: Offset) {
    && start.line <= o.line <= start.line + |rs|
    && o == (if o.line == start.line then start else rs[o.line - start.line - 1].end)
    && forall l: nat :: start.line < l <= o.line ==> AckedLine(start, acked, l)
  }

  lemma PositionsGrow(rs: seq<Record>, start: Offset, acked: set<nat>, n: nat)
    requires 1 <= n <= |rs|
    ensures Positions(rs, start, acked + {n}) == Positions(rs, start, acked)[start.line + n := rs[n - 1].end]
  {
    var (a, b) := (Positions(rs, start, acked)[start.line + n := rs[n - 1].end], Positions(rs, start, acked + {n}));
    forall l: nat ensures l in a <==> l in b {
      assert AckedLine(start, acked + {n}, l) <==> AckedLine(start, acked, l) || l == start.line + n;
    }
  }

  lemma AckHeadSound(rs: seq<Record>, start: Offset, acked: set<nat>, tracker: seq<Offset>, n: nat)
    requires HeadSound(rs, start, acked, tracker) && LinesNumbered(rs, start)
    requires 1 <= n <= |rs| && n !in acked
    ensures HeadSound(rs, start, acked + {n}, RecordAcked(tracker, rs[n - 1].end))
  {
    var (a, x, first) := (Positions(rs, start, acked), rs[n - 1].end, start.line + 1);
    PositionsGrow(rs, start, acked, n);
    assert x.line == start.line + n;
    assert x.line !in a;
    assert 1 in acked && rs != [] ==> AckedLine(start, acked, first);
    assert first in a ==> AckedLine(start, acked, first);
    SafeStep(tracker, a, x, first);
    assert 1 in acked + {n} ==> first in a[x.line := x];
  }

  lemma TrackedWasAcked(rs: seq<Record>, start: Offset, acked: set<nat>, tracker: seq<Offset>)
    requires HeadSound(rs, start, acked, tracker) && tracker != []
    ensures acked != {}
  {
    assert tracker[0] in tracker;
    assert AckedLine(start, acked, tracker[0].line);
  }

  lemma SafeKept(rs: seq<Record>, start: Offset, acked: set<nat>, more: set<nat>, o: Offset)
    requires PositionSafe(rs, start, acked, o) && acked <= more
    ensures PositionSafe(rs, start, more, o)
  {
    forall l: nat | start.line < l <= o.line ensures AckedLine(start, more, l) {
      assert AckedLine(start, acked, l);
    }
  }

  /** The head of the tracker may be written down exactly when the session's first line was acknowledged. */
  lemma HeadSafeIff(rs: seq<Record>, start: Offset, acked: set<nat>, tracker: seq<Offset>)
    requires HeadSound(rs, start, acked, tracker) && LinesNumbered(rs, start) && tracker != []
    ensures PositionSafe(rs, start, acked, tracker[0]) <==> 1 in acked
  {
    var (a, head) := (Positions(rs, start, acked), tracker[0]);
    assert head in tracker && Holds(a, head);
    if 1 in acked {
      forall l: nat | start.line < l <= head.line ensures AckedLine(start, acked, l) { assert l in a; }
    } else {
      assert !AckedLine(start, acked, start.line + 1);
    }
  }
}

/**
 * The spout over one text file in acknowledging mode: emit, acknowledge, fail, log the commit position in
 * the lock file, archive the file, and hand it to another spout that resumes from the logged position.
 */
module SpoutRuns {
  import opened Common
  import opened TextReader
  import opened Tracker
  import opened SpoutLog

  /** A message keeps the position behind its line; `number` is its place in the emission order. */
  datatype Msg = Msg(number: nat, end: Offset, line: string)

  datatype Config = Config(text: string, commitCount: nat, maxOutstanding: nat)

  /** `reader` is the position of the open file; `logged` the offset in the last entry of its lock file. */
  datatype SpoutState = SpoutState(
    reader: Option<Offset>,
    readAll: bool,
    inflight: set<Msg>,
    retry: seq<Msg>,
    tracker: seq<Offset>,
    counter: nat,
    acks: nat,
    elapsed: bool,
    logged: Offset)

  function Open(start: Offset): SpoutState {
    SpoutState(Some(start), false, {}, [], [], 0, 0, false, start)
  }

  /** The lock is held, as it is while the file is open, a position is there, and it is time to write it down. */
  predicate Due(c: Config, s: SpoutState) {
    s.reader.Some? && s.tracker != [] && ((c.commitCount > 0 && s.acks >= c.commitCount) || s.elapsed)
  }

  function CommitProgress(c: Config, s: SpoutState): SpoutState {
    if Due(c, s) then s.(logged := s.tracker[0], acks := 0, elapsed := false) else s
  }

  function NextTuple(c: Config, s: SpoutState): SpoutState {
    if s.retry != [] then s.(inflight := s.inflight + {s.retry[0]}, retry := s.retry[1..])
    else if |s.tracker| >= c.maxOutstanding || s.reader.None? || s.readAll then s
    else
      match ReadLine(c.text, s.reader.value)
      case (None, _) => s.(readAll := true)
      case (Some(line), o) =>
        var m := Msg(s.counter + 1, o, line);
        CommitProgress(c, s.(reader := Some(o), counter := s.counter + 1, inflight := s.inflight + {m}))
  }

  /** What `nextTuple` hands to the collector. */
  function Emitted(c: Config, s: SpoutState): seq<Msg> {
    if s.retry != [] then [s.retry[0]]
    else if |s.tracker| >= c.maxOutstanding || s.reader.None? || s.readAll then []
    else
      match ReadLine(c.text, s.reader.value)
      case (None, _) => []
      case (Some(line), o) => [Msg(s.counter + 1, o, line)]
  }

  /** The acknowledgement before the question whether the file is finished. */
  function Acknowledged(c: Config, s: SpoutState, m: Msg): SpoutState {
    CommitProgress(c, s.(inflight := s.inflight - {m}, acks := s.acks + 1, tracker := RecordAcked(s.tracker, m.end)))
  }

  predicate Archives(c: Config, s: SpoutState, m: Msg) {
    s.readAll && s.inflight - {m} == {}
  }

  function Ack(c: Config, s: SpoutState, m: Msg): SpoutState {
    var s1 := Acknowledged(c, s, m);
    if Archives(c, s, m) then s1.(reader := None, inflight := {}, tracker := [], retry := []) else s1
  }

  function Fail(s: SpoutState, m: Msg): SpoutState {
    s.(inflight := s.inflight - {m}, retry := s.retry + [m])
  }

  // ---------- one session: from opening the file to losing or finishing it ----------

  datatype Session = Session(start: Offset, s: SpoutState, acked: set<nat>)

  datatype Event = NextE | AckE(m: Msg) | FailE(m: Msg) | ElapseE

  function Records(c: Config, start: Offset): seq<Record> {
    ReadAll(c.text, start)
  }

  /** The `n`-th message of a session. */
  function MsgAt(c: Config, start: Offset, n: nat): Msg
    requires 1 <= n <= |Records(c, start)|
  {
    Msg(n, Records(c, start)[n - 1].end, Records(c, start)[n - 1].line)
  }

  /** Storm reports on messages in flight only. */
  predicate Enabled(h: Session, e: Event) {
    h.s.reader.Some? && (e.AckE? || e.FailE? ==> e.m in h.s.inflight)
  }

  function Step(c: Config, h: Session, e: Event): Session {
    match e
    case NextE => h.(s := NextTuple(c, h.s))
    case AckE(m) => h.(s := Ack(c, h.s, m), acked := h.acked + {m.number})
    case FailE(m) => h.(s := Fail(h.s, m))
    case ElapseE => h.(s := h.s.(elapsed := true))
  }

  predicate Known(c: Config, h: Session, m: Msg) {
    1 <= m.number <= h.s.counter <= |Records(c, h.start)| && m == MsgAt(c, h.start, m.number)
  }

  /** The reader stands behind as many lines as messages were numbered. */
  predicate ReaderInStep(c: Config, h: Session) {
    && h.s.counter <= |Records(c, h.start)|
    && h.s.reader == Some(After(c.text, h.start, h.s.counter))
    && (h.s.readAll ==> h.s.counter == |Records(c, h.start)|)
  }

  /** Only emitted messages are in flight, waiting to be retried, or acknowledged, and no one in two places. */
  ghost predicate Apart(c: Config, h: Session) {
    && (forall m :: m in h.s.inflight ==> Known(c, h, m) && m !in h.s.retry && m.number !in h.acked)
    && (forall m :: m in h.s.retry ==> Known(c, h, m) && m.number !in h.acked)
    && (forall n :: n in h.acked ==> 1 <= n <= h.s.counter)
    && Distinct(h.s.retry)
  }

  ghost predicate NoneMissing(c: Config, h: Session)
    requires h.s.counter <= |Records(c, h.start)|
  {
    forall n :: 1 <= n <= h.s.counter ==>
      n in h.acked || MsgAt(c, h.start, n) in h.s.inflight || MsgAt(c, h.start, n) in h.s.retry
  }

  /** Every emitted message is in flight, waiting to be retried, or acknowledged, and only one of the three. */
  ghost predicate Conserved(c: Config, h: Session) {
    ReaderInStep(c, h) && Apart(c, h) && NoneMissing(c, h)
  }

  lemma OpenConserved(c: Config, start: Offset)
    ensures Conserved(c, Session(start, Open(start), {}))
  {
  }

  lemma ReadNext(c: Config, start: Offset, k: nat)
    requires k <= |Records(c, start)|
    ensures var (line, o) := ReadLine(c.text, After(c.text, start, k));
            && (line.None? <==> k == |Records(c, start)|)
            && (line.Some? ==> MsgAt(c, start, k + 1) == Msg(k + 1, o, line.value)
                               && After(c.text, start, k + 1) == o)
  {
    ResumeReads(c.text, start, k);
    ReadAllReads(c.text, After(c.text, start, k));
    assert k < |Records(c, start)| ==> Records(c, start)[k..][0] == Records(c, start)[k];
  }

  lemma RetryConserved(c: Config, h: Session)
    requires Conserved(c, h) && h.s.retry != []
    ensures Conserved(c, Step(c, h, NextE))
  {
    RetryLeaves(h.s.retry);
    assert Known(c, h, h.s.retry[0]);
  }

  function WithMessage(h: Session, m: Msg, o: Offset): Session {
    h.(s := h.s.(reader := Some(o), counter := h.s.counter + 1, inflight := h.s.inflight + {m}))
  }

  lemma EmitApart(c: Config, h: Session, o: Offset)
    requires Apart(c, h) && h.s.counter < |Records(c, h.start)|
    ensures Apart(c, WithMessage(h, MsgAt(c, h.start, h.s.counter + 1), o))
  {
    var m := MsgAt(c, h.start, h.s.counter + 1);
    var h1 := WithMessage(h, m, o);
    forall x | x in h1.s.inflight ensures Known(c, h1, x) && x !in h1.s.retry && x.number !in h1.acked {
      if x == m { assert m !in h.s.retry && m.number !in h.acked; } else { assert Known(c, h, x); }
    }
    forall x | x in h1.s.retry ensures Known(c, h1, x) && x.number !in h1.acked { assert Known(c, h, x); }
  }

  lemma EmitNoneMissing(c: Config, h: Session, o: Offset)
    requires h.s.counter < |Records(c, h.start)| && NoneMissing(c, h)
    ensures NoneMissing(c, WithMessage(h, MsgAt(c, h.start, h.s.counter + 1), o))
  {
  }

  lemma EmitConserved(c: Config, h: Session, o: Offset)
    requires Conserved(c, h) && h.s.counter < |Records(c, h.start)| && !h.s.readAll
    requires o == After(c.text, h.start, h.s.counter + 1)
    ensures Conserved(c, WithMessage(h, MsgAt(c, h.start, h.s.counter + 1), o))
  {
    EmitApart(c, h, o);
    EmitNoneMissing(c, h, o);
  }

  /** What is handed to the collector is what comes into flight, and its number or its place in the retry list is used up. */
  lemma EmittedComesIntoFlight(c: Config, s: SpoutState)
    ensures var s1 := NextTuple(c, s);
            (forall m :: m in s1.inflight <==> m in s.inflight || m in Emitted(c, s))
            && s1.retry == (if s.retry != [] then s.retry[1..] else [])
            && s1.counter == s.counter + (if s.retry == [] then |Emitted(c, s)| else 0)
  {
  }

  lemma CommitConserved(c: Config, h: Session)
    requires Conserved(c, h)
    ensures Conserved(c, h.(s := CommitProgress(c, h.s)))
  {
  }

  /** Without anything to retry, `nextTuple` brings the next line into flight or notices the end of the file. */
  lemma NextReads(c: Config, h: Session)
    requires ReaderInStep(c, h) && h.s.retry == [] && |h.s.tracker| < c.maxOutstanding && !h.s.readAll
    ensures var k := h.s.counter;
            Step(c, h, NextE)
            == if k == |Records(c, h.start)| then h.(s := h.s.(readAll := true))
               else
                 var h1 := WithMessage(h, MsgAt(c, h.start, k + 1), After(c.text, h.start, k + 1));
                 h1.(s := CommitProgress(c, h1.s))
  {
    ReadNext(c, h.start, h.s.counter);
  }

  lemma NextConserved(c: Config, h: Session)
    requires Conserved(c, h)
    ensures Conserved(c, Step(c, h, NextE))
  {
    var k := h.s.counter;
    if h.s.retry != [] {
      RetryConserved(c, h);
    } else if |h.s.tracker| < c.maxOutstanding && !h.s.readAll {
      NextReads(c, h);
      if k < |Records(c, h.start)| {
        var o := After(c.text, h.start, k + 1);
        EmitConserved(c, h, o);
        CommitConserved(c, WithMessage(h, MsgAt(c, h.start, k + 1), o));
      }
    }
  }

  lemma RetryLeaves(ms: seq<Msg>)
    requires ms != [] && Distinct(ms)
    ensures Distinct(ms[1..]) && ms[0] !in ms[1..]
    ensures forall m :: m in ms <==> m == ms[0] || m in ms[1..]
  {
    assert ms == [ms[0]] + ms[1..];
  }

  lemma AckConserved(c: Config, h: Session, m: Msg)
    requires Conserved(c, h) && m in h.s.inflight && !Archives(c, h.s, m)
    ensures Conserved(c, Step(c, h, AckE(m)))
  {
  }

  lemma FailConserved(c: Config, h: Session, m: Msg)
    requires Conserved(c, h) && m in h.s.inflight
    ensures Conserved(c, Step(c, h, FailE(m)))
  {
  }

  /** While the file stays open, no step loses or duplicates a message. */
  lemma StepConserved(c: Config, h: Session, e: Event)
    requires Conserved(c, h) && Enabled(h, e) && Step(c, h, e).s.reader.Some?
    ensures Conserved(c, Step(c, h, e))
  {
    match e
    case NextE => NextConserved(c, h);
    case AckE(m) => AckConserved(c, h, m);
    case FailE(m) => FailConserved(c, h, m);
    case ElapseE =>
  }

  // ---------- every run of one session ----------

  function RunSession(c: Config, start: Offset, events: seq<Event>): Session {
    if events == [] then Session(start, Open(start), {})
    else Step(c, RunSession(c, start, events[..|events| - 1]), events[|events| - 1])
  }

  predicate LegalEvents(c: Config, start: Offset, events: seq<Event>) {
    events != [] ==>
      LegalEvents(c, start, events[..|events| - 1])
      && Enabled(RunSession(c, start, events[..|events| - 1]), events[|events| - 1])
  }

  /** Whatever is acknowledged, failed and logged, and in whatever order: until the file is closed nothing is lost. */
  lemma {:induction false} RunConserved(c: Config, start: Offset, events: seq<Event>)
    requires LegalEvents(c, start, events) && RunSession(c, start, events).s.reader.Some?
    ensures Conserved(c, RunSession(c, start, events))
  {
    if events == [] {
      OpenConserved(c, start);
    } else {
      var before := events[..|events| - 1];
      RunConserved(c, start, before);
      StepConserved(c, RunSession(c, start, before), events[|events| - 1]);
    }
  }

  ghost predicate AllAcked(c: Config, h: Session) {
    forall n :: 1 <= n <= |Records(c, h.start)| ==> n in h.acked
  }

  /**
   * An acknowledgement archives the file without looking at the retry list: every line of the session has
   * then been emitted and acknowledged if and only if that list was empty.
   */
  lemma ArchiveCompleteIff(c: Config, h: Session, m: Msg)
    requires Conserved(c, h) && m in h.s.inflight && Archives(c, h.s, m)
    ensures AllAcked(c, Step(c, h, AckE(m))) <==> h.s.retry == []
  {
    var h1 := Step(c, h, AckE(m));
    if h.s.retry == [] {
      forall n | 1 <= n <= |Records(c, h.start)| ensures n in h1.acked {
        if n !in h.acked {
          assert MsgAt(c, h.start, n) in h.s.inflight;
          assert MsgAt(c, h.start, n) !in h.s.inflight - {m};
        }
      }
    } else {
      var r := h.s.retry[0];
      assert r in h.s.retry;
      assert r.number !in h1.acked;
    }
  }

  lemma OneMore(c: Config, start: Offset, events: seq<Event>, e: Event)
    ensures RunSession(c, start, events + [e]) == Step(c, RunSession(c, start, events), e)
    ensures LegalEvents(c, start, events + [e])
            <==> LegalEvents(c, start, events) && Enabled(RunSession(c, start, events), e)
  {
    assert (events + [e])[..|events|] == events;
  }

  /** A fresh session reads on: the next line comes into flight, or the end of the file is noticed. */
  lemma NextLine(c: Config, start: Offset, s: SpoutState)
    requires s.retry == [] && s.tracker == [] && c.maxOutstanding > 0 && !s.readAll
    requires s.counter <= |Records(c, start)| && s.reader == Some(After(c.text, start, s.counter))
    ensures var k := s.counter;
            NextTuple(c, s)
            == if k == |Records(c, start)| then s.(readAll := true)
               else s.(reader := Some(After(c.text, start, k + 1)), counter := k + 1,
                       inflight := s.inflight + {MsgAt(c, start, k + 1)})
  {
    ReadNext(c, start, s.counter);
  }

  lemma ThreeCalls(c: Config)
    requires var s1 := NextTuple(c, Open(ORIGIN)); s1.reader.Some? && NextTuple(c, s1).reader.Some?
    ensures LegalEvents(c, ORIGIN, [NextE, NextE, NextE])
    ensures RunSession(c, ORIGIN, [NextE, NextE, NextE])
            == Session(ORIGIN, NextTuple(c, NextTuple(c, NextTuple(c, Open(ORIGIN)))), {})
  {
    assert [] + [NextE] == [NextE] && [NextE] + [NextE] == [NextE, NextE];
    assert [NextE, NextE] + [NextE] == [NextE, NextE, NextE];
    OneMore(c, ORIGIN, [], NextE);
    OneMore(c, ORIGIN, [NextE], NextE);
    OneMore(c, ORIGIN, [NextE, NextE], NextE);
  }

  /** Both lines of a two-line file are out and its end was seen. */
  lemma BothLinesOut(c: Config)
    requires |Records(c, ORIGIN)| == 2 && c.maxOutstanding > 0
    ensures var (m1, m2) := (MsgAt(c, ORIGIN, 1), MsgAt(c, ORIGIN, 2));
            var h := RunSession(c, ORIGIN, [NextE, NextE, NextE]);
            LegalEvents(c, ORIGIN, [NextE, NextE, NextE])
            && h.s.inflight == {m1, m2} && h.s.retry == [] && h.s.readAll && h.s.reader.Some? && h.acked == {}
  {
    var s0 := Open(ORIGIN);
    var (s1, s2) := (NextTuple(c, s0), NextTuple(c, NextTuple(c, s0)));
    NextLine(c, ORIGIN, s0);
    NextLine(c, ORIGIN, s1);
    NextLine(c, ORIGIN, s2);
    assert s2.inflight == {MsgAt(c, ORIGIN, 1), MsgAt(c, ORIGIN, 2)};
    ThreeCalls(c);
  }

  /** From the start: in any two-line file line 1 fails, line 2 is acknowledged, and the file is archived without line 1. */
  lemma UnfinishedFileArchived(c: Config)
    requires |Records(c, ORIGIN)| == 2 && c.maxOutstanding > 0
    ensures var (m1, m2) := (MsgAt(c, ORIGIN, 1), MsgAt(c, ORIGIN, 2));
            var events := [NextE, NextE, NextE, FailE(m1), AckE(m2)];
            LegalEvents(c, ORIGIN, events)
            && RunSession(c, ORIGIN, events).s.reader == None && 1 !in RunSession(c, ORIGIN, events).acked
  {
    var (m1, m2) := (MsgAt(c, ORIGIN, 1), MsgAt(c, ORIGIN, 2));
    var read := [NextE, NextE, NextE];
    BothLinesOut(c);
    OneMore(c, ORIGIN, read, FailE(m1));
    OneMore(c, ORIGIN, read + [FailE(m1)], AckE(m2));
    assert read + [FailE(m1)] + [AckE(m2)] == [NextE, NextE, NextE, FailE(m1), AckE(m2)];
    assert m1 != m2;
    assert {m1, m2} - {m1} - {m2} == {};
  }

  // ---------- what the logged position promises ----------

  ghost predicate Numbered(c: Config, start: Offset) {
    LinesNumbered(Records(c, start), start)
  }

  ghost predicate TrackerSound(c: Config, h: Session) {
    HeadSound(Records(c, h.start), h.start, h.acked, h.s.tracker)
  }

  /** Everything the session read up to the logged position has been acknowledged in it. */
  ghost predicate LogSafe(c: Config, h: Session) {
    PositionSafe(Records(c, h.start), h.start, h.acked, h.s.logged)
  }

  /** The state in which a step decides whether to write the commit position. */
  function Pending(c: Config, h: Session, e: Event): Session {
    match e
    case AckE(m) =>
      Session(h.start,
              h.s.(inflight := h.s.inflight - {m}, acks := h.s.acks + 1, tracker := RecordAcked(h.s.tracker, m.end)),
              h.acked + {m.number})
    case _ => h
  }

  /** The step writes the commit position. */
  predicate Logs(c: Config, h: Session, e: Event) {
    match e
    case NextE =>
      && h.s.retry == [] && |h.s.tracker| < c.maxOutstanding && h.s.reader.Some? && !h.s.readAll
      && ReadLine(c.text, h.s.reader.value).0.Some? && Due(c, h.s)
    case AckE(_) => Due(c, Pending(c, h, e).s)
    case _ => false
  }

  lemma LoggedByStep(c: Config, h: Session, e: Event)
    ensures var h1 := Step(c, h, e);
            && h1.start == h.start && h1.acked == Pending(c, h, e).acked
            && h1.s.logged == (if Logs(c, h, e) then Pending(c, h, e).s.tracker[0] else h.s.logged)
            && (h1.s.reader.Some? ==> h1.s.tracker == Pending(c, h, e).s.tracker)
  {
  }

  ghost predicate Sound(c: Config, h: Session) {
    && Conserved(c, h)
    && Numbered(c, h.start)
    && TrackerSound(c, h)
    && LogSafe(c, h)
  }

  lemma OpenSound(c: Config, start: Offset)
    requires Numbered(c, start)
    ensures Sound(c, Session(start, Open(start), {}))
  {
    OpenConserved(c, start);
  }

  /** The guard: progress is logged only after the first line of the session was acknowledged. */
  predicate Guarded(c: Config, h: Session, e: Event) {
    Logs(c, h, e) ==> 1 in Pending(c, h, e).acked
  }

  lemma InflightKnown(c: Config, h: Session, m: Msg)
    requires Conserved(c, h) && m in h.s.inflight
    ensures Known(c, h, m) && m.number !in h.acked
  {
  }

  lemma AckTrackerSound(c: Config, h: Session, m: Msg)
    requires TrackerSound(c, h) && Numbered(c, h.start) && Known(c, h, m) && m.number !in h.acked
    ensures TrackerSound(c, Pending(c, h, AckE(m)))
  {
    AckHeadSound(Records(c, h.start), h.start, h.acked, h.s.tracker, m.number);
  }

  lemma PendingSound(c: Config, h: Session, e: Event)
    requires Sound(c, h) && Enabled(h, e)
    ensures TrackerSound(c, Pending(c, h, e))
  {
    if e.AckE? {
      InflightKnown(c, h, e.m);
      AckTrackerSound(c, h, e.m);
    }
  }

  /** A step leaves a safe log exactly when the guard holds: a position it writes needs the session's first line. */
  lemma StepSafeIff(c: Config, h: Session, e: Event)
    requires Sound(c, h) && Enabled(h, e)
    ensures LogSafe(c, Step(c, h, e)) <==> Guarded(c, h, e)
  {
    var p := Pending(c, h, e);
    LoggedByStep(c, h, e);
    PendingSound(c, h, e);
    if Logs(c, h, e) {
      HeadSafeIff(Records(c, h.start), h.start, p.acked, p.s.tracker);
    } else {
      SafeKept(Records(c, h.start), h.start, h.acked, p.acked, h.s.logged);
    }
  }

  /** A guarded step keeps the session sound, or closes the file with a safe log. */
  lemma StepSound(c: Config, h: Session, e: Event)
    requires Sound(c, h) && Enabled(h, e) && Guarded(c, h, e)
    ensures LogSafe(c, Step(c, h, e))
    ensures Step(c, h, e).s.reader.Some? ==> Sound(c, Step(c, h, e))
  {
    StepSafeIff(c, h, e);
    LoggedByStep(c, h, e);
    if Step(c, h, e).s.reader.Some? {
      StepConserved(c, h, e);
      PendingSound(c, h, e);
    }
  }

  /** Acknowledging the first line of the session first is enough for the guard, whatever comes after. */
  lemma FirstAckFirstGuards(c: Config, h: Session, e: Event)
    requires Sound(c, h) && Enabled(h, e)
    requires h.acked == {} && e.AckE? ==> e.m.number == 1
    requires h.acked != {} ==> 1 in h.acked
    ensures Guarded(c, h, e)
    ensures Step(c, h, e).acked != {} ==> 1 in Step(c, h, e).acked
  {
    LoggedByStep(c, h, e);
    if h.s.tracker != [] { TrackedWasAcked(Records(c, h.start), h.start, h.acked, h.s.tracker); }
  }

  // ---------- sessions after one another ----------

  /** `done`: lines acknowledged in earlier sessions. */
  datatype History = History(now: Session, done: set<nat>)

  datatype Act = Act(e: Event) | Takeover

  ghost predicate LineAcked(g: History, l: nat) {
    l in g.done || AckedLine(g.now.start, g.now.acked, l)
  }

  function AckedLines(c: Config, h: Session): set<nat> {
    set l: nat | h.start.line < l <= h.start.line + |Records(c, h.start)| && AckedLine(h.start, h.acked, l)
  }

  /** The lock outlives its owner: the next one opens the file at the logged position. */
  function Do(c: Config, g: History, a: Act): History {
    match a
    case Act(e) => g.(now := Step(c, g.now, e))
    case Takeover =>
      History(Session(g.now.s.logged, Open(g.now.s.logged), {}), g.done + AckedLines(c, g.now))
  }

  function RunAll(c: Config, acts: seq<Act>): History {
    if acts == [] then History(Session(ORIGIN, Open(ORIGIN), {}), {})
    else Do(c, RunAll(c, acts[..|acts| - 1]), acts[|acts| - 1])
  }

  /** Acts happen while the file is open; progress is logged only after the session's first line was acknowledged. */
  predicate LegalActs(c: Config, acts: seq<Act>) {
    acts != [] ==>
      var before := acts[..|acts| - 1];
      var g := RunAll(c, before);
      var a := acts[|acts| - 1];
      && LegalActs(c, before)
      && g.now.s.reader.Some?
      && (a.Act? ==> Enabled(g.now, a.e) && Guarded(c, g.now, a.e))
  }

  /** The position after `k` lines of the file. */
  ghost predicate Boundary(c: Config, o: Offset) {
    o.line <= |ReadAll(c.text, ORIGIN)| && o == After(c.text, ORIGIN, o.line)
  }

  ghost predicate Good(c: Config, g: History) {
    && Boundary(c, g.now.start)
    && (forall l: nat :: 1 <= l <= g.now.start.line ==> l in g.done)
    && LogSafe(c, g.now)
    && (g.now.s.reader.Some? ==> Sound(c, g.now))
  }

  /** A text that ends in a newline is read with consecutive line numbers from any position on. */
  lemma TerminatedNumbered(c: Config, o: Offset)
    requires Terminated(c.text)
    ensures Numbered(c, o)
  {
    assert Terminated(Rest(c.text, o));
    LinesNumberedIff(Rest(c.text, o), o);
  }

  lemma BoundaryNumbered(c: Config, o: Offset)
    requires Terminated(c.text) && Boundary(c, o)
    ensures Numbered(c, o) && Records(c, o) == ReadAll(c.text, ORIGIN)[o.line..]
  {
    TerminatedNumbered(c, o);
    ResumeReads(c.text, ORIGIN, o.line);
  }

  lemma LoggedBoundary(c: Config, g: History)
    requires Terminated(c.text) && Good(c, g)
    ensures Boundary(c, g.now.s.logged)
  {
    BoundaryNumbered(c, g.now.start);
    var k := g.now.s.logged.line - g.now.start.line;
    if k > 0 {
      assert Records(c, g.now.start)[k - 1] == ReadAll(c.text, ORIGIN)[g.now.start.line + k - 1];
    }
  }

  lemma TakeoverGood(c: Config, g: History)
    requires Terminated(c.text) && Good(c, g)
    ensures Good(c, Do(c, g, Takeover))
  {
    LoggedBoundary(c, g);
    BoundaryNumbered(c, g.now.s.logged);
    OpenSound(c, g.now.s.logged);
    var g1 := Do(c, g, Takeover);
    forall l: nat | 1 <= l <= g1.now.start.line ensures l in g1.done {
      if l > g.now.start.line { assert AckedLine(g.now.start, g.now.acked, l); }
    }
  }

  lemma {:induction false} RunGood(c: Config, acts: seq<Act>)
    requires Terminated(c.text) && LegalActs(c, acts)
    ensures Good(c, RunAll(c, acts))
  {
    if acts == [] {
      BoundaryNumbered(c, ORIGIN);
      OpenSound(c, ORIGIN);
    } else {
      var before := acts[..|acts| - 1];
      var g := RunAll(c, before);
      RunGood(c, before);
      match acts[|acts| - 1]
      case Act(e) => StepSound(c, g.now, e);
      case Takeover => TakeoverGood(c, g);
    }
  }

  /**
   * End-to-end resume: at every point of every guarded run, whoever resumes from the logged position reads
   * a suffix of the file's lines; every line before it was acknowledged, so every line that was not is read.
   */
  lemma {:induction false} EndToEndResume(c: Config, acts: seq<Act>)
    requires Terminated(c.text) && LegalActs(c, acts)
    ensures var g := RunAll(c, acts);
            var all := ReadAll(c.text, ORIGIN);
            var k := g.now.s.logged.line;
            && k <= |all|
            && ReadAll(c.text, g.now.s.logged) == all[k..]
            && (forall l :: 1 <= l <= k ==> LineAcked(g, l))
            && (forall l :: 1 <= l <= |all| && !LineAcked(g, l) ==> all[l - 1] in ReadAll(c.text, g.now.s.logged))
  {
    var g := RunAll(c, acts);
    RunGood(c, acts);
    ResumesSuffix(c, g);
    BeforeLoggedAcked(c, g);
    UnackedIsRead(c, g);
  }

  lemma UnackedIsRead(c: Config, g: History)
    requires Terminated(c.text) && Good(c, g)
    ensures var all := ReadAll(c.text, ORIGIN);
            forall l :: 1 <= l <= |all| && !LineAcked(g, l) ==> all[l - 1] in ReadAll(c.text, g.now.s.logged)
  {
    var (all, k) := (ReadAll(c.text, ORIGIN), g.now.s.logged.line);
    ResumesSuffix(c, g);
    BeforeLoggedAcked(c, g);
    forall l | 1 <= l <= |all| && !LineAcked(g, l) ensures all[l - 1] in all[k..] {
      assert all[k..][l - 1 - k] == all[l - 1];
    }
  }

  lemma ResumesSuffix(c: Config, g: History)
    requires Terminated(c.text) && Good(c, g)
    ensures var (all, k) := (ReadAll(c.text, ORIGIN), g.now.s.logged.line);
            k <= |all| && ReadAll(c.text, g.now.s.logged) == all[k..]
  {
    LoggedBoundary(c, g);
    BoundaryNumbered(c, g.now.s.logged);
  }

  lemma BeforeLoggedAcked(c: Config, g: History)
    requires Good(c, g)
    ensures forall l :: 1 <= l <= g.now.s.logged.line ==> LineAcked(g, l)
  {
    forall l: nat | 1 <= l <= g.now.s.logged.line ensures LineAcked(g, l) {
      if l > g.now.start.line { assert AckedLine(g.now.start, g.now.acked, l); }
    }
  }

  /**
   * Archiving: after every guarded run, across sessions and takeovers, an acknowledgement that archives the
   * file with an empty retry list leaves every line of the whole file acknowledged.
   */
  lemma {:induction false} ArchivedFileComplete(c: Config, acts: seq<Act>, m: Msg)
    requires Terminated(c.text) && LegalActs(c, acts)
    requires var g := RunAll(c, acts); g.now.s.reader.Some? && m in g.now.s.inflight && Archives(c, g.now.s, m)
    requires RunAll(c, acts).now.s.retry == []
    ensures var g1 := Do(c, RunAll(c, acts), Act(AckE(m)));
            g1.now.s.reader == None && forall l :: 1 <= l <= |ReadAll(c.text, ORIGIN)| ==> LineAcked(g1, l)
  {
    var g := RunAll(c, acts);
    var g1 := Do(c, g, Act(AckE(m)));
    RunGood(c, acts);
    BoundaryNumbered(c, g.now.start);
    ArchiveCompleteIff(c, g.now, m);
    forall l | 1 <= l <= |ReadAll(c.text, ORIGIN)| ensures LineAcked(g1, l) {
      if l > g.now.start.line { assert AckedLine(g.now.start, g1.now.acked, l); }
    }
  }

  /** In every session the first acknowledgement is for the first line emitted. */
  predicate OrderlyActs(c: Config, acts: seq<Act>) {
    acts != [] ==>
      var before := acts[..|acts| - 1];
      var g := RunAll(c, before);
      var a := acts[|acts| - 1];
      && OrderlyActs(c, before)
      && g.now.s.reader.Some?
      && (a.Act? ==> Enabled(g.now, a.e) && (a.e.AckE? && g.now.acked == {} ==> a.e.m.number == 1))
  }

  lemma {:induction false} OrderlyIsLegal(c: Config, acts: seq<Act>)
    requires Terminated(c.text) && OrderlyActs(c, acts)
    ensures LegalActs(c, acts)
    ensures RunAll(c, acts).now.acked != {} ==> 1 in RunAll(c, acts).now.acked
  {
    if acts != [] {
      var before := acts[..|acts| - 1];
      OrderlyIsLegal(c, before);
      RunGood(c, before);
      var a := acts[|acts| - 1];
      if a.Act? { FirstAckFirstGuards(c, RunAll(c, before).now, a.e); }
    }
  }
}

/** The spout in the code's own form. */
module HdfsSpoutClass {
  import opened Common
  import opened TextReader
  import opened Tracker
  import opened SpoutRuns

  class HdfsSpout {
    const c: Config
    var reader: TextFileReader?
    const tracker: ProgressTracker
    var inflight: set<Msg>
    var retryList: seq<Msg>
    var tupleCounter: nat
    var acksSinceLastCommit: nat
    var commitTimeElapsed: bool
    var fileReadCompletely: bool
    var lockEntry: Offset
    var lockHeld: bool
    var collected: seq<Msg>

    ghost function View(): SpoutState
      reads this, reader, tracker
    {
      SpoutState(if reader == null then None else Some(reader.offset), fileReadCompletely, inflight, retryList,
                  tracker.offsets, tupleCounter, acksSinceLastCommit, commitTimeElapsed, lockEntry)
    }

    ghost predicate Valid()
      reads this, reader, tracker
    {
      (reader != null ==> reader.Valid() && reader.text == c.text) && (lockHeld <==> reader != null) && tracker.Valid()
    }

    /** The file has been picked and locked, or taken over, with `start` in the last entry of the lock. */
    constructor (c: Config, start: Offset)
      ensures Valid() && this.c == c && View() == Open(start) && lockHeld && collected == []
      ensures fresh(tracker) && reader != null && fresh(reader)
    {
      this.c := c;
      reader := new TextFileReader(c.text, start);
      tracker := new ProgressTracker();
      inflight, retryList, tupleCounter, acksSinceLastCommit := {}, [], 0, 0;
      commitTimeElapsed, fileReadCompletely, lockEntry, lockHeld, collected := false, false, start, true, [];
    }

    method CommitProgress(position: Option<Offset>)
      requires Valid() && position == (if tracker.offsets == [] then None else Some(tracker.offsets[0]))
      modifies this`lockEntry, this`acksSinceLastCommit, this`commitTimeElapsed
      ensures Valid() && View() == SpoutRuns.CommitProgress(c, old(View()))
      ensures var due := lockHeld && position.Some?
                         && (old(commitTimeElapsed) || 0 < c.commitCount <= old(acksSinceLastCommit));
              if due then lockEntry == position.value && acksSinceLastCommit == 0 && !commitTimeElapsed
              else lockEntry == old(lockEntry) && acksSinceLastCommit == old(acksSinceLastCommit)
                   && commitTimeElapsed == old(commitTimeElapsed)
    {
      if position.None? || !lockHeld { return; }
      if (c.commitCount > 0 && acksSinceLastCommit >= c.commitCount) || commitTimeElapsed {
        lockEntry := position.value;
        acksSinceLastCommit := 0;
        commitTimeElapsed := false;
      }
    }

    method EmitData(m: Msg)
      modifies this`inflight, this`collected
      ensures inflight == old(inflight) + {m} && collected == old(collected) + [m]
    {
      collected := collected + [m];
      inflight := inflight + {m};
    }

    /** Emits the next line and records progress, or notices the end of the file. */
    method EmitNextLine() returns (emitted: bool)
      requires Valid() && reader != null && !fileReadCompletely && retryList == [] && |tracker.offsets| < c.maxOutstanding
      modifies this, reader
      ensures Valid() && View() == SpoutRuns.NextTuple(c, old(View())) && reader == old(reader)
      ensures collected == old(collected) + Emitted(c, old(View()))
      ensures emitted <==> old(reader.offset.chars) < |c.text|
      ensures if emitted
              then exists line :: && LineBefore(c.text, old(reader.offset), Some(line), reader.offset)
                                  && collected == old(collected) + [Msg(old(tupleCounter) + 1, reader.offset, line)]
              else fileReadCompletely && collected == old(collected)
    {
      var line := reader.Next();
      emitted := line.Some?;
      if emitted {
        tupleCounter := tupleCounter + 1;
        EmitData(Msg(tupleCounter, reader.offset, line.value));
        var position := tracker.GetCommitPosition();
        CommitProgress(position);
      } else {
        fileReadCompletely := true;
      }
    }

    method NextTuple()
      requires Valid()
      modifies this, reader
      ensures Valid() && View() == SpoutRuns.NextTuple(c, old(View())) && reader == old(reader)
      ensures collected == old(collected) + Emitted(c, old(View()))
      ensures old(retryList) != [] ==>
        && retryList == old(retryList)[1..] && inflight == old(inflight) + {old(retryList)[0]}
        && collected == old(collected) + [old(retryList)[0]] && tupleCounter == old(tupleCounter)
      ensures old(retryList) == []
              && (|old(tracker.offsets)| >= c.maxOutstanding || old(reader) == null || old(fileReadCompletely)) ==>
        View() == old(View()) && collected == old(collected)
    {
      if retryList != [] {
        var m := retryList[0];
        retryList := retryList[1..];
        EmitData(m);
        return;
      }
      if |tracker.offsets| >= c.maxOutstanding { return; }
      ghost var s0 := View();
      ghost var emitted0 := collected;
      while true
        invariant Valid() && reader == old(reader)
        invariant !fileReadCompletely ==> View() == s0 && collected == emitted0
        invariant fileReadCompletely ==> View() == SpoutRuns.NextTuple(c, s0) && collected == emitted0 + Emitted(c, s0)
        decreases !fileReadCompletely
      {
        if reader == null || fileReadCompletely { return; }
        var emitted := EmitNextLine();
        if emitted { return; }
      }
    }

    method CloseReaderAndResetTrackers()
      modifies this, tracker
      ensures Valid() && !lockHeld && collected == old(collected)
      ensures View() == old(View()).(reader := None, inflight := {}, tracker := [], retry := [])
    {
      inflight := {};
      tracker.offsets := [];
      retryList := [];
      reader := null;
      lockHeld := false;
    }

    method Ack(m: Msg)
      requires Valid()
      modifies this, tracker
      ensures Valid() && View() == SpoutRuns.Ack(c, old(View()), m) && collected == old(collected)
      ensures var after := RecordAcked(old(tracker.offsets), m.end);
              var due := old(lockHeld) && after != []
                         && (old(commitTimeElapsed) || 0 < c.commitCount <= old(acksSinceLastCommit) + 1);
              if due then lockEntry == after[0] && acksSinceLastCommit == 0 && !commitTimeElapsed
              else lockEntry == old(lockEntry) && acksSinceLastCommit == old(acksSinceLastCommit) + 1
                   && commitTimeElapsed == old(commitTimeElapsed)
      ensures if old(fileReadCompletely) && old(inflight) - {m} == {}
              then reader == null && !lockHeld && inflight == {} && retryList == [] && tracker.offsets == []
              else reader == old(reader) && lockHeld == old(lockHeld) && inflight == old(inflight) - {m}
                   && retryList == old(retryList) && tracker.offsets == RecordAcked(old(tracker.offsets), m.end)
    {
      inflight := inflight - {m};
      acksSinceLastCommit := acksSinceLastCommit + 1;
      tracker.RecordAckedOffset(m.end);
      var position := tracker.GetCommitPosition();
      CommitProgress(position);
      if fileReadCompletely && inflight == {} { CloseReaderAndResetTrackers(); }
    }

    method Fail(m: Msg)
      requires Valid()
      modifies this`inflight, this`retryList
      ensures Valid() && View() == SpoutRuns.Fail(old(View()), m)
      ensures inflight == old(inflight) - {m} && retryList == old(retryList) + [m]
    {
      inflight := inflight - {m};
      retryList := retryList + [m];
    }
  }
}
