/**
 * That the spout does write its progress down, and does read on: what the runs of `SpoutRuns` bring about,
 * beside what they keep.
 */
module SpoutProgress {
  import opened Common
  import opened TextReader
  import opened SpoutRuns

  /** The lock file holds the commit position. */
  predicate UpToDate(s: SpoutState) {
    s.tracker != [] && s.logged == s.tracker[0]
  }

  function AckCount(events: seq<Event>): nat {
    if events == [] then 0 else AckCount(events[..|events| - 1]) + if events[|events| - 1].AckE? then 1 else 0
  }

  /** At some point of `more`, which follows on `events`, the lock file comes to hold the commit position. */
  predicate LoggedDuring(c: Config, start: Offset, events: seq<Event>, more: seq<Event>) {
    more != [] &&
      (LoggedDuring(c, start, events, more[..|more| - 1]) || UpToDate(RunSession(c, start, events + more).s))
  }

  lemma {:induction false} UnloggedCounted(c: Config, start: Offset, events: seq<Event>, more: seq<Event>)
    requires LegalEvents(c, start, events + more) && RunSession(c, start, events + more).s.reader.Some?
    requires !LoggedDuring(c, start, events, more)
    ensures var (s0, s) := (RunSession(c, start, events).s, RunSession(c, start, events + more).s);
            && s.acks == s0.acks + AckCount(more)
            && (0 < AckCount(more) ==> !s0.elapsed && (c.commitCount > 0 ==> s.acks < c.commitCount))
            && (s0.elapsed ==> s.elapsed)
    decreases |more|
  {
    if more == [] {
      assert events + more == events;
    } else {
      var n := |more| - 1;
      assert events + more == events + more[..n] + [more[n]];
      OneMore(c, start, events + more[..n], more[n]);
      UnloggedCounted(c, start, events, more[..n]);
      StepLogs(c, RunSession(c, start, events + more[..n]), more[n]);
    }
  }

  /** A step that leaves the lock file behind was not due: too few acknowledgements, and the timer had not run. */
  lemma StepLogs(c: Config, h: Session, e: Event)
    requires h.s.reader.Some?
    requires Step(c, h, e).s.reader.Some? && !UpToDate(Step(c, h, e).s)
    ensures var s := Step(c, h, e).s;
            && s.acks == h.s.acks + (if e.AckE? then 1 else 0)
            && (h.s.elapsed ==> s.elapsed && !e.AckE?)
            && (e.AckE? && c.commitCount > 0 ==> s.acks < c.commitCount)
  {
  }

  /**
   * Progress is written down in time: within any `commitCount` acknowledgements of one session, and by the
   * first acknowledgement after the timer has run, the lock file comes to hold the commit position.
   */
  lemma ProgressIsLogged(c: Config, start: Offset, events: seq<Event>, more: seq<Event>)
    requires LegalEvents(c, start, events + more) && RunSession(c, start, events + more).s.reader.Some?
    requires 0 < AckCount(more)
    requires (0 < c.commitCount <= AckCount(more)) || (events != [] && events[|events| - 1] == ElapseE)
    ensures LoggedDuring(c, start, events, more)
  {
    if !LoggedDuring(c, start, events, more) {
      UnloggedCounted(c, start, events, more);
    }
  }

  /** So fewer acknowledgements than that wait to be written down at any time. */
  lemma {:induction false} FewUnlogged(c: Config, start: Offset, events: seq<Event>)
    requires c.commitCount > 0
    requires LegalEvents(c, start, events) && RunSession(c, start, events).s.reader.Some?
    ensures RunSession(c, start, events).s.acks < c.commitCount
  {
    if events != [] {
      var before := events[..|events| - 1];
      FewUnlogged(c, start, before);
      StepBounded(c, RunSession(c, start, before), events[|events| - 1]);
    }
  }

  lemma StepBounded(c: Config, h: Session, e: Event)
    requires c.commitCount > 0 && h.s.reader.Some? && h.s.acks < c.commitCount
    ensures Step(c, h, e).s.acks < c.commitCount
  {
  }

  /** A new line goes out exactly when nothing is to be retried, there is room, and there is text left. */
  lemma NewLineIff(c: Config, s: SpoutState)
    ensures NextTuple(c, s).counter == s.counter + 1 <==>
              && s.retry == [] && |s.tracker| < c.maxOutstanding
              && s.reader.Some? && !s.readAll && s.reader.value.chars < |c.text|
    ensures Emitted(c, s) == [] && s.reader.Some? && !s.readAll && |s.tracker| < c.maxOutstanding ==>
              NextTuple(c, s) == s.(readAll := true)
  {
  }
}
