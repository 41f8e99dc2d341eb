/**
 * A session over a text whose last line is not terminated. That line gets the number of the line before it,
 * so the tracker takes the two for one, and the first of them to be acknowledged stands for both.
 */
module UnterminatedLog {
  import opened Common
  import opened TextReader
  import opened Tracker
  import SpoutLog

  /** All records but the last are numbered one by one; the last one keeps the number before it. */
  ghost predicate ReusesAtEnd(rs: seq<Record>, o: Offset, chars: nat) {
    rs != [] && LinesNumbered(rs[..|rs| - 1], o) && rs[|rs| - 1].end == Offset(chars, o.line + |rs| - 1)
  }

  lemma ReusesCons(r: Record, tail: seq<Record>, o: Offset, chars: nat)
    requires r.end.line == o.line + 1 && ReusesAtEnd(tail, r.end, chars)
    ensures ReusesAtEnd([r] + tail, o, chars)
  {
    var front := tail[..|tail| - 1];
    assert ([r] + tail)[..|tail|] == [r] + front;
    NumberedTail(r, front, o);
    assert LinesNumbered(front, o.(line := o.line + 1)) <==> LinesNumbered(front, r.end);
  }

  lemma {:induction false} LastReuses(rest: string, o: Offset)
    requires !Terminated(rest)
    ensures ReusesAtEnd(Lines(rest, o), o, o.chars + |rest|)
    decreases |rest|
  {
    var r := FirstRecord(rest, o);
    if r.end.line == o.line + 1 {
      LineThenRest(rest, o);
      LastReuses(Behind(rest), r.end);
      ReusesCons(r, Lines(Behind(rest), r.end), o, o.chars + |rest|);
    } else {
      UnterminatedText(rest);
      assert Lines(rest, o) == [r] && [r][..0] == [];
    }
  }

  function Last(rs: seq<Record>): Offset
    requires rs != []
  {
    rs[|rs| - 1].end
  }

  function Front(rs: seq<Record>): seq<Record>
    requires rs != []
  {
    rs[..|rs| - 1]
  }

  /** The records of such a text, read from `start`. */
  ghost predicate Shaped(rs: seq<Record>, start: Offset) {
    && rs != [] && LinesNumbered(Front(rs), start) && Last(rs).line == start.line + |rs| - 1
    && (forall i, j :: 0 <= i < j < |rs| ==> rs[i].end.chars < rs[j].end.chars)
    && (forall i :: 0 <= i < |rs| ==> start.chars < rs[i].end.chars)
  }

  /** The smallest number a line of the session has. */
  function FirstLine(rs: seq<Record>, start: Offset): nat {
    if |rs| == 1 then start.line else start.line + 1
  }

  /** What the tracker has been told, by line: the last line where it was the first of its number. */
  ghost function Told(rs: seq<Record>, start: Offset, acked: set<nat>, tracker: seq<Offset>): Acked
    requires |rs| > 0
  {
    var front := SpoutLog.Positions(Front(rs), start, acked);
    var last := Last(rs);
    if last in tracker then front[last.line := last] else front
  }

  predicate EndsAt(s: seq<Offset>, line: nat) {
    s != [] && s[|s| - 1].line == line
  }

  ghost predicate TrackedUpTo(rs: seq<Record>, start: Offset, acked: set<nat>, tracker: seq<Offset>)
    requires |rs| > 0
  {
    var (told, last, first) := (Told(rs, start, acked, tracker), Last(rs), FirstLine(rs, start));
    && Tracks(tracker, told)
    && (first in told ==> HeadSafe(tracker, told, first))
    && (last in tracker ==> |rs| in acked)
    && (last.line in told ==> EndsAt(tracker, last.line))
  }

  // ---------- the sorted set at its upper end ----------

  lemma {:induction false} InsertPresent(s: seq<Offset>, x: Offset)
    requires Sorted(s) && EndsAt(s, x.line)
    ensures Insert(s, x) == s
  {
    if x.line != s[0].line {
      assert s == [s[0]] + s[1..];
      InsertPresent(s[1..], x);
    }
  }

  lemma {:induction false} InsertEnd(s: seq<Offset>, x: Offset)
    requires Sorted(s)
    ensures EndsAt(Insert(s, x), if s != [] && x.line < s[|s| - 1].line then s[|s| - 1].line else x.line)
    ensures s != [] && x.line < s[|s| - 1].line ==> Insert(s, x)[|Insert(s, x)| - 1] == s[|s| - 1]
    ensures s == [] || s[|s| - 1].line < x.line ==> Insert(s, x)[|Insert(s, x)| - 1] == x
  {
    if s != [] && x.line > s[0].line {
      assert s == [s[0]] + s[1..];
      InsertEnd(s[1..], x);
    }
  }

  lemma TrimEnd(s: seq<Offset>)
    requires Sorted(s) && s != []
    ensures Trim(s)[|Trim(s)| - 1] == s[|s| - 1]
    ensures forall o :: o in Trim(s) ==> o in s
  {
    TrimIsSuffix(s);
  }

  lemma RecordMembers(s: seq<Offset>, x: Offset)
    requires Sorted(s)
    ensures var r := RecordAcked(s, x);
            && r != [] && r[|r| - 1] == Insert(s, x)[|Insert(s, x)| - 1]
            && forall o :: o in r ==> o in s || o == x
  {
    InsertKeepsSorted(s, x);
    TrimEnd(Insert(s, x));
  }

  // ---------- one acknowledgement ----------

  lemma ToldLines(rs: seq<Record>, start: Offset, acked: set<nat>, tracker: seq<Offset>)
    requires Shaped(rs, start)
    ensures AtOrAbove(Told(rs, start, acked, tracker), FirstLine(rs, start))
    ensures forall l :: l in Told(rs, start, acked, tracker) ==> l <= Last(rs).line
  {
  }

  lemma NumberedFront(rs: seq<Record>, start: Offset, k: nat)
    requires Shaped(rs, start) && 1 <= k < |rs|
    ensures rs[k - 1].end.line == start.line + k && rs[k - 1].end != Last(rs)
    ensures FirstLine(rs, start) == start.line + 1
  {
    assert Front(rs)[k - 1] == rs[k - 1];
  }

  /** A line whose number is new to the tracker. */
  lemma {:induction false} NewNumberTracked(rs: seq<Record>, start: Offset, acked: set<nat>, tracker: seq<Offset>, x: Offset, acked': set<nat>)
    requires Shaped(rs, start) && TrackedUpTo(rs, start, acked, tracker)
    requires var told := Told(rs, start, acked, tracker);
             && x.line !in told && FirstLine(rs, start) <= x.line <= Last(rs).line
             && Told(rs, start, acked', RecordAcked(tracker, x)) == told[x.line := x]
    requires acked <= acked' && (x == Last(rs) ==> |rs| in acked')
    ensures TrackedUpTo(rs, start, acked', RecordAcked(tracker, x))
  {
    var told := Told(rs, start, acked, tracker);
    ToldLines(rs, start, acked, tracker);
    SafeStep(tracker, told, x, FirstLine(rs, start));
    RecordMembers(tracker, x);
    InsertEnd(tracker, x);
    if tracker != [] {
      assert tracker[|tracker| - 1] in tracker;
      assert tracker[|tracker| - 1].line in told;
    }
  }

  /** A line whose number the tracker has already. */
  lemma {:induction false} OldNumberTracked(rs: seq<Record>, start: Offset, acked: set<nat>, tracker: seq<Offset>, x: Offset, acked': set<nat>)
    requires Shaped(rs, start) && TrackedUpTo(rs, start, acked, tracker) && acked <= acked'
    requires x.line == Last(rs).line && x.line in Told(rs, start, acked, tracker)
    requires Told(rs, start, acked', tracker) == Told(rs, start, acked, tracker)
    ensures TrackedUpTo(rs, start, acked', RecordAcked(tracker, x))
  {
    var told := Told(rs, start, acked, tracker);
    InsertPresent(tracker, x);
    TrimEnd(tracker);
    TrimTracks(tracker, told, FirstLine(rs, start));
    var r := RecordAcked(tracker, x);
    assert r[|r| - 1] == tracker[|tracker| - 1];
    LastStays(rs, start, tracker, r);
  }

  /** The last position can only be the last element. */
  lemma LastStays(rs: seq<Record>, start: Offset, s: seq<Offset>, r: seq<Offset>)
    requires |rs| > 0 && Sorted(s) && EndsAt(s, Last(rs).line)
    requires r != [] && r[|r| - 1] == s[|s| - 1] && forall o :: o in r ==> o in s
    ensures Last(rs) in r <==> Last(rs) in s
  {
    if Last(rs) in s {
      var i :| 0 <= i < |s| && s[i] == Last(rs);
      assert i == |s| - 1;
      assert r[|r| - 1] in r;
    }
  }

  /** Acknowledging line `k` of the front part tells the tracker that line, unless the last line has taken its number. */
  lemma ToldGrows(rs: seq<Record>, start: Offset, acked: set<nat>, tracker: seq<Offset>, k: nat, r: seq<Offset>)
    requires Shaped(rs, start) && 1 <= k < |rs| && k !in acked
    requires Last(rs) in r <==> Last(rs) in tracker
    ensures var (told, x) := (Told(rs, start, acked, tracker), rs[k - 1].end);
            Told(rs, start, acked + {k}, r)
            == if Last(rs) in tracker && x.line == Last(rs).line then told else told[x.line := x]
  {
    var (front, x) := (Front(rs), rs[k - 1].end);
    NumberedFront(rs, start, k);
    SpoutLog.PositionsGrow(front, start, acked, k);
    assert SpoutLog.Positions(front, start, acked + {k}) == SpoutLog.Positions(front, start, acked)[x.line := x];
  }

  /** Where the last position is in the tracker, it stays there. */
  lemma LastKept(rs: seq<Record>, start: Offset, acked: set<nat>, tracker: seq<Offset>, x: Offset)
    requires Shaped(rs, start) && TrackedUpTo(rs, start, acked, tracker)
    requires x != Last(rs) && x.line <= Last(rs).line
    ensures Last(rs) in RecordAcked(tracker, x) <==> Last(rs) in tracker
  {
    var r := RecordAcked(tracker, x);
    RecordMembers(tracker, x);
    if Last(rs) in tracker {
      LastOfTracker(rs, start, acked, tracker);
      if x.line == Last(rs).line { InsertPresent(tracker, x); } else { InsertEnd(tracker, x); }
      assert r[|r| - 1] in r;
    }
  }

  lemma NotTold(rs: seq<Record>, start: Offset, acked: set<nat>, tracker: seq<Offset>, k: nat)
    requires Shaped(rs, start) && 1 <= k < |rs| && k !in acked
    requires Last(rs) in tracker ==> start.line + k != Last(rs).line
    ensures start.line + k !in Told(rs, start, acked, tracker)
  {
    assert !SpoutLog.AckedLine(start, acked, start.line + k);
  }

  lemma FrontAcked(rs: seq<Record>, start: Offset, acked: set<nat>, tracker: seq<Offset>, k: nat)
    requires Shaped(rs, start) && TrackedUpTo(rs, start, acked, tracker)
    requires 1 <= k < |rs| && k !in acked
    ensures TrackedUpTo(rs, start, acked + {k}, RecordAcked(tracker, rs[k - 1].end))
  {
    var (x, last) := (rs[k - 1].end, Last(rs));
    NumberedFront(rs, start, k);
    LastKept(rs, start, acked, tracker, x);
    ToldGrows(rs, start, acked, tracker, k, RecordAcked(tracker, x));
    if last in tracker && x.line == last.line {
      ToldKept(rs, start, acked, tracker, x, acked + {k});
      OldNumberTracked(rs, start, acked, tracker, x, acked + {k});
    } else {
      NotTold(rs, start, acked, tracker, k);
      NewNumberTracked(rs, start, acked, tracker, x, acked + {k});
    }
  }

  lemma ToldKept(rs: seq<Record>, start: Offset, acked: set<nat>, tracker: seq<Offset>, x: Offset, acked': set<nat>)
    requires |rs| > 0 && (Last(rs) in RecordAcked(tracker, x) <==> Last(rs) in tracker)
    requires Told(rs, start, acked', RecordAcked(tracker, x)) == Told(rs, start, acked, tracker)
    ensures Told(rs, start, acked', tracker) == Told(rs, start, acked, tracker)
  {
  }

  lemma LastOfTracker(rs: seq<Record>, start: Offset, acked: set<nat>, tracker: seq<Offset>)
    requires Shaped(rs, start) && TrackedUpTo(rs, start, acked, tracker) && Last(rs) in tracker
    ensures tracker[|tracker| - 1] == Last(rs)
  {
    var i :| 0 <= i < |tracker| && tracker[i] == Last(rs);
  }

  lemma LastAcked(rs: seq<Record>, start: Offset, acked: set<nat>, tracker: seq<Offset>)
    requires Shaped(rs, start) && TrackedUpTo(rs, start, acked, tracker) && |rs| !in acked
    ensures TrackedUpTo(rs, start, acked + {|rs|}, RecordAcked(tracker, Last(rs)))
  {
    var (n, last) := (|rs|, Last(rs));
    var more := acked + {n};
    BeyondFront(rs, start, acked);
    if last.line in Told(rs, start, acked, tracker) {
      OldNumberTracked(rs, start, acked, tracker, last, more);
    } else {
      RecordMembers(tracker, last);
      InsertEnd(tracker, last);
      ToldLines(rs, start, acked, tracker);
      var r := RecordAcked(tracker, last);
      if tracker != [] {
        assert tracker[|tracker| - 1] in tracker;
        assert tracker[|tracker| - 1].line in Told(rs, start, acked, tracker);
      }
      assert r[|r| - 1] == last && last in r;
      NewNumberTracked(rs, start, acked, tracker, last, more);
    }
  }

  lemma BeyondFront(rs: seq<Record>, start: Offset, acked: set<nat>)
    requires |rs| > 0
    ensures var (n, front) := (|rs|, Front(rs));
            SpoutLog.Positions(front, start, acked + {n}) == SpoutLog.Positions(front, start, acked)
  {
    var (n, front) := (|rs|, Front(rs));
    assert forall l: nat :: start.line < l <= start.line + |front| ==>
      (SpoutLog.AckedLine(start, acked + {n}, l) <==> SpoutLog.AckedLine(start, acked, l));
  }

  lemma NothingTracked(rs: seq<Record>, start: Offset)
    requires Shaped(rs, start)
    ensures TrackedUpTo(rs, start, {}, [])
  {
    assert forall l: nat :: !SpoutLog.AckedLine(start, {}, l);
  }

  // ---------- what a position promises ----------

  /** Resuming at `o` skips acknowledged lines only. */
  predicate SkipsAcked(rs: seq<Record>, acked: set<nat>, o: Offset) {
    forall i :: 1 <= i <= |rs| && rs[i - 1].end.chars <= o.chars ==> i in acked
  }

  /** The head stands for the last line, which came before the line whose number it reuses. */
  predicate StandsForBoth(rs: seq<Record>, acked: set<nat>, head: Offset)
    requires |rs| > 0
  {
    head == Last(rs) && |rs| > 1 && |rs| - 1 !in acked
  }

  lemma ToldFront(rs: seq<Record>, start: Offset, acked: set<nat>, tracker: seq<Offset>, i: nat)
    requires Shaped(rs, start) && start.line + i in Told(rs, start, acked, tracker) && 1 <= i < |rs|
    requires start.line + i == Last(rs).line ==> Last(rs) !in tracker
    ensures i in acked
  {
    assert SpoutLog.AckedLine(start, acked, start.line + i);
  }

  /** A head in the front part: everything up to it was acknowledged iff the first line was. */
  lemma FrontHeadIff(rs: seq<Record>, start: Offset, acked: set<nat>, tracker: seq<Offset>)
    requires Shaped(rs, start) && TrackedUpTo(rs, start, acked, tracker)
    requires tracker != [] && tracker[0] != Last(rs)
    ensures SkipsAcked(rs, acked, tracker[0]) <==> 1 in acked
  {
    var (told, head) := (Told(rs, start, acked, tracker), tracker[0]);
    var k := head.line - start.line;
    assert head in tracker && Holds(told, head);
    assert 1 <= k < |rs| && head == Front(rs)[k - 1].end == rs[k - 1].end;
    if 1 in acked {
      NumberedFront(rs, start, k);
      FirstTold(rs, start, acked, tracker);
      forall i | 1 <= i <= |rs| && rs[i - 1].end.chars <= head.chars ensures i in acked {
        assert i <= k;
        assert start.line + i in told;
        ToldFront(rs, start, acked, tracker, i);
      }
    } else {
      assert rs[0].end.chars <= head.chars;
    }
  }

  lemma FirstTold(rs: seq<Record>, start: Offset, acked: set<nat>, tracker: seq<Offset>)
    requires Shaped(rs, start) && 1 in acked && |rs| > 1
    ensures FirstLine(rs, start) in Told(rs, start, acked, tracker)
  {
    assert SpoutLog.AckedLine(start, acked, start.line + 1);
  }

  /** The last position as the head: all lines before it must have been acknowledged, the one before it above all. */
  lemma LastHeadIff(rs: seq<Record>, start: Offset, acked: set<nat>, tracker: seq<Offset>)
    requires Shaped(rs, start) && TrackedUpTo(rs, start, acked, tracker)
    requires tracker != [] && tracker[0] == Last(rs)
    ensures SkipsAcked(rs, acked, tracker[0]) <==> 1 in acked && !StandsForBoth(rs, acked, tracker[0])
  {
    var (n, told, last) := (|rs|, Told(rs, start, acked, tracker), Last(rs));
    assert last in tracker;
    assert forall i :: 0 <= i < n ==> rs[i].end.chars <= last.chars;
    if 1 in acked && n > 1 {
      FirstTold(rs, start, acked, tracker);
      forall i | 1 <= i < n - 1 ensures i in acked {
        assert start.line + i in told;
        ToldFront(rs, start, acked, tracker, i);
      }
    }
    if SkipsAcked(rs, acked, last) {
      assert rs[0].end.chars <= last.chars;
      if n > 1 { assert rs[n - 1 - 1].end.chars <= last.chars; }
    }
  }

  /**
   * The head of the tracker may be written down iff the first line was acknowledged and the head does not
   * stand for a last line acknowledged before the one whose number it reuses.
   */
  lemma HeadSkipsIff(rs: seq<Record>, start: Offset, acked: set<nat>, tracker: seq<Offset>)
    requires Shaped(rs, start) && TrackedUpTo(rs, start, acked, tracker) && tracker != []
    ensures SkipsAcked(rs, acked, tracker[0]) <==> 1 in acked && !StandsForBoth(rs, acked, tracker[0])
  {
    if tracker[0] == Last(rs) {
      LastHeadIff(rs, start, acked, tracker);
    } else {
      FrontHeadIff(rs, start, acked, tracker);
    }
  }
}

/** The sessions themselves. */
module SpoutUnterminated {
  import opened Common
  import opened Text
  import opened TextReader
  import opened Tracker
  import opened SpoutRuns
  import opened UnterminatedLog

  predicate Unterminated(c: Config, start: Offset) {
    !Terminated(Rest(c.text, start))
  }

  lemma Shape(c: Config, start: Offset)
    requires Unterminated(c, start)
    ensures Shaped(Records(c, start), start)
  {
    LastReuses(Rest(c.text, start), start);
    PositionsAscend(Rest(c.text, start), start);
  }

  ghost predicate Tracked(c: Config, h: Session) {
    Shaped(Records(c, h.start), h.start) && TrackedUpTo(Records(c, h.start), h.start, h.acked, h.s.tracker)
  }

  lemma AckTracked(c: Config, h: Session, m: Msg)
    requires Tracked(c, h) && Known(c, h, m) && m.number !in h.acked
    ensures Tracked(c, Pending(c, h, AckE(m)))
  {
    var rs := Records(c, h.start);
    if m.number == |rs| {
      LastAcked(rs, h.start, h.acked, h.s.tracker);
    } else {
      FrontAcked(rs, h.start, h.acked, h.s.tracker, m.number);
    }
  }

  lemma PendingTracked(c: Config, h: Session, e: Event)
    requires Conserved(c, h) && Tracked(c, h) && Enabled(h, e)
    ensures Tracked(c, Pending(c, h, e))
  {
    if e.AckE? {
      InflightKnown(c, h, e.m);
      AckTracked(c, h, e.m);
    }
  }

  /** Whatever happens in a session over such a text, the tracker tells what it was told. */
  lemma {:induction false} RunTracked(c: Config, start: Offset, events: seq<Event>)
    requires Unterminated(c, start) && LegalEvents(c, start, events)
    requires RunSession(c, start, events).s.reader.Some?
    ensures RunSession(c, start, events).start == start && Tracked(c, RunSession(c, start, events))
  {
    Shape(c, start);
    if events == [] {
      NothingTracked(Records(c, start), start);
    } else {
      var (before, e) := (events[..|events| - 1], events[|events| - 1]);
      var h := RunSession(c, start, before);
      RunTracked(c, start, before);
      RunConserved(c, start, before);
      PendingTracked(c, h, e);
      LoggedByStep(c, h, e);
    }
  }

  /** Resuming from the logged position skips acknowledged lines only. */
  predicate LogSkipsAcked(c: Config, h: Session) {
    SkipsAcked(Records(c, h.start), h.acked, h.s.logged)
  }

  /** The position a step writes may be written. */
  predicate MayWrite(c: Config, h: Session, e: Event) {
    var p := Pending(c, h, e);
    Logs(c, h, e) ==>
      Records(c, h.start) != [] && 1 in p.acked && !StandsForBoth(Records(c, h.start), p.acked, p.s.tracker[0])
  }

  lemma SkipsMore(rs: seq<Record>, acked: set<nat>, more: set<nat>, o: Offset)
    requires SkipsAcked(rs, acked, o) && acked <= more
    ensures SkipsAcked(rs, more, o)
  {
  }

  /** One step of such a session leaves a log that skips acknowledged lines only iff what it writes may be written. */
  lemma TrackedStepIff(c: Config, h: Session, e: Event)
    requires Conserved(c, h) && Tracked(c, h) && Enabled(h, e) && LogSkipsAcked(c, h)
    ensures LogSkipsAcked(c, Step(c, h, e)) <==> MayWrite(c, h, e)
  {
    var p := Pending(c, h, e);
    PendingTracked(c, h, e);
    LoggedByStep(c, h, e);
    if Logs(c, h, e) {
      HeadSkipsIff(Records(c, h.start), h.start, p.acked, p.s.tracker);
    } else {
      SkipsMore(Records(c, h.start), h.acked, p.acked, h.s.logged);
    }
  }

  /**
   * At any point of any session over a text without a final newline: a step leaves a log position that skips
   * acknowledged lines only iff the position it writes, if any, has the first line acknowledged and does not
   * stand for a last line that was acknowledged before the one whose number it reuses.
   */
  lemma {:induction false} StepSkipsIff(c: Config, start: Offset, events: seq<Event>, e: Event)
    requires Unterminated(c, start) && LegalEvents(c, start, events)
    requires var h := RunSession(c, start, events); Enabled(h, e) && LogSkipsAcked(c, h)
    ensures var h := RunSession(c, start, events); LogSkipsAcked(c, Step(c, h, e)) <==> MayWrite(c, h, e)
  {
    RunTracked(c, start, events);
    RunConserved(c, start, events);
    TrackedStepIff(c, RunSession(c, start, events), e);
  }

  lemma NothingBehindLast(c: Config)
    requires Unterminated(c, ORIGIN)
    ensures Records(c, ORIGIN) != [] && ReadAll(c.text, Last(Records(c, ORIGIN))) == []
  {
    LastReuses(Rest(c.text, ORIGIN), ORIGIN);
  }

  /** Lines 1 and 3 of three are acknowledged, each followed by a heartbeat. */
  lemma TwoAcks(c: Config, h: Session)
    requires |Records(c, ORIGIN)| == 3 && c.commitCount == 1
    requires h == Session(ORIGIN, LinesOut(c, 3), {})
    requires MsgAt(c, ORIGIN, 1).end.IsNext(MsgAt(c, ORIGIN, 3).end)
    ensures var (m1, m3) := (MsgAt(c, ORIGIN, 1), MsgAt(c, ORIGIN, 3));
            var h1 := Step(c, h, AckE(m1));
            var h2 := Step(c, h1, AckE(m3));
            Enabled(h, AckE(m1)) && Enabled(h1, AckE(m3))
            && h2.acked == {1, 3} && h2.s.reader.Some? && h2.s.logged == m3.end
  {
    var (m1, m3) := (MsgAt(c, ORIGIN, 1), MsgAt(c, ORIGIN, 3));
    assert m1 in h.s.inflight && m3 in h.s.inflight - {m1};
    TwoTracked(m1.end, m3.end);
  }

  /** From the start: in any three-line file without a final newline, line 2 is skipped although nobody acknowledged it. */
  lemma {:induction false} LineBeforeLastLost(c: Config)
    requires |Records(c, ORIGIN)| == 3 && Unterminated(c, ORIGIN) && c.commitCount == 1 && c.maxOutstanding > 0
    ensures var events := [NextE, NextE, NextE, AckE(MsgAt(c, ORIGIN, 1)), AckE(MsgAt(c, ORIGIN, 3))];
            var h := RunSession(c, ORIGIN, events);
            LegalEvents(c, ORIGIN, events) && 2 !in h.acked && h.s.reader.Some?
            && h.s.logged == Last(Records(c, ORIGIN)) && ReadAll(c.text, h.s.logged) == []
  {
    var (m1, m3) := (MsgAt(c, ORIGIN, 1), MsgAt(c, ORIGIN, 3));
    var read := [NextE, NextE, NextE];
    ThreeLinesOut(c);
    Shape(c, ORIGIN);
    NumberedFront(Records(c, ORIGIN), ORIGIN, 1);
    TwoAcks(c, RunSession(c, ORIGIN, read));
    OneMore(c, ORIGIN, read, AckE(m1));
    OneMore(c, ORIGIN, read + [AckE(m1)], AckE(m3));
    assert read + [AckE(m1)] + [AckE(m3)] == [NextE, NextE, NextE, AckE(m1), AckE(m3)];
    NothingBehindLast(c);
  }

  const SMALL := Config("a\nb\nc", 1, 1)

  /** Such a file. */
  lemma SmallFile()
    ensures |Records(SMALL, ORIGIN)| == 3 && Unterminated(SMALL, ORIGIN)
  {
    var (abc, bc, c) := ("a\nb\nc", "b\nc", "c");
    assert Rest(abc, ORIGIN) == abc && abc == "a" + "\n" + bc && bc == "b" + "\n" + c;
    IndexOfPrefix("a", '\n', bc);
    IndexOfPrefix("b", '\n', c);
    IndexOfAbsent(c, '\n');
    assert Behind(abc) == bc && Behind(bc) == c && Behind(c) == [];
    var o1 := FirstRecord(abc, ORIGIN).end;
    OneLineMore(abc, ORIGIN);
    OneLineMore(bc, o1);
    OneLineMore(c, FirstRecord(bc, o1).end);
  }

  lemma OneLineMore(rest: string, o: Offset)
    requires rest != []
    ensures |Lines(rest, o)| == 1 + |Lines(Behind(rest), FirstRecord(rest, o).end)|
  {
  }

  lemma TwoTracked(x: Offset, y: Offset)
    requires x.IsNext(y)
    ensures RecordAcked([], x) == [x] && RecordAcked([x], y) == [y]
  {
    assert Insert([], y) == [y];
    assert [x][1..] == [] && Insert([x], y) == [x] + [y] == [x, y];
    assert [x, y][1..] == [y] && Trim([y]) == [y];
  }

  /** The first `k` lines of the file are out and nothing else has happened. */
  ghost function LinesOut(c: Config, k: nat): SpoutState
    requires k <= |Records(c, ORIGIN)|
  {
    Open(ORIGIN).(reader := Some(After(c.text, ORIGIN, k)), counter := k,
                  inflight := set n | 1 <= n <= k :: MsgAt(c, ORIGIN, n))
  }

  lemma OneMoreOut(c: Config, k: nat)
    requires k < |Records(c, ORIGIN)| && c.maxOutstanding > 0
    ensures NextTuple(c, LinesOut(c, k)) == LinesOut(c, k + 1)
  {
    NextLine(c, ORIGIN, LinesOut(c, k));
    assert LinesOut(c, k + 1).inflight == LinesOut(c, k).inflight + {MsgAt(c, ORIGIN, k + 1)};
  }

  lemma ThreeLinesOut(c: Config)
    requires |Records(c, ORIGIN)| == 3 && c.maxOutstanding > 0
    ensures LegalEvents(c, ORIGIN, [NextE, NextE, NextE])
    ensures RunSession(c, ORIGIN, [NextE, NextE, NextE]) == Session(ORIGIN, LinesOut(c, 3), {})
  {
    assert Open(ORIGIN) == LinesOut(c, 0);
    OneMoreOut(c, 0);
    OneMoreOut(c, 1);
    OneMoreOut(c, 2);
    ThreeCalls(c);
  }
}
