/** From the lock file back to the text file: where a spout that takes a lock over starts to read. */
module LockResume {
  import opened Common
  import opened Text
  import opened TextReader
  import opened LockLog

  /** `None`: the last line of the lock file, or the offset in it, cannot be taken apart. */
  function ResumeOffset(lockFile: string): Option<Offset> {
    match LastEntry(lockFile)
    case None => None
    case Some(e) => Parse(e.offset)
  }

  lemma PrintHasNoBreak(o: Offset)
    ensures '\n' !in o.Print() && '\r' !in o.Print()
  {
    NameAndNumber("{char=", o.chars, '\n');
    NameAndNumber("{char=", o.chars, '\r');
    NameAndNumber("line=", o.line, '\n');
    NameAndNumber("line=", o.line, '\r');
  }

  /**
   * The position logged last is the position the next owner starts from, whatever was torn before it: a
   * printed one, the creator's "0", or what a takeover found and logged again.
   */
  lemma ResumesWhereLogged(first: Entry, ops: seq<LogOp>)
    requires LastComplete(ops) && LastLogged(first, ops).Plain()
    ensures ResumeOffset(Contents(first, ops)) == Parse(LastLogged(first, ops).offset)
  {
    LastEntryIsRead(first, ops);
  }

  /** A printed position is a plain offset that parses back. */
  lemma PrintedIsPlain(time: nat, component: string, o: Offset)
    requires Name(component)
    ensures Entry(time, component, o.Print()).Plain() && Parse(o.Print()) == Some(o)
  {
    PrintHasNoBreak(o);
    ParsePrint(o);
  }

  /** A component id as it can stand in an entry. */
  predicate Name(component: string) {
    ',' !in component && '\n' !in component && '\r' !in component
  }

  /** A lock that was never written to again sends its next owner to the beginning of the file. */
  lemma ResumesAtOrigin(time: nat, component: string)
    requires Name(component)
    ensures ResumeOffset(Contents(Entry(time, component, "0"), [])) == Some(ORIGIN)
  {
    LastEntryIsRead(Entry(time, component, "0"), []);
  }

  lemma {:induction false} DropKeepsFront(a: string, rest: seq<string>)
    requires a != []
    ensures var parts := DropTrailingEmpty([a] + rest); parts != [] && parts[0] == a
  {
    if rest != [] && rest[|rest| - 1] == [] {
      var front := rest[..|rest| - 1];
      assert ([a] + rest)[..|rest|] == [a] + front;
      DropKeepsFront(a, front);
    }
  }

  /** With the character part complete, whatever is left of the line part decides. */
  lemma CharPartThen(o: Offset, rest: string)
    ensures var s := o.CharPart() + [':'] + rest;
            s[0] == '{' && Field(DropTrailingEmpty(Split(s, ':')), 0) == Some(o.chars)
  {
    NameAndNumber("{char=", o.chars, ':');
    SplitFirst(o.CharPart(), ':', rest);
    DropKeepsFront(o.CharPart(), Split(rest, ':'));
    FieldValue("{char", o.chars, DropTrailingEmpty([o.CharPart()] + Split(rest, ':')), 0);
  }

  lemma FirstFieldIsChars(s: string, chars: nat)
    requires s != "0" && Field(DropTrailingEmpty(Split(s, ':')), 0) == Some(chars)
    ensures Parse(s).Some? ==> Parse(s).value.chars == chars
  {
  }

  lemma OnePartOnly(s: string)
    requires ':' !in s && (s != [] ==> s[0] == '{')
    ensures Parse(s) == None
  {
    IndexOfAbsent(s, ':');
    assert Split(s, ':') == [s] && [s][..0] == [];
    assert |DropTrailingEmpty([s])| <= 1;
  }

  lemma CharPartTorn(o: Offset, k: nat)
    requires k <= |o.CharPart()| + 1
    ensures Parse(o.Print()[..k]) == None
  {
    var c := o.CharPart();
    NameAndNumber("{char=", o.chars, ':');
    assert o.Print() == c + [':'] + (o.LinePart() + [':'] + "}");
    if k <= |c| {
      assert o.Print()[..k] == c[..k];
      OnePartOnly(c[..k]);
    } else {
      assert o.Print()[..k] == c + [':'] + [];
      EmptySecondPart(c);
    }
  }

  lemma EmptySecondPart(c: string)
    requires ':' !in c && c != [] && c[0] == '{'
    ensures Parse(c + [':'] + []) == None
  {
    SplitFirst(c, ':', []);
    assert Split([], ':') == [[]];
    assert [c, []][..1] == [c];
    assert |DropTrailingEmpty([c, []])| <= 1;
    assert (c + [':'] + [])[0] == '{';
  }

  /** A torn offset names the right character or nothing at all. */
  lemma TornOffset(o: Offset, k: nat)
    requires k <= |o.Print()|
    ensures Parse(o.Print()[..k]).Some? ==> Parse(o.Print()[..k]).value.chars == o.chars
  {
    var c := o.CharPart();
    if k <= |c| + 1 {
      CharPartTorn(o, k);
    } else {
      var rest := (o.LinePart() + [':'] + "}")[..k - |c| - 1];
      assert o.Print() == c + [':'] + (o.LinePart() + [':'] + "}");
      assert o.Print()[..k] == c + [':'] + rest;
      CharPartThen(o, rest);
      FirstFieldIsChars(o.Print()[..k], o.chars);
    }
  }

  /** A torn entry is no entry, or the entry with its offset cut short. */
  lemma TornEntry(e: Entry, k: nat)
    requires e.Plain() && k <= |e.Print()|
    ensures var d := Deserialize(e.Print()[..k]);
            d.Some? ==> exists j :: 0 <= j <= |e.offset| && d.value == e.(offset := e.offset[..j])
  {
    var (t, n) := (Decimal(e.time), |Decimal(e.time)|);
    var line := e.Print()[..k];
    if k <= n {
      assert line == t[..k];
      FewFields(t[..k], ',', []);
    } else if k <= n + 1 + |e.component| {
      var c := e.component[..k - n - 1];
      assert line == t + [','] + c;
      FewFields(t, ',', c);
    } else {
      var j := k - n - 2 - |e.component|;
      var cut := e.(offset := e.offset[..j]);
      assert line == cut.Print();
      EntryRoundTrip(cut);
    }
  }

  /**
   * An owner that dies in the middle of writing position `o` leaves a lock file that sends the next owner to
   * that very character of the text, or to none; if it died before the first character of the entry, to the
   * position logged before. (The line number may be cut short.)
   */
  lemma {:induction false} TornWriteResumes(first: Entry, ops: seq<LogOp>, e: Entry, written: nat, o: Offset)
    requires LastComplete(ops) && LastLogged(first, ops).Plain() && e.Plain() && e.offset == o.Print()
    ensures var r := ResumeOffset(Contents(first, ops + [Torn(e, written)]));
            if written <= 1 then r == ResumeOffset(Contents(first, ops))
            else r.Some? ==> r.value.chars == o.chars
  {
    if written <= 1 {
      BreakAloneKeepsEntry(first, ops, e, written);
      LastEntryIsRead(first, ops);
    } else {
      TornLastLine(first, ops, e, written);
      CutEntryResumes(e, Min(written, 1 + |e.Print()|) - 1, o);
    }
  }

  lemma CutEntryResumes(e: Entry, k: nat, o: Offset)
    requires e.Plain() && e.offset == o.Print() && k <= |e.Print()|
    ensures var d := Deserialize(e.Print()[..k]);
            d.Some? && Parse(d.value.offset).Some? ==> Parse(d.value.offset).value.chars == o.chars
  {
    TornEntry(e, k);
    var d := Deserialize(e.Print()[..k]);
    if d.Some? {
      var j :| 0 <= j <= |e.offset| && d.value == e.(offset := e.offset[..j]);
      TornOffset(o, j);
    }
  }

  /** The same lines, ending at the same characters. */
  predicate SameLines(rs: seq<Record>, qs: seq<Record>) {
    |rs| == |qs| && forall i :: 0 <= i < |rs| ==> rs[i].line == qs[i].line && rs[i].end.chars == qs[i].end.chars
  }

  lemma SameLinesCons(r: Record, rs: seq<Record>, q: Record, qs: seq<Record>)
    requires r.line == q.line && r.end.chars == q.end.chars && SameLines(rs, qs)
    ensures SameLines([r] + rs, [q] + qs)
  {
  }

  lemma CutIsPlain(e: Entry, k: nat)
    requires e.Plain() && k <= |e.Print()|
    ensures var d := Deserialize(e.Print()[..k]); d.Some? ==> d.value.Plain()
  {
    TornEntry(e, k);
    var d := Deserialize(e.Print()[..k]);
    if d.Some? {
      var j :| 0 <= j <= |e.offset| && d.value == e.(offset := e.offset[..j]);
      PrefixHasNoBreak(e.offset, j);
    }
  }

  lemma PrefixHasNoBreak(s: string, j: nat)
    requires j <= |s| && '\n' !in s && '\r' !in s
    ensures '\n' !in s[..j] && '\r' !in s[..j]
  {
  }

  /** What is found after such a death can be logged again: it is a plain entry. */
  lemma FoundIsPlain(first: Entry, ops: seq<LogOp>, e: Entry, written: nat)
    requires LastComplete(ops) && LastLogged(first, ops).Plain() && e.Plain()
    ensures var found := LastEntry(Contents(first, ops + [Torn(e, written)])); found.Some? ==> found.value.Plain()
  {
    if written <= 1 {
      BreakAloneKeepsEntry(first, ops, e, written);
    } else {
      TornLastLine(first, ops, e, written);
      CutIsPlain(e, Min(written, 1 + |e.Print()|) - 1);
    }
  }

  /** Where to read from is a matter of the character alone; the line number only names the lines. */
  lemma {:induction false} SameCharSameLines(rest: string, a: Offset, b: Offset)
    requires a.chars == b.chars
    ensures SameLines(Lines(rest, a), Lines(rest, b))
    decreases |rest|
  {
    if rest != [] {
      var (r, q) := (FirstRecord(rest, a), FirstRecord(rest, b));
      SameCharSameLines(Behind(rest), r.end, q.end);
      SameLinesCons(r, Lines(Behind(rest), r.end), q, Lines(Behind(rest), q.end));
    }
  }

  /** So the next owner, if it can start at all, reads exactly the lines behind one of the two positions. */
  lemma {:induction false} TornWriteReadsOn(
      text: string, first: Entry, ops: seq<LogOp>, e: Entry, written: nat, o: Offset, before: Offset)
    requires LastComplete(ops) && LastLogged(first, ops).Plain() && e.Plain()
    requires e.offset == o.Print() && Parse(LastLogged(first, ops).offset) == Some(before)
    requires ResumeOffset(Contents(first, ops + [Torn(e, written)])).Some?
    ensures var start := ResumeOffset(Contents(first, ops + [Torn(e, written)])).value;
            SameLines(ReadAll(text, start), ReadAll(text, if written <= 1 then before else o))
  {
    TornWriteResumes(first, ops, e, written, o);
    LastEntryIsRead(first, ops);
    var start := ResumeOffset(Contents(first, ops + [Torn(e, written)])).value;
    var from := if written <= 1 then before else o;
    SameCharSameLines(Rest(text, from), start, from);
  }
}
