/** Reading a text file line by line, with a position that can be written down and resumed from. */
module TextReader {
  import opened Common
  import opened Text

  datatype Offset = Offset(chars: nat, line: nat) {
    function Print(): string {
      CharPart() + [':'] + LinePart() + [':'] + "}"
    }

    function CharPart(): string {
      "{char=" + Decimal(chars)
    }

    function LinePart(): string {
      "line=" + Decimal(line)
    }

    predicate IsNext(other: Offset) {
      other.chars > chars && other.line == line + 1
    }
  }

  const ORIGIN := Offset(0, 0)

  /** The text after the first '=' of part `i`, up to the next one. */
  function Field(parts: seq<string>, i: nat): Option<int> {
    if i >= |parts| then None
    else
      var sides := DropTrailingEmpty(Split(parts[i], '='));
      if |sides| < 2 then None else ParseLong(sides[1])
  }

  /** `None` is the exception on a string that is no offset; negative numbers, never printed, count as that. */
  function Parse(s: string): Option<Offset> {
    if s == "0" then Some(ORIGIN)
    else
      var parts := DropTrailingEmpty(Split(s, ':'));
      match (Field(parts, 0), Field(parts, 1))
      case (Some(c), Some(l)) => if c >= 0 && l >= 0 then Some(Offset(c, l)) else None
      case _ => None
  }

  lemma FieldValue(name: string, n: nat, parts: seq<string>, i: nat)
    requires '=' !in name && i < |parts| && parts[i] == name + "=" + Decimal(n)
    ensures Field(parts, i) == Some(n)
  {
    SplitFirst(name, '=', Decimal(n));
    assert Split(Decimal(n), '=') == [Decimal(n)];
    ParseDecimal(n);
  }

  lemma NameAndNumber(name: string, n: nat, c: char)
    requires c !in name && !IsDigit(c)
    ensures c !in name + Decimal(n)
  {
  }

  lemma PrintedParts(o: Offset)
    ensures DropTrailingEmpty(Split(o.Print(), ':')) == [o.CharPart(), o.LinePart(), "}"]
  {
    NameAndNumber("{char=", o.chars, ':');
    NameAndNumber("line=", o.line, ':');
    SplitThree(o.CharPart(), o.LinePart(), "}", ':');
  }

  /** How a position reads in a lock file. */
  lemma PrintedText(o: Offset)
    ensures o.Print() == "{char=" + Decimal(o.chars) + ":line=" + Decimal(o.line) + ":}"
  {
    assert o.Print() == "{char=" + Decimal(o.chars) + ":" + ("line=" + Decimal(o.line)) + ":" + "}";
  }

  lemma ParsePrint(o: Offset)
    ensures Parse(o.Print()) == Some(o)
  {
    PrintedParts(o);
    var parts := DropTrailingEmpty(Split(o.Print(), ':'));
    FieldValue("{char", o.chars, parts, 0);
    FieldValue("line", o.line, parts, 1);
    assert o.Print()[0] == '{';
  }

  function NoCR(s: string): string {
    if s == [] then [] else (if s[0] == '\r' then [] else [s[0]]) + NoCR(s[1..])
  }

  lemma {:induction false} NoCRAppend(a: string, b: string)
    ensures NoCR(a + b) == NoCR(a) + NoCR(b)
  {
    if a == [] {
      assert a + b == b;
    } else {
      assert (a + b)[1..] == a[1..] + b;
      NoCRAppend(a[1..], b);
    }
  }

  /** Carriage returns are left out, and nothing else. */
  lemma {:induction false} OnlyCRsDropped(s: string)
    ensures '\r' !in NoCR(s)
    ensures NoCR(s) == s <==> '\r' !in s
    ensures multiset(NoCR(s)) == multiset(s)['\r' := 0]
  {
    if s != [] {
      assert s == [s[0]] + s[1..];
      OnlyCRsDropped(s[1..]);
    }
  }

  /** What is left of the text at an offset; an offset past the end leaves nothing. */
  function Rest(text: string, o: Offset): string {
    text[Min(o.chars, |text|)..]
  }

  datatype Record = Record(line: string, end: Offset)

  /** The first line of `rest`, which starts at `o`, and the position behind it. */
  function FirstRecord(rest: string, o: Offset): Record {
    var i := IndexOf(rest, '\n');
    if i == |rest| then Record(NoCR(rest), Offset(o.chars + i, o.line))
    else Record(NoCR(rest[..i]), Offset(o.chars + i + 1, o.line + 1))
  }

  function Behind(rest: string): string {
    var i := IndexOf(rest, '\n');
    if i == |rest| then [] else rest[i + 1..]
  }

  function Lines(rest: string, o: Offset): seq<Record>
    decreases |rest|
  {
    if rest == [] then []
    else
      var r := FirstRecord(rest, o);
      [r] + Lines(Behind(rest), r.end)
  }

  /** One call of `next`: `None` when nothing is left. */
  function ReadLine(text: string, o: Offset): (Option<string>, Offset) {
    var rest := Rest(text, o);
    if rest == [] then (None, o) else (Some(FirstRecord(rest, o).line), FirstRecord(rest, o).end)
  }

  /** `line` is what lies before the next line break, if that is free of carriage returns; `o1` is behind that. */
  predicate LineBefore(text: string, o: Offset, line: Option<string>, o1: Offset) {
    var rest := text[Min(o.chars, |text|)..];
    var n := IndexOf(rest, '\n');
    var ends := if n < |rest| then 1 else 0;
    && (line.None? <==> rest == [])
    && (line.Some? && '\r' !in rest[..n] ==> line.value == rest[..n])
    && o1 == Offset(o.chars + n + ends, o.line + ends)
  }

  lemma ReadsLineBefore(text: string, o: Offset, line: Option<string>, o1: Offset)
    requires (line, o1) == ReadLine(text, o)
    ensures LineBefore(text, o, line, o1)
  {
    var rest := Rest(text, o);
    var n := IndexOf(rest, '\n');
    OnlyCRsDropped(rest[..n]);
    assert n == |rest| ==> rest[..n] == rest;
  }

  /** Every line from an offset on, each with the position behind it. */
  function ReadAll(text: string, o: Offset): seq<Record> {
    Lines(Rest(text, o), o)
  }

  lemma ReadAllReads(text: string, o: Offset)
    ensures var (line, o1) := ReadLine(text, o);
            ReadAll(text, o) == if line.None? then [] else [Record(line.value, o1)] + ReadAll(text, o1)
    ensures Rest(text, o) != [] ==> Rest(text, ReadLine(text, o).1) == Behind(Rest(text, o))
  {
    var rest := Rest(text, o);
    if rest != [] {
      var i := IndexOf(rest, '\n');
      var o1 := ReadLine(text, o).1;
      assert o.chars < |text| && rest == text[o.chars..];
      if i < |rest| {
        assert o1.chars == o.chars + i + 1 && text[o1.chars..] == rest[i + 1..];
      }
      assert Rest(text, o1) == Behind(rest);
    }
  }

  /** The position after `k` lines. */
  function After(text: string, o: Offset, k: nat): Offset
    requires k <= |ReadAll(text, o)|
  {
    if k == 0 then o else ReadAll(text, o)[k - 1].end
  }

  /** Resuming after `k` lines reads the remaining lines, with the same positions. */
  lemma {:induction false} ResumeReads(text: string, o: Offset, k: nat)
    requires k <= |ReadAll(text, o)|
    ensures ReadAll(text, After(text, o, k)) == ReadAll(text, o)[k..]
    decreases k
  {
    if k > 0 {
      ReadAllReads(text, o);
      var o1 := ReadLine(text, o).1;
      ResumeReads(text, o1, k - 1);
      assert After(text, o, k) == After(text, o1, k - 1);
    }
  }

  /** Reader resume: printing the position, parsing it and opening the file there loses and repeats nothing. */
  lemma ReaderResume(text: string, k: nat)
    requires k <= |ReadAll(text, ORIGIN)|
    ensures var printed := After(text, ORIGIN, k).Print();
            Parse(printed).Some?
            && ReadAll(text, ORIGIN)[..k] + ReadAll(text, Parse(printed).value) == ReadAll(text, ORIGIN)
  {
    ResumeReads(text, ORIGIN, k);
    ParsePrint(After(text, ORIGIN, k));
  }

  function Unlines(rs: seq<Record>): string {
    if rs == [] then [] else rs[0].line + ['\n'] + Unlines(rs[1..])
  }

  predicate Terminated(s: string) {
    s == [] || s[|s| - 1] == '\n'
  }

  lemma CutAt(rest: string, i: nat)
    requires i < |rest|
    ensures rest == rest[..i] + [rest[i]] + rest[i + 1..]
    ensures rest[i] == '\n' ==> (Terminated(rest) <==> Terminated(rest[i + 1..]))
  {
  }

  lemma NoCRLine(a: string, b: string)
    ensures NoCR(a + ['\n'] + b) == NoCR(a) + ['\n'] + NoCR(b)
  {
    NoCRAppend(a + ['\n'], b);
    NoCRAppend(a, ['\n']);
  }

  lemma UnlinesCons(r: Record, tail: seq<Record>)
    ensures Unlines([r] + tail) == r.line + ['\n'] + Unlines(tail)
  {
    assert ([r] + tail)[1..] == tail;
  }

  lemma {:induction false} LineThenRest(rest: string, o: Offset)
    requires IndexOf(rest, '\n') < |rest|
    ensures FirstRecord(rest, o).line + ['\n'] + NoCR(Behind(rest)) == NoCR(rest)
    ensures Terminated(rest) <==> Terminated(Behind(rest))
  {
    var i := IndexOf(rest, '\n');
    CutAt(rest, i);
    NoCRLine(rest[..i], rest[i + 1..]);
  }

  /** The lines give back the text without carriage returns, up to a missing final newline. */
  lemma {:induction false} LinesGiveText(rest: string, o: Offset)
    ensures Unlines(Lines(rest, o)) == NoCR(rest) + (if Terminated(rest) then [] else ['\n'])
    decreases |rest|
  {
    if rest != [] {
      var r := FirstRecord(rest, o);
      var i := IndexOf(rest, '\n');
      UnlinesCons(r, Lines(Behind(rest), r.end));
      if i < |rest| {
        LineThenRest(rest, o);
        LinesGiveText(Behind(rest), r.end);
      } else {
        UnterminatedText(rest);
      }
    }
  }

  /** A text without carriage returns is given back unchanged, a missing final newline apart. */
  lemma PlainTextGivenBack(text: string)
    requires '\r' !in text
    ensures Unlines(ReadAll(text, ORIGIN)) == text + (if text == "" || text[|text| - 1] == '\n' then "" else "\n")
  {
    assert Rest(text, ORIGIN) == text;
    LinesGiveText(text, ORIGIN);
    OnlyCRsDropped(text);
  }

  /** No line holds a line break or a carriage return. */
  lemma {:induction false} LinesAreLines(rest: string, o: Offset)
    ensures forall r :: r in Lines(rest, o) ==> '\n' !in r.line && '\r' !in r.line
    decreases |rest|
  {
    if rest != [] {
      var i := IndexOf(rest, '\n');
      OnlyCRsDropped(rest[..i]);
      assert rest[..|rest|] == rest;
      assert multiset(NoCR(rest[..i]))['\n'] == multiset(rest[..i])['\n'] == 0;
      LinesAreLines(Behind(rest), FirstRecord(rest, o).end);
    }
  }

  lemma UnterminatedText(rest: string)
    requires rest != [] && IndexOf(rest, '\n') == |rest|
    ensures !Terminated(rest) && Behind(rest) == []
  {
    assert rest[..|rest|] == rest;
    assert rest[|rest| - 1] in rest;
  }

  ghost predicate LinesNumbered(rs: seq<Record>, o: Offset) {
    forall i :: 0 <= i < |rs| ==> rs[i].end.line == o.line + i + 1
  }

  lemma NumberedTail(r: Record, tail: seq<Record>, o: Offset)
    ensures LinesNumbered([r] + tail, o) <==> r.end.line == o.line + 1 && LinesNumbered(tail, o.(line := o.line + 1))
  {
    var rs := [r] + tail;
    var o1 := o.(line := o.line + 1);
    if LinesNumbered(rs, o) {
      assert rs[0].end.line == o.line + 1;
      forall n | 0 <= n < |tail| ensures tail[n].end.line == o1.line + n + 1 { assert tail[n] == rs[n + 1]; }
    }
    if r.end.line == o.line + 1 && LinesNumbered(tail, o1) {
      forall n | 0 <= n < |rs| ensures rs[n].end.line == o.line + n + 1 {
        if n > 0 { assert rs[n] == tail[n - 1]; }
      }
    }
  }

  /** Line numbers count the lines exactly when the text ends in a newline. */
  lemma {:induction false} LinesNumberedIff(rest: string, o: Offset)
    ensures LinesNumbered(Lines(rest, o), o) <==> Terminated(rest)
    decreases |rest|
  {
    if rest != [] {
      var r := FirstRecord(rest, o);
      LinesNumberedIff(Behind(rest), r.end);
      NumberedTail(r, Lines(Behind(rest), r.end), o);
      var i := IndexOf(rest, '\n');
      if i < |rest| { CutAt(rest, i); } else { UnterminatedText(rest); }
    }
  }

  /** Positions only move forward. */
  lemma {:induction false} PositionsAscend(rest: string, o: Offset)
    ensures forall i :: 0 <= i < |Lines(rest, o)| ==> o.chars < Lines(rest, o)[i].end.chars
    ensures forall i, j :: 0 <= i < j < |Lines(rest, o)| ==> Lines(rest, o)[i].end.chars < Lines(rest, o)[j].end.chars
    decreases |rest|
  {
    if rest != [] {
      PositionsAscend(Behind(rest), FirstRecord(rest, o).end);
    }
  }

  /** The reader over an open file. */
  class TextFileReader {
    const text: string
    var pos: nat
    var offset: Offset

    ghost predicate Valid()
      reads this
    {
      pos == Min(offset.chars, |text|)
    }

    constructor (text: string, start: Offset)
      ensures Valid() && this.text == text && offset == start
    {
      this.text, offset := text, start;
      pos := if start.chars > 0 then Min(start.chars, |text|) else 0;
    }

    method Next() returns (line: Option<string>)
      requires Valid()
      modifies this
      ensures Valid() && (line, offset) == ReadLine(text, old(offset))
      ensures LineBefore(text, old(offset), line, offset)
    {
      var before := offset.chars;
      ghost var rest := Rest(text, offset);
      var sb: string := [];
      while pos < |text|
        invariant Valid() && old(offset).chars <= offset.chars && offset.line == old(offset).line
        invariant pos <= |text|
        invariant offset.chars == old(offset).chars || offset.chars == pos
        invariant var n := offset.chars - old(offset).chars;
                  n <= |rest| && sb == NoCR(rest[..n]) && '\n' !in rest[..n]
        invariant pos == |text| - |rest| + (offset.chars - old(offset).chars)
      {
        var ch := text[pos];
        ghost var n := offset.chars - old(offset).chars;
        assert rest[n] == ch && rest[..n + 1] == rest[..n] + [ch];
        NoCRAppend(rest[..n], [ch]);
        pos, offset := pos + 1, offset.(chars := offset.chars + 1);
        if ch == '\n' {
          assert rest == rest[..n] + "\n" + rest[n + 1..];
          IndexOfPrefix(rest[..n], '\n', rest[n + 1..]);
          assert IndexOf(rest, '\n') == n;
          offset := offset.(line := offset.line + 1);
          ReadsLineBefore(text, old(offset), Some(sb), offset);
          return Some(sb);
        } else if ch != '\r' {
          sb := sb + [ch];
        }
      }
      ghost var m := offset.chars - before;
      assert rest[..m] == rest;
      IndexOfAbsent(rest, '\n');
      if before < offset.chars { line := Some(sb); } else { line := None; }
      ReadsLineBefore(text, old(offset), line, offset);
    }
  }
}
