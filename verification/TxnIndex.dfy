/**
 * The index file of the Trident state: one record, replaced by writing a temporary file, deleting the
 * old index and renaming. A worker may die at any point of that.
 */
module TxnIndex {
  import opened Common
  import opened Text

  datatype Entry = Entry(txnid: nat, path: string, offset: nat) {
    /** Paths carry no comma and no line break. */
    predicate Plain() {
      ',' !in path && '\n' !in path && '\r' !in path
    }

    function Print(): string {
      Decimal(txnid) + "," + path + "," + Decimal(offset)
    }
  }

  /** What `getTxnRecord` gives: a record, or an exception on a line it cannot take apart. */
  datatype Answer = Found(txnid: int, path: string, offset: int) | Unreadable

  datatype Disk = Disk(index: Option<string>, tmp: Option<string>)

  function ReadRecord(text: string, defaultPath: string): Answer {
    match FirstLine(text)
    case None => Found(0, defaultPath, 0)
    case Some(line) =>
      var f := DropTrailingEmpty(Split(line, ','));
      if |f| < 3 || ParseLong(f[0]).None? || ParseLong(f[2]).None? then Unreadable
      else Found(ParseLong(f[0]).value, f[1], ParseLong(f[2]).value)
  }

  function GetTxnRecord(d: Disk, defaultPath: string): Answer {
    if d.index.Some? then ReadRecord(d.index.value, defaultPath)
    else if d.tmp.Some? then ReadRecord(d.tmp.value, defaultPath)
    else Found(0, defaultPath, 0)
  }

  function Line(e: Entry): string {
    e.Print() + "\n"
  }

  /** Where a worker can die inside `updateIndex`. */
  datatype Point = BeforeCreate | Torn(written: nat) | AfterDelete | AfterRename

  function DiskAt(d: Disk, e: Entry, p: Point): Disk {
    match p
    case BeforeCreate => d
    case Torn(n) => d.(tmp := Some(Line(e)[..Min(n, |Line(e)|)]))
    case AfterDelete => Disk(None, Some(Line(e)))
    case AfterRename => Disk(Some(Line(e)), None)
  }

  /** What is written is what is read back. */
  lemma RecordRoundTrip(e: Entry, defaultPath: string)
    requires e.Plain()
    ensures ReadRecord(Line(e), defaultPath) == Found(e.txnid, e.path, e.offset)
  {
    var (t, o) := (Decimal(e.txnid), Decimal(e.offset));
    assert FirstLine(Line(e)) == Some(e.Print()) by {
      FirstLineOf(e.Print(), []);
      assert Line(e) == e.Print() + "\n" + [];
    }
    assert DropTrailingEmpty(Split(e.Print(), ',')) == [t, e.path, o] by {
      SplitThree(t, e.path, o, ',');
    }
    ParseDecimal(e.txnid);
    ParseDecimal(e.offset);
  }

  /** One digit of the record is not a record. */
  lemma TornRecordUnreadable(e: Entry, defaultPath: string)
    ensures ReadRecord(Line(e)[..1], defaultPath) == Unreadable
  {
    var s := Line(e)[..1];
    assert s == [Decimal(e.txnid)[0]];
    assert s[..IndexOf(s, '\n')] == s;
    assert Split(s, ',') == [s];
  }

  /** Up to here a torn line does not yet hold a digit of the offset. */
  function OffsetStart(e: Entry): nat {
    |Decimal(e.txnid)| + |e.path| + 2
  }

  /** What the first `n` characters of a line are taken for: no record, an error, or one with the offset cut short. */
  function TornRead(e: Entry, n: nat, defaultPath: string): Answer {
    if n == 0 then Found(0, defaultPath, 0)
    else if n <= OffsetStart(e) then Unreadable
    else Found(e.txnid, e.path, CutOffset(e, n))
  }

  /** The value of the offset digits among the first `n` characters. */
  function CutOffset(e: Entry, n: nat): (v: nat)
    requires n > OffsetStart(e)
  {
    DigitsValue(Decimal(e.offset)[..Min(n, |e.Print()|) - OffsetStart(e)])
  }

  lemma FirstLineCut(e: Entry, n: nat)
    requires e.Plain() && n > 0
    ensures FirstLine(Line(e)[..Min(n, |Line(e)|)]) == Some(e.Print()[..Min(n, |e.Print()|)])
  {
    var (p, k) := (e.Print(), Min(n, |e.Print()|));
    assert '\n' !in p;
    if n <= |p| {
      assert Line(e)[..n] == p[..n] && p[..n][..n] == p[..n];
      IndexOfAbsent(p[..n], '\n');
    } else {
      var nothing: string := [];
      FirstLineOf(p, nothing);
      assert Line(e)[..Min(n, |Line(e)|)] == p + "\n" + nothing;
      assert p[..|p|] == p;
    }
  }

  lemma FieldsMissing(e: Entry, k: nat)
    requires e.Plain() && k <= OffsetStart(e)
    ensures |DropTrailingEmpty(Split(e.Print()[..k], ','))| < 3
  {
    var (t, line) := (Decimal(e.txnid), e.Print()[..k]);
    if k <= |t| {
      assert line == t[..k];
      FewerThanThree(t[..k], [], ',');
    } else if k < OffsetStart(e) {
      var cut := e.path[..k - |t| - 1];
      assert line == t + "," + cut;
      FewerThanThree(t, cut, ',');
    } else {
      assert line == t + "," + e.path + ",";
      FewerThanThree(t, e.path, ',');
    }
  }

  lemma OffsetCut(e: Entry, k: nat)
    requires e.Plain() && OffsetStart(e) < k <= |e.Print()|
    ensures var digits := Decimal(e.offset)[..k - OffsetStart(e)];
            DropTrailingEmpty(Split(e.Print()[..k], ',')) == [Decimal(e.txnid), e.path, digits]
            && ParseLong(digits) == Some(DigitsValue(digits))
  {
    var digits := Decimal(e.offset)[..k - OffsetStart(e)];
    assert e.Print()[..k] == Decimal(e.txnid) + "," + e.path + "," + digits;
    SplitThree(Decimal(e.txnid), e.path, digits, ',');
  }

  /** Every torn line is taken for exactly that; in particular one that ends inside the offset is accepted. */
  lemma TornOutcome(e: Entry, n: nat, defaultPath: string)
    requires e.Plain()
    ensures ReadRecord(Line(e)[..Min(n, |Line(e)|)], defaultPath) == TornRead(e, n, defaultPath)
  {
    if n > 0 {
      var k := Min(n, |e.Print()|);
      FirstLineCut(e, n);
      if k <= OffsetStart(e) {
        FieldsMissing(e, k);
      } else {
        OffsetCut(e, k);
        ParseDecimal(e.txnid);
      }
    }
  }

  /** The offset of an accepted line is right iff the line is complete, and otherwise too small. */
  lemma CutOffsetIff(e: Entry, n: nat)
    requires n > OffsetStart(e)
    ensures CutOffset(e, n) == e.offset <==> n >= |e.Print()|
    ensures n < |e.Print()| ==> 0 < CutOffset(e, n) < e.offset
  {
    if n >= |e.Print()| {
      assert Decimal(e.offset)[..|Decimal(e.offset)|] == Decimal(e.offset);
      DecimalValue(e.offset);
    } else {
      CutDecimal(e.offset, n - OffsetStart(e));
    }
  }

  ghost predicate OldOrNewAtEveryPoint(d: Disk, e: Entry, defaultPath: string) {
    forall p: Point ::
      var a := GetTxnRecord(DiskAt(d, e, p), defaultPath);
      a == GetTxnRecord(d, defaultPath) || a == Found(e.txnid, e.path, e.offset)
  }

  /**
   * Index replacement: whatever point the worker dies at, the next one reads the old record or the new
   * one, exactly when the update found the index file in place. (After a death between delete and rename
   * the record lives in the temporary file alone, and the next update starts by truncating that file.)
   */
  lemma ReplacementIsAtomicIff(d: Disk, e: Entry, defaultPath: string)
    requires e.Plain() && GetTxnRecord(d, defaultPath).Found?
    ensures OldOrNewAtEveryPoint(d, e, defaultPath) <==> d.index.Some?
  {
    RecordRoundTrip(e, defaultPath);
    TornRecordUnreadable(e, defaultPath);
    if d.index.None? {
      assert GetTxnRecord(DiskAt(d, e, Torn(1)), defaultPath) == Unreadable;
    }
  }

  /** A finished update is read back, whatever was there before. */
  lemma FinishedUpdateIsRead(d: Disk, e: Entry, defaultPath: string)
    requires e.Plain()
    ensures GetTxnRecord(DiskAt(d, e, AfterRename), defaultPath) == Found(e.txnid, e.path, e.offset)
    ensures GetTxnRecord(DiskAt(d, e, AfterDelete), defaultPath) == Found(e.txnid, e.path, e.offset)
  {
    RecordRoundTrip(e, defaultPath);
  }

  /** The point after write `i`: the characters of the line one by one, then the delete, then the rename. */
  function PointAt(e: Entry, i: nat): Point {
    if i <= |Line(e)| then Torn(i) else if i == |Line(e)| + 1 then AfterDelete else AfterRename
  }

  /** The two files of the index, updated in the order of the code. */
  class IndexFiles {
    var index: Option<string>
    var tmp: Option<string>

    ghost function View(): Disk
      reads this
    {
      Disk(index, tmp)
    }

    /** `seen` lists the disk after every single write, in order: one point after the other, and no other disk. */
    method UpdateIndex(e: Entry) returns (ghost seen: seq<Disk>)
      modifies this
      ensures View() == DiskAt(old(View()), e, AfterRename)
      ensures |seen| == |Line(e)| + 3
      ensures forall i :: 0 <= i < |seen| ==> seen[i] == DiskAt(old(View()), e, PointAt(e, i))
    {
      ghost var d := View();
      var line := e.Print() + "\n";
      tmp := Some([]);
      var n := 0;
      assert View() == DiskAt(d, e, Torn(0));
      seen := [View()];
      while n < |line|
        invariant 0 <= n <= |line|
        invariant View() == DiskAt(d, e, Torn(n))
        invariant |seen| == n + 1 && forall i :: 0 <= i < |seen| ==> seen[i] == DiskAt(d, e, PointAt(e, i))
      {
        tmp := Some(line[..n + 1]);
        n := n + 1;
        assert View() == DiskAt(d, e, Torn(n));
        seen := seen + [View()];
      }
      assert line[..n] == line;
      index := None;
      assert View() == DiskAt(d, e, AfterDelete);
      seen := seen + [View()];
      index, tmp := tmp, None;
      assert View() == DiskAt(d, e, AfterRename);
      seen := seen + [View()];
    }
  }
}
