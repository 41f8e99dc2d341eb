/**
 * A lock file is a log of entries, one a line. Every entry but the first is written with a line break in
 * front of it, so a half-written last line never spoils the entry that follows.
 */
module LockLog {
  import opened Common
  import opened Text

  datatype Entry = Entry(time: nat, component: string, offset: string) {
    function Print(): string {
      Decimal(time) + [','] + component + [','] + offset
    }

    /** Component ids carry no comma; neither part carries a line break. */
    predicate Plain() {
      ',' !in component && '\n' !in component && '\r' !in component && '\n' !in offset && '\r' !in offset
    }
  }

  /** `deserialize`: `None` is the exception on a line with fewer than three fields or without a time. */
  function Deserialize(line: string): Option<Entry> {
    var f := SplitLimit(line, ',', 3);
    if |f| < 3 then None
    else
      match ParseLong(f[0])
      case Some(t) => if t >= 0 then Some(Entry(t, f[1], f[2])) else None
      case None => None
  }

  lemma EntryRoundTrip(e: Entry)
    requires e.Plain()
    ensures Deserialize(e.Print()) == Some(e)
  {
    SplitInThree(Decimal(e.time), e.component, e.offset, ',');
    ParseDecimal(e.time);
  }

  /** The three fields of a line, parted by its first two commas. */
  predicate Fields(line: string, t: string, c: string, o: string) {
    ',' !in t && ',' !in c && line == t + [','] + c + [','] + o
  }

  lemma SplitLimitStep(s: string, limit: nat) returns (rest: string)
    requires limit > 1 && |SplitLimit(s, ',', limit)| > 1
    ensures SplitLimit(s, ',', limit) == [s[..IndexOf(s, ',')]] + SplitLimit(rest, ',', limit - 1)
    ensures ',' !in SplitLimit(s, ',', limit)[0] && s == SplitLimit(s, ',', limit)[0] + [','] + rest
  {
    var i := IndexOf(s, ',');
    rest := s[i + 1..];
    assert s == s[..i] + [','] + rest;
  }

  lemma FieldsOfEntry(line: string)
    requires |SplitLimit(line, ',', 3)| == 3
    ensures var f := SplitLimit(line, ',', 3); Fields(line, f[0], f[1], f[2])
  {
    var rest := SplitLimitStep(line, 3);
    var last := SplitLimitStep(rest, 2);
    ThreeParts(SplitLimit(line, ',', 3)[0], SplitLimit(rest, ',', 2)[0], last, ',');
  }

  /** A line is an entry exactly when two commas part a time, a component without commas, and the rest. */
  lemma EntryLineIff(line: string, e: Entry)
    ensures Deserialize(line) == Some(e) <==>
              exists t :: Fields(line, t, e.component, e.offset) && ParseLong(t) == Some(e.time as int)
  {
    if t :| Fields(line, t, e.component, e.offset) && ParseLong(t) == Some(e.time as int) {
      SplitInThree(t, e.component, e.offset, ',');
    }
    if Deserialize(line) == Some(e) {
      FieldsOfEntry(line);
    }
  }

  /** What `readLine` until the end of the file leaves: the last line, if there is any text. */
  function LastLine(text: string): Option<string>
    decreases |text|
  {
    if text == [] then None
    else
      var i := IndexOf(text, '\n');
      if i == |text| || i + 1 == |text| then Some(text[..i]) else LastLine(text[i + 1..])
  }

  lemma IndexInFront(p: string, rest: string)
    requires '\n' in p
    ensures IndexOf(p + rest, '\n') == IndexOf(p, '\n') < |p|
  {
    var i := IndexOf(p, '\n');
    assert p[..|p|] == p;
    assert p + rest == p[..i] + ['\n'] + (p[i + 1..] + rest);
    IndexOfPrefix(p[..i], '\n', p[i + 1..] + rest);
  }

  /** Whatever stands before it, torn or not, a line on its own is the last line. */
  lemma {:induction false} LastLineAfterBreak(p: string, line: string)
    requires line != [] && '\n' !in line
    ensures LastLine(p + ['\n'] + line) == Some(line)
    decreases |p|
  {
    var text := p + ['\n'] + line;
    if '\n' !in p {
      IndexOfPrefix(p, '\n', line);
      assert text[|p| + 1..] == line;
      OnlyLine(line);
    } else {
      var i := IndexOf(p, '\n');
      assert text == p + (['\n'] + line);
      IndexInFront(p, ['\n'] + line);
      assert text[i + 1..] == p[i + 1..] + ['\n'] + line;
      LastLineAfterBreak(p[i + 1..], line);
    }
  }

  lemma OnlyLine(line: string)
    requires line != [] && '\n' !in line
    ensures LastLine(line) == Some(line)
  {
    IndexOfAbsent(line, '\n');
    assert line[..|line|] == line;
  }

  /** What happens to a lock file; `Torn`: the writer died after `written` characters. */
  datatype LogOp = Append(e: Entry) | Torn(e: Entry, written: nat)

  /** The file starts with the entry of its creator; every later write begins with a line break. */
  function Contents(first: Entry, ops: seq<LogOp>): string {
    if ops == [] then first.Print()
    else
      var before := Contents(first, ops[..|ops| - 1]);
      match ops[|ops| - 1]
      case Append(e) => before + ['\n'] + e.Print()
      case Torn(e, n) => before + (['\n'] + e.Print())[..Min(n, 1 + |e.Print()|)]
  }

  function LastEntry(text: string): Option<Entry> {
    match LastLine(text)
    case None => None
    case Some(line) => Deserialize(line)
  }

  predicate LastComplete(ops: seq<LogOp>) {
    ops == [] || ops[|ops| - 1].Append?
  }

  function LastLogged(first: Entry, ops: seq<LogOp>): Entry
    requires LastComplete(ops)
  {
    if ops == [] then first else ops[|ops| - 1].e
  }

  /** The last entry logged is read back, however many earlier owners died in the middle of a line. */
  lemma LastEntryIsRead(first: Entry, ops: seq<LogOp>)
    requires LastComplete(ops) && LastLogged(first, ops).Plain()
    ensures LastEntry(Contents(first, ops)) == Some(LastLogged(first, ops))
  {
    var e := LastLogged(first, ops);
    EntryRoundTrip(e);
    EntryHasNoBreak(e);
    if ops == [] {
      OnlyLine(e.Print());
    } else {
      LastLineAfterBreak(Contents(first, ops[..|ops| - 1]), e.Print());
    }
  }

  lemma EntryHasNoBreak(e: Entry)
    requires e.Plain()
    ensures '\n' !in e.Print() && e.Print() != []
  {
  }

  lemma {:induction false} FewFields(x: string, c: char, y: string)
    requires c !in x && c !in y
    ensures |SplitLimit(x, c, 3)| == 1 && |SplitLimit(x + [c] + y, c, 3)| == 2
  {
    SplitFirst(x, c, y);
  }

  /** A torn line is not the entry: a field is missing or the offset is cut short. */
  lemma TornLineIsNotEntry(e: Entry, k: nat)
    requires e.Plain() && k < |e.Print()|
    ensures Deserialize(e.Print()[..k]) != Some(e)
  {
    var (t, n) := (Decimal(e.time), |Decimal(e.time)|);
    var line := e.Print()[..k];
    if k <= n {
      assert line == t[..k];
      FewFields(t[..k], ',', []);
    } else if k <= n + 1 + |e.component| {
      var c := e.component[..k - n - 1];
      assert line == t + [','] + c;
      FewFields(t, ',', c);
    } else {
      var o := e.offset[..k - n - 2 - |e.component|];
      assert line == t + [','] + e.component + [','] + o;
      SplitInThree(t, e.component, o, ',');
      assert |o| < |e.offset|;
    }
  }

  lemma {:induction false} TrailingBreak(text: string)
    requires text != [] && text[|text| - 1] != '\n'
    ensures LastLine(text + ['\n']) == LastLine(text)
    decreases |text|
  {
    if '\n' in text {
      var i := IndexOf(text, '\n');
      IndexInFront(text, ['\n']);
      assert (text + ['\n'])[i + 1..] == text[i + 1..] + ['\n'];
      TrailingBreak(text[i + 1..]);
    } else {
      IndexOfPrefix(text, '\n', []);
      assert text + ['\n'] + [] == text + ['\n'];
      OnlyLine(text);
      assert (text + ['\n'])[..|text|] == text;
    }
  }

  /** A write that got no further than its line break leaves the entry before it as the last one. */
  lemma BreakAloneKeepsEntry(first: Entry, ops: seq<LogOp>, e: Entry, written: nat)
    requires LastComplete(ops) && LastLogged(first, ops).Plain() && written <= 1
    ensures LastEntry(Contents(first, ops + [Torn(e, written)])) == Some(LastLogged(first, ops))
  {
    var (all, before, last) := (ops + [Torn(e, written)], Contents(first, ops), LastLogged(first, ops).Print());
    assert all[..|ops|] == ops;
    LastEntryIsRead(first, ops);
    if written == 0 {
      assert Contents(first, all) == before + [] == before;
    } else {
      assert (['\n'] + e.Print())[..1] == ['\n'];
      EntryHasNoBreak(LastLogged(first, ops));
      assert before[|before| - 1] == last[|last| - 1];
      TrailingBreak(before);
    }
  }

  /** A write that got beyond its line break leaves its torn text as the last line. */
  lemma TornLastLine(first: Entry, ops: seq<LogOp>, e: Entry, written: nat)
    requires e.Plain() && 1 < written
    ensures LastLine(Contents(first, ops + [Torn(e, written)])) == Some(e.Print()[..Min(written, 1 + |e.Print()|) - 1])
  {
    var all := ops + [Torn(e, written)];
    assert all[..|ops|] == ops;
    var k := Min(written, 1 + |e.Print()|) - 1;
    var line := e.Print()[..k];
    assert (['\n'] + e.Print())[..k + 1] == ['\n'] + line;
    assert Contents(first, all) == Contents(first, ops) + ['\n'] + line;
    EntryHasNoBreak(e);
    LastLineAfterBreak(Contents(first, ops), line);
  }

  /** After a write that was cut off somewhere in its text, the entry is read back only if none of it is missing. */
  lemma TornWriteReadIff(first: Entry, ops: seq<LogOp>, e: Entry, written: nat)
    requires e.Plain() && 1 < written
    ensures LastEntry(Contents(first, ops + [Torn(e, written)])) == Some(e) <==> written > |e.Print()|
  {
    TornLastLine(first, ops, e, written);
    var k := Min(written, 1 + |e.Print()|) - 1;
    assert LastEntry(Contents(first, ops + [Torn(e, written)])) == Deserialize(e.Print()[..k]);
    CutEntryIff(e, k);
  }

  lemma CutEntryIff(e: Entry, k: nat)
    requires e.Plain() && k <= |e.Print()|
    ensures Deserialize(e.Print()[..k]) == Some(e) <==> k == |e.Print()|
  {
    if k == |e.Print()| {
      assert e.Print()[..k] == e.Print();
      EntryRoundTrip(e);
    } else {
      TornLineIsNotEntry(e, k);
    }
  }

  /** Outcome of looking at one lock file: fresh, stale with its last entry, or an exception. */
  datatype Look = Fresh | Stale(e: Entry) | Broken

  function LookAt(text: string, olderThan: int): Look {
    match LastEntry(text)
    case None => Broken
    case Some(e) => if e.time <= olderThan then Stale(e) else Fresh
  }

  datatype Found = Taken(file: string, offset: string) | Nothing | Failed

  function Upper(s: string): string {
    seq(|s|, i requires 0 <= i < |s| => if 'a' <= s[i] <= 'z' then s[i] - 'a' + 'A' else s[i])
  }

  /** The lock of the directory itself, in any capitalisation. */
  predicate IsDirLock(name: string) {
    Upper(name) == "DIRLOCK"
  }

  /** After any history the lock is stale exactly when its last entry is at least `timeout` old. */
  lemma StaleIff(first: Entry, ops: seq<LogOp>, now: nat, timeout: nat)
    requires LastComplete(ops) && LastLogged(first, ops).Plain()
    ensures var (look, e) := (LookAt(Contents(first, ops), now - timeout), LastLogged(first, ops));
            look == if e.time + timeout <= now then Stale(e) else Fresh
  {
    LastEntryIsRead(first, ops);
  }

  /** Exactly the two spellings of each letter. */
  lemma DirLockIff(name: string)
    ensures IsDirLock(name) <==>
              |name| == 7 && forall i :: 0 <= i < 7 ==> name[i] == "DIRLOCK"[i] || name[i] == "dirlock"[i]
  {
  }

  /** The directory of lock files, with the clock of the spout that works on it. */
  class LockDirectory {
    var logs: map<string, string>
    var dirLock: Option<nat>
    var now: nat

    method TryLockDir() returns (ok: bool)
      modifies this`dirLock
      ensures ok == old(dirLock).None?
      ensures dirLock == if ok then Some(now) else old(dirLock)
    {
      ok := dirLock.None?;
      if ok { dirLock := Some(now); }
    }

    /** Delete and create again, with nobody in between; `leased`: the old lock's lease cannot be recovered yet. */
    method TakeDirIfStale(timeout: nat, leased: bool) returns (ok: bool)
      modifies this`dirLock
      ensures ok == (old(dirLock).Some? && old(dirLock).value <= now - timeout && !leased)
      ensures dirLock == if ok then Some(now) else old(dirLock)
    {
      if dirLock.None? || dirLock.value > now - timeout || leased { return false; }
      dirLock := None;
      dirLock := Some(now);
      ok := true;
    }

    method ReleaseDir()
      modifies this`dirLock
      ensures dirLock == None
    {
      dirLock := None;
    }

    /** Atomic creation: the first one to create the file owns it. */
    method TryLock(file: string, spout: string) returns (ok: bool)
      modifies this`logs
      ensures ok == (file !in old(logs))
      ensures logs == if ok then old(logs)[file := Contents(Entry(now, spout, "0"), [])] else old(logs)
    {
      if file in logs { return false; }
      logs := logs[file := Entry(now, spout, "0").Print()];
      ok := true;
    }

    method LogProgress(file: string, spout: string, offset: string)
      requires file in logs
      modifies this`logs
      ensures logs == old(logs)[file := old(logs)[file] + ['\n'] + Entry(now, spout, offset).Print()]
    {
      logs := logs[file := logs[file] + ['\n'] + Entry(now, spout, offset).Print()];
    }

    method Release(file: string) returns (ok: bool)
      modifies this`logs
      ensures ok == (file in old(logs)) && logs == old(logs) - {file}
    {
      ok := file in logs;
      logs := logs - {file};
    }

    method GetLastEntry(file: string) returns (e: Option<Entry>)
      requires file in logs
      ensures e == LastEntry(logs[file])
    {
      var rest, lastLine: Option<string> := logs[file], None;
      while rest != []
        invariant LastLine(logs[file]) == if rest == [] then lastLine else LastLine(rest)
        decreases |rest|
      {
        var i := IndexOf(rest, '\n');
        lastLine := Some(rest[..i]);
        rest := if i == |rest| then [] else rest[i + 1..];
      }
      match lastLine
      case None => e := None;
      case Some(line) => e := Deserialize(line);
    }

    /**
     * Takes over the first stale lock of the listing whose lease can be recovered, and logs the offset it
     * found there under its own name. A lock file that cannot be read ends the scan with an exception.
     */
    method AcquireOldestExpiredLock(listing: seq<string>, timeout: nat, spout: string, leased: set<string>)
      returns (r: Found)
      requires forall f :: f in listing ==> f in logs
      modifies this`logs
      ensures r.Taken? ==>
        && !IsDirLock(r.file) && r.file !in leased
        && (exists i :: 0 <= i < |listing| && listing[i] == r.file
              && forall k :: 0 <= k < i && !IsDirLock(listing[k]) ==>
                   var e := LastEntry(old(logs)[listing[k]]);
                   e.Some? && (e.value.time + timeout > now || listing[k] in leased))
        && (var e := LastEntry(old(logs)[r.file]);
            e.Some? && e.value.time + timeout <= now && r.offset == e.value.offset)
        && logs == old(logs)[r.file := old(logs)[r.file] + ['\n'] + Entry(now, spout, r.offset).Print()]
      ensures !r.Taken? ==> logs == old(logs)
      ensures r.Nothing? ==> forall f :: f in listing && !IsDirLock(f) ==>
        LastEntry(logs[f]).Some? && (LastEntry(logs[f]).value.time + timeout > now || f in leased)
      ensures r.Failed? ==> exists f :: f in listing && !IsDirLock(f) && LastEntry(logs[f]).None?
    {
      var i := 0;
      while i < |listing|
        invariant 0 <= i <= |listing| && logs == old(logs)
        invariant forall k :: 0 <= k < i && !IsDirLock(listing[k]) ==>
          var e := LastEntry(logs[listing[k]]);
          e.Some? && (e.value.time + timeout > now || listing[k] in leased)
      {
        var f := listing[i];
        if !IsDirLock(f) {
          var e := GetLastEntry(f);
          if e.None? { return Failed; }
          if e.value.time <= now - timeout && f !in leased {
            LogProgress(f, spout, e.value.offset);
            return Taken(f, e.value.offset);
          }
        }
        i := i + 1;
      }
      r := Nothing;
    }
  }
}
