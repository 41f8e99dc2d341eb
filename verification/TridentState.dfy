/**
 * The Trident HDFS state: every transaction records `(txid, data file, offset)` before it writes,
 * and a replayed transaction first copies the recorded prefix into a fresh file and deletes the old one.
 *
 * Files are numbered in creation order, so a fresh name is the next number. `World` is what the file
 * system and one worker hold together; the functions below are the transitions of that pair. The code in
 * its own form, proved against them, is the class in `HdfsStateClass`.
 */
module TridentWorld {
  import opened Common

  datatype Kind = HdfsFile | SequenceFile

  datatype TxnRecord = TxnRecord(txnid: nat, file: nat, offset: nat)

  /** `files`, `next` and `index` survive a worker; `current`, `offset` and `last` are its memory. */
  datatype World = World(
    files: map<nat, seq<byte>>,
    next: nat,
    index: Option<TxnRecord>,
    current: nat,
    offset: nat,
    last: TxnRecord)

  /** What a reader of the output directory sees: the surviving files below `n`, in creation order. */
  function Contents(files: map<nat, seq<byte>>, n: nat): seq<byte> {
    if n == 0 then []
    else Contents(files, n - 1) + (if n - 1 in files then files[n - 1] else [])
  }

  function Survivors(w: World): seq<byte> {
    Contents(w.files, w.next)
  }

  function Create(w: World): World {
    w.(files := w.files[w.next := []], next := w.next + 1, current := w.next)
  }

  /** A worker (re)starts: a new output file, and the record found on disk or the default one. */
  function Prepare(w: World): World {
    var w1 := Create(w);
    w1.(offset := 0, last := if w.index.Some? then w.index.value else TxnRecord(0, w.next, 0))
  }

  /** `HdfsFileOptions` counts the bytes it wrote; `SequenceFileOptions` asks the writer for its length. */
  function CurrentOffset(kind: Kind, w: World): nat {
    if kind.SequenceFile? && w.current in w.files then |w.files[w.current]| else w.offset
  }

  /** Copies the first `n` bytes of `file` to a new current file and deletes `file`; `n == 0` skips the copy. */
  function Recover(w: World, file: nat, n: nat): (World, bool) {
    var w1 := Create(w);
    if n == 0 then
      (w1.(files := w1.files - {file}), true)
    else if file !in w.files then
      (w1.(offset := 0), false)
    else
      var copied := w.files[file][..Min(n, |w.files[file]|)];
      (w1.(files := w1.files[w1.current := copied] - {file}, offset := n), true)
  }

  function UpdateIndex(kind: Kind, w: World, txid: nat): World {
    var r := TxnRecord(txid, w.current, CurrentOffset(kind, w));
    w.(index := Some(r), last := r)
  }

  function BeginCommit(kind: Kind, w: World, txid: nat): (World, bool) {
    var (w1, ok) := if txid <= w.last.txnid then Recover(w, w.last.file, w.last.offset) else (w, true);
    if ok then (UpdateIndex(kind, w1, txid), true) else (w1, false)
  }

  /** Appends the tuples one by one; the file system takes `capacity` bytes and then throws. */
  function Execute(w: World, tuples: seq<seq<byte>>, capacity: nat): (World, bool)
    requires w.current in w.files
    decreases |tuples|
  {
    if tuples == [] then (w, true)
    else if |tuples[0]| <= capacity then
      var w1 := w.(files := w.files[w.current := w.files[w.current] + tuples[0]], offset := w.offset + |tuples[0]|);
      Execute(w1, tuples[1..], capacity - |tuples[0]|)
    else
      (w.(files := w.files[w.current := w.files[w.current] + tuples[0][..capacity]]), false)
  }

  /** `rotate` is the verdict of the rotation policy. */
  function Commit(w: World, rotate: bool): World {
    if rotate then Create(w).(offset := 0) else w
  }
}

/** Every run of the world above refines a ledger of batches: exactly-once output. */
module TridentExactlyOnce {
  import opened Common
  import opened TridentWorld

  datatype Batch = Batch(txid: nat, data: seq<byte>)

  /**
   * The simple form: the batches of the transactions already left behind, and what the last attempt of
   * transaction `txid` has written. `active`: between `beginCommit` and the end of the attempt;
   * `complete`: the last attempt of `txid` was committed.
   */
  datatype Ledger = Ledger(closed: seq<Batch>, txid: nat, pending: seq<byte>, active: bool, complete: bool)

  const EMPTY_LEDGER := Ledger([], 0, [], false, true)

  datatype Event =
    | Begin(txid: nat)
    | Write(tuples: seq<seq<byte>>, capacity: nat)
    | Commit(rotate: bool)
    | Restart

  function Flatten(batches: seq<Batch>): seq<byte> {
    if batches == [] then [] else Flatten(batches[..|batches| - 1]) + batches[|batches| - 1].data
  }

  function Join(tuples: seq<seq<byte>>): seq<byte> {
    if tuples == [] then [] else tuples[0] + Join(tuples[1..])
  }

  /** Trident's side of the protocol: a transaction is attempted again until it commits, then the next one starts. */
  predicate Allowed(l: Ledger, e: Event) {
    match e
    case Begin(t) => 0 < t && (t == l.txid || (l.txid < t && l.complete))
    case Write(_, _) => l.active
    case Commit(_) => l.active
    case Restart => true
  }

  function LedgerStep(l: Ledger, e: Event): Ledger {
    match e
    case Begin(t) =>
      if t <= l.txid then l.(pending := [], active := true, complete := false)
      else Ledger(if l.txid == 0 then l.closed else l.closed + [Batch(l.txid, l.pending)], t, [], true, false)
    case Write(tuples, capacity) =>
      l.(pending := l.pending + Join(tuples)[..Min(capacity, |Join(tuples)|)],
         active := |Join(tuples)| <= capacity)
    case Commit(_) => l.(active := false, complete := true)
    case Restart => l.(active := false)
  }

  function WorldStep(kind: Kind, w: World, e: Event): World {
    match e
    case Begin(t) => BeginCommit(kind, w, t).0
    case Write(tuples, capacity) => if w.current in w.files then Execute(w, tuples, capacity).0 else w
    case Commit(rotate) => TridentWorld.Commit(w, rotate)
    case Restart => Prepare(w)
  }

  function LedgerRun(l: Ledger, events: seq<Event>): Ledger {
    if events == [] then l else LedgerStep(LedgerRun(l, events[..|events| - 1]), events[|events| - 1])
  }

  function WorldRun(kind: Kind, w: World, events: seq<Event>): World {
    if events == [] then w else WorldStep(kind, WorldRun(kind, w, events[..|events| - 1]), events[|events| - 1])
  }

  /** The first worker on an empty directory. */
  const START := Prepare(World(map[], 0, None, 0, 0, TxnRecord(0, 0, 0)))

  /** `HdfsFileOptions` must not recover zero bytes while its byte counter is positive. */
  predicate CounterFresh(kind: Kind, w: World, e: Event) {
    kind.HdfsFile? && e.Begin? && e.txid <= w.last.txnid && w.last.offset == 0 ==> w.offset == 0
  }

  predicate LegalRun(kind: Kind, events: seq<Event>) {
    events != [] ==>
      var before := events[..|events| - 1];
      var e := events[|events| - 1];
      && LegalRun(kind, before)
      && Allowed(LedgerRun(EMPTY_LEDGER, before), e)
      && CounterFresh(kind, WorldRun(kind, START, before), e)
  }

  ghost predicate Tidy(w: World) {
    && w.current in w.files
    && w.next == w.current + 1
    && forall id :: id in w.files ==> id < w.next
  }

  /** The record on disk cuts the surviving bytes into closed batches and the open attempt. */
  ghost predicate RecordCuts(w: World, l: Ledger) {
    var r := w.last;
    && w.index == Some(r)
    && r.txnid == l.txid
    && r.file in w.files
    && r.offset <= |w.files[r.file]|
    && Contents(w.files, r.file) + w.files[r.file][..r.offset] == Flatten(l.closed)
    && w.files[r.file][r.offset..] == l.pending
    && forall id :: id in w.files && r.file < id ==> w.files[id] == []
  }

  ghost predicate Untouched(w: World, l: Ledger) {
    && w.index == None
    && w.last.txnid == 0
    && l == EMPTY_LEDGER
    && w.offset == 0
    && forall id :: id in w.files ==> w.files[id] == []
  }

  ghost predicate Refines(kind: Kind, w: World, l: Ledger) {
    && Tidy(w)
    && (if l.txid == 0 then Untouched(w, l) else RecordCuts(w, l))
    && (l.active ==> w.current == w.last.file && !l.complete)
    && (l.active || l.complete ==> CurrentOffset(kind, w) == |w.files[w.current]|)
  }

  // ---------- files that contribute nothing ----------

  lemma {:induction false} ContentsAgree(f: map<nat, seq<byte>>, g: map<nat, seq<byte>>, n: nat)
    requires forall id :: 0 <= id < n ==> (id in f <==> id in g) && (id in f ==> f[id] == g[id])
    ensures Contents(f, n) == Contents(g, n)
  {
    if n != 0 { ContentsAgree(f, g, n - 1); }
  }

  lemma {:induction false} ContentsEmptyTail(f: map<nat, seq<byte>>, m: nat, n: nat)
    requires m <= n
    requires forall id :: m <= id < n && id in f ==> f[id] == []
    ensures Contents(f, n) == Contents(f, m)
  {
    if m < n { ContentsEmptyTail(f, m, n - 1); }
  }

  /** Under the relation the directory holds exactly the ledger. */
  lemma RefinesMeansContents(kind: Kind, w: World, l: Ledger)
    requires Refines(kind, w, l)
    ensures Survivors(w) == Flatten(l.closed) + l.pending
  {
    if l.txid == 0 {
      ContentsEmptyTail(w.files, 0, w.next);
    } else {
      var r := w.last;
      var f := w.files[r.file];
      var (kept, open) := (f[..r.offset], f[r.offset..]);
      ContentsEmptyTail(w.files, r.file + 1, w.next);
      calc {
        Survivors(w);
        Contents(w.files, r.file) + f;
        { assert f == kept + open; }
        (Contents(w.files, r.file) + kept) + open;
      }
    }
  }

  // ---------- one step ----------

  /** `execute` appends a prefix of the joined tuples: all of it exactly when the file system takes it. */
  lemma {:induction false} ExecuteAppends(w: World, tuples: seq<seq<byte>>, capacity: nat)
    requires w.current in w.files
    ensures var (w1, ok) := Execute(w, tuples, capacity);
            var all := Join(tuples);
            && ok == (|all| <= capacity)
            && w1.files == w.files[w.current := w.files[w.current] + all[..Min(capacity, |all|)]]
            && w1 == w.(files := w1.files, offset := w1.offset)
            && (ok ==> w1.offset == w.offset + |all|)
    decreases |tuples|
  {
    var f := w.files[w.current];
    if tuples == [] {
      assert f + [] == f;
    } else {
      var t := tuples[0];
      var rest := Join(tuples[1..]);
      if |t| <= capacity {
        var w1 := w.(files := w.files[w.current := f + t], offset := w.offset + |t|);
        ExecuteAppends(w1, tuples[1..], capacity - |t|);
        assert (t + rest)[..Min(capacity, |t + rest|)] == t + rest[..Min(capacity - |t|, |rest|)];
        assert f + (t + rest[..Min(capacity - |t|, |rest|)]) == (f + t) + rest[..Min(capacity - |t|, |rest|)];
      } else {
        assert (t + rest)[..capacity] == t[..capacity];
      }
    }
  }

  lemma WriteRefines(kind: Kind, w: World, l: Ledger, tuples: seq<seq<byte>>, capacity: nat)
    requires Refines(kind, w, l) && l.active
    ensures var e := Write(tuples, capacity);
            Refines(kind, WorldStep(kind, w, e), LedgerStep(l, e))
  {
    ExecuteAppends(w, tuples, capacity);
    var w1 := Execute(w, tuples, capacity).0;
    var added := Join(tuples)[..Min(capacity, |Join(tuples)|)];
    var r := w.last;
    var f := w.files[r.file];
    assert w1.files[r.file] == f + added;
    assert (f + added)[..r.offset] == f[..r.offset];
    assert (f + added)[r.offset..] == f[r.offset..] + added;
    ContentsAgree(w.files, w1.files, r.file);
    if |Join(tuples)| <= capacity { assert added == Join(tuples); }
  }

  /** A new file changes nothing that the record speaks of. */
  lemma CreateRefines(w: World, l: Ledger)
    requires Tidy(w) && (if l.txid == 0 then Untouched(w, l) else RecordCuts(w, l))
    ensures var w1 := Create(w);
            Tidy(w1) && (if l.txid == 0 then Untouched(w1, l) else RecordCuts(w1, l))
  {
    if l.txid != 0 { ContentsAgree(w.files, Create(w).files, w.last.file); }
  }

  lemma CommitAndRestartRefine(kind: Kind, w: World, l: Ledger, e: Event)
    requires Refines(kind, w, l) && (e.Restart? || (e.Commit? && l.active))
    ensures Refines(kind, WorldStep(kind, w, e), LedgerStep(l, e))
  {
    CreateRefines(w, l);
  }

  /** The next transaction: everything on disk becomes closed. */
  lemma FirstAttemptRefines(kind: Kind, w: World, l: Ledger, t: nat)
    requires Refines(kind, w, l) && l.txid < t && l.complete
    ensures Refines(kind, WorldStep(kind, w, Begin(t)), LedgerStep(l, Begin(t)))
  {
    RefinesMeansContents(kind, w, l);
    var f := w.files[w.current];
    assert f[..|f|] == f && f[|f|..] == [];
    var l1 := LedgerStep(l, Begin(t));
    if l.txid != 0 { assert l1.closed[..|l1.closed| - 1] == l.closed; }
  }

  /** A replay: the recorded prefix moves to the new file and the attempt's bytes disappear. */
  lemma ReplayRefines(kind: Kind, w: World, l: Ledger, t: nat)
    requires Refines(kind, w, l) && t == l.txid && 0 < t
    requires CounterFresh(kind, w, Begin(t))
    ensures BeginCommit(kind, w, t).1
    ensures Refines(kind, WorldStep(kind, w, Begin(t)), LedgerStep(l, Begin(t)))
  {
    var r := w.last;
    var kept := w.files[r.file][..r.offset];
    var w1 := Recover(w, r.file, r.offset).0;
    assert w1.files[w1.current] == kept;
    ContentsAgree(w.files, w1.files, r.file);
    ContentsEmptyTail(w1.files, r.file, w1.current);
    assert kept[..|kept|] == kept && kept[|kept|..] == [];
  }

  lemma StepRefines(kind: Kind, w: World, l: Ledger, e: Event)
    requires Refines(kind, w, l) && Allowed(l, e) && CounterFresh(kind, w, e)
    ensures Refines(kind, WorldStep(kind, w, e), LedgerStep(l, e))
  {
    match e
    case Begin(t) => if t == l.txid { ReplayRefines(kind, w, l, t); } else { FirstAttemptRefines(kind, w, l, t); }
    case Write(tuples, capacity) => WriteRefines(kind, w, l, tuples, capacity);
    case Commit(_) => CommitAndRestartRefine(kind, w, l, e);
    case Restart => CommitAndRestartRefine(kind, w, l, e);
  }

  // ---------- every run ----------

  lemma {:induction false} RunRefines(kind: Kind, events: seq<Event>)
    requires LegalRun(kind, events)
    ensures Refines(kind, WorldRun(kind, START, events), LedgerRun(EMPTY_LEDGER, events))
  {
    if events != [] {
      var before := events[..|events| - 1];
      RunRefines(kind, before);
      StepRefines(kind, WorldRun(kind, START, before), LedgerRun(EMPTY_LEDGER, before), events[|events| - 1]);
    }
  }

  /** Closed batches carry strictly increasing transaction ids, all below the current one. */
  ghost predicate InOrder(l: Ledger) {
    && (forall i, j :: 0 <= i < j < |l.closed| ==> l.closed[i].txid < l.closed[j].txid)
    && (forall i :: 0 <= i < |l.closed| ==> l.closed[i].txid < l.txid)
  }

  lemma StepInOrder(l: Ledger, e: Event)
    requires InOrder(l) && Allowed(l, e)
    ensures InOrder(LedgerStep(l, e))
  {
  }

  lemma {:induction false} RunInOrder(kind: Kind, events: seq<Event>)
    requires LegalRun(kind, events)
    ensures InOrder(LedgerRun(EMPTY_LEDGER, events))
  {
    if events != [] {
      var before := events[..|events| - 1];
      RunInOrder(kind, before);
      StepInOrder(LedgerRun(EMPTY_LEDGER, before), events[|events| - 1]);
    }
  }

  lemma BeginClearsPending(l: Ledger, e: Event)
    requires e.Begin?
    ensures LedgerStep(l, e).pending == []
  {
  }

  /**
   * Exactly-once: after any legal run the directory holds the closed batches, each once and in
   * transaction order, followed by the open attempt; right after `beginCommit` it holds the closed
   * batches alone.
   */
  lemma {:induction false} ExactlyOnce(kind: Kind, events: seq<Event>)
    requires LegalRun(kind, events)
    ensures var l := LedgerRun(EMPTY_LEDGER, events);
            && InOrder(l)
            && Survivors(WorldRun(kind, START, events)) == Flatten(l.closed) + l.pending
            && (events != [] && events[|events| - 1].Begin? ==>
                  Survivors(WorldRun(kind, START, events)) == Flatten(l.closed))
  {
    RunInOrder(kind, events);
    var (w, l) := (WorldRun(kind, START, events), LedgerRun(EMPTY_LEDGER, events));
    assert Survivors(w) == Flatten(l.closed) + l.pending by {
      RunRefines(kind, events);
      RefinesMeansContents(kind, w, l);
    }
    if events != [] && events[|events| - 1].Begin? {
      BeginClearsPending(LedgerRun(EMPTY_LEDGER, events[..|events| - 1]), events[|events| - 1]);
      assert Flatten(l.closed) + [] == Flatten(l.closed);
    }
  }

  /** With sequence files the byte counter plays no part: the protocol alone is enough. */
  lemma {:induction false} SequenceFilesNeedNoGuard(events: seq<Event>)
    requires forall n :: 0 <= n < |events| ==> Allowed(LedgerRun(EMPTY_LEDGER, events[..n]), events[n])
    ensures LegalRun(SequenceFile, events)
  {
    if events != [] {
      var n := |events| - 1;
      var before := events[..n];
      forall i | 0 <= i < n ensures Allowed(LedgerRun(EMPTY_LEDGER, before[..i]), before[i]) {
        assert before[..i] == events[..i] && before[i] == events[i];
      }
      SequenceFilesNeedNoGuard(before);
    }
  }

  // ---------- rotation ----------

  function Restarts(n: nat): seq<Event> {
    if n == 0 then [] else Restarts(n - 1) + [Restart]
  }

  /** The current file did not exist when `next` was the next file number, and nothing was written to it. */
  predicate FreshFile(w: World, next: nat) {
    w.current >= next && w.current in w.files && w.files[w.current] == [] && w.offset == 0
  }

  lemma OneMore(kind: Kind, events: seq<Event>, e: Event)
    ensures WorldRun(kind, START, events + [e]) == WorldStep(kind, WorldRun(kind, START, events), e)
    ensures LedgerRun(EMPTY_LEDGER, events + [e]) == LedgerStep(LedgerRun(EMPTY_LEDGER, events), e)
    ensures LegalRun(kind, events + [e]) ==>
              LegalRun(kind, events) && Allowed(LedgerRun(EMPTY_LEDGER, events), e)
  {
    assert (events + [e])[..|events|] == events;
  }

  lemma {:induction false} RestartsStayFresh(kind: Kind, events: seq<Event>, n: nat, next: nat)
    requires FreshFile(WorldRun(kind, START, events), next)
    requires LegalRun(kind, events + Restarts(n))
    ensures FreshFile(WorldRun(kind, START, events + Restarts(n)), next)
    ensures LedgerRun(EMPTY_LEDGER, events + Restarts(n)).txid == LedgerRun(EMPTY_LEDGER, events).txid
    decreases n
  {
    if n == 0 {
      assert events + [] == events;
    } else {
      var before := events + Restarts(n - 1);
      assert events + Restarts(n) == before + [Restart];
      OneMore(kind, before, Restart);
      RestartsStayFresh(kind, events, n - 1, next);
      RunRefines(kind, before);
    }
  }

  /**
   * Rotation: whatever a run has written up to a commit that rotates, the next transaction, after any number
   * of restarts, is recorded in a file that did not exist before that commit, from its first byte on.
   */
  lemma {:induction false} RotationSeparates(kind: Kind, before: seq<Event>, n: nat, t: nat)
    requires var committed := before + [Commit(true)]; LegalRun(kind, committed + Restarts(n) + [Begin(t)])
    requires t > LedgerRun(EMPTY_LEDGER, before).txid
    ensures var w := WorldRun(kind, START, before);
            var r := WorldRun(kind, START, before + [Commit(true)] + Restarts(n) + [Begin(t)]).last;
            r.txnid == t && r.file >= w.next && r.file !in w.files && r.offset == 0
  {
    var committed := before + [Commit(true)];
    var restarted := committed + Restarts(n);
    var w := WorldRun(kind, START, before);
    OneMore(kind, restarted, Begin(t));
    LegalPrefix(kind, committed, n);
    OneMore(kind, before, Commit(true));
    RunRefines(kind, before);
    assert FreshFile(WorldRun(kind, START, committed), w.next);
    RestartsStayFresh(kind, committed, n, w.next);
    RunRefines(kind, restarted);
  }

  lemma {:induction false} LegalPrefix(kind: Kind, events: seq<Event>, n: nat)
    requires LegalRun(kind, events + Restarts(n))
    ensures LegalRun(kind, events)
    decreases n
  {
    if n == 0 {
      assert events + [] == events;
    } else {
      assert events + Restarts(n) == (events + Restarts(n - 1)) + [Restart];
      OneMore(kind, events + Restarts(n - 1), Restart);
      LegalPrefix(kind, events, n - 1);
    }
  }

  // ---------- where the code falls short ----------

  /**
   * The record written by a replay points at the end of the file it names exactly when the guard holds:
   * recovering zero bytes leaves the byte counter of `HdfsFileOptions` as the failed attempt left it.
   */
  lemma RecordPointsAtEndIff(kind: Kind, w: World, l: Ledger, t: nat)
    requires Refines(kind, w, l) && t == l.txid && 0 < t
    ensures var r := BeginCommit(kind, w, t).0.last;
            var files := BeginCommit(kind, w, t).0.files;
            r.file in files && (r.offset == |files[r.file]| <==> CounterFresh(kind, w, Begin(t)))
  {
    if CounterFresh(kind, w, Begin(t)) {
      ReplayRefines(kind, w, l, t);
    }
  }

  /** A replay, one more byte written, and one more replay. */
  function ReplayTwice(kind: Kind, w: World, t: nat, b: byte): World {
    WorldStep(kind, WorldStep(kind, WorldStep(kind, w, Begin(t)), Write([[b]], 1)), Begin(t))
  }

  lemma OneByteWritten(w: World, b: byte)
    requires w.current in w.files
    ensures WorldStep(HdfsFile, w, Write([[b]], 1))
            == w.(files := w.files[w.current := w.files[w.current] + [b]], offset := w.offset + 1)
  {
    ExecuteAppends(w, [[b]], 1);
    assert Join([[b]][1..]) == [] && Join([[b]]) == [b] && [b][..1] == [b];
  }

  /** Right after a replay begins the open attempt is gone, with or without the guard. */
  lemma ReplayDropsAttempt(kind: Kind, w: World, l: Ledger, t: nat)
    requires Refines(kind, w, l) && t == l.txid && 0 < t
    ensures Survivors(WorldStep(kind, w, Begin(t))) == Flatten(l.closed)
  {
    var r := w.last;
    var w1 := WorldStep(kind, w, Begin(t));
    ContentsAgree(w.files, w1.files, r.file);
    ContentsEmptyTail(w1.files, r.file, w.next);
  }

  lemma StaleReplayWorld(w: World, t: nat, b: byte)
    requires w.last.txnid == t && w.last.offset == 0 && 0 < w.offset
    requires Tidy(w) && w.last.file in w.files
    ensures var n := w.next;
            ReplayTwice(HdfsFile, w, t, b).next == n + 2
            && ReplayTwice(HdfsFile, w, t, b).files == (w.files - {w.last.file})[n + 1 := [b]]
  {
    var n := w.next;
    var w1 := WorldStep(HdfsFile, w, Begin(t));
    assert w1.files == (w.files - {w.last.file})[n := []];
    OneByteWritten(w1, b);
    var w2 := WorldStep(HdfsFile, w1, Write([[b]], 1));
    assert w2.files[n] == [b] && [b][..Min(w.offset, 1)] == [b];
  }

  /** Without the recorded file, and with one byte in a new one, the output is the closed batches and that byte. */
  lemma ByteBehindClosed(w: World, l: Ledger, b: byte)
    requires Tidy(w) && RecordCuts(w, l) && w.last.offset == 0
    ensures Contents((w.files - {w.last.file})[w.next + 1 := [b]], w.next + 2) == Flatten(l.closed) + [b]
  {
    var files := (w.files - {w.last.file})[w.next + 1 := [b]];
    ContentsAgree(w.files, files, w.last.file);
    ContentsEmptyTail(files, w.last.file, w.next + 1);
    assert w.files[w.last.file][..0] == [];
  }

  lemma StaleReplayKeepsByte(w: World, l: Ledger, t: nat, b: byte)
    requires Refines(HdfsFile, w, l) && t == l.txid && 0 < t && !CounterFresh(HdfsFile, w, Begin(t))
    ensures Survivors(ReplayTwice(HdfsFile, w, t, b)) == Flatten(l.closed) + [b]
  {
    StaleReplayWorld(w, t, b);
    ByteBehindClosed(w, l, b);
  }

  /**
   * The guard is exact for what follows a replay as well: transaction `t` can be replayed again without a
   * trace of the failed attempt if and only if the byte counter was fresh.
   */
  lemma SecondReplayCleanIff(kind: Kind, w: World, l: Ledger, t: nat, b: byte)
    requires Refines(kind, w, l) && t == l.txid && 0 < t
    ensures Survivors(ReplayTwice(kind, w, t, b)) == Flatten(l.closed) <==> CounterFresh(kind, w, Begin(t))
  {
    if CounterFresh(kind, w, Begin(t)) {
      var w1, l1 := WorldStep(kind, w, Begin(t)), LedgerStep(l, Begin(t));
      StepRefines(kind, w, l, Begin(t));
      var e := Write([[b]], 1);
      StepRefines(kind, w1, l1, e);
      ReplayDropsAttempt(kind, WorldStep(kind, w1, e), LedgerStep(l1, e), t);
    } else {
      StaleReplayKeepsByte(w, l, t, b);
    }
  }

  /** The very first transaction writes one byte and fails. */
  function FailedFirstAttempt(b: byte): World {
    WorldStep(HdfsFile, WorldStep(HdfsFile, START, Begin(1)), Write([[b]], 1))
  }

  const FAILED_LEDGER := Ledger([], 1, [], true, false)

  lemma FirstBegin()
    ensures var w := WorldStep(HdfsFile, START, Begin(1));
            && Refines(HdfsFile, w, FAILED_LEDGER)
            && w.offset == 0 && w.current in w.files && w.last == TxnRecord(1, 0, 0)
  {
    FirstAttemptRefines(HdfsFile, START, EMPTY_LEDGER, 1);
  }

  lemma FailedFirstAttemptState(b: byte)
    ensures var l := LedgerStep(FAILED_LEDGER, Write([[b]], 1));
            Refines(HdfsFile, FailedFirstAttempt(b), l) && l.closed == [] && l.txid == 1
    ensures !CounterFresh(HdfsFile, FailedFirstAttempt(b), Begin(1))
  {
    FirstBegin();
    var w := WorldStep(HdfsFile, START, Begin(1));
    WriteRefines(HdfsFile, w, FAILED_LEDGER, [[b]], 1);
    OneByteWritten(w, b);
  }

  /** Replayed twice, it leaves its byte in the output although nothing was ever committed. */
  lemma ZeroByteRecoveryDuplicates(b: byte)
    ensures Survivors(ReplayTwice(HdfsFile, FailedFirstAttempt(b), 1, b)) == [b]
  {
    var l := LedgerStep(FAILED_LEDGER, Write([[b]], 1));
    FailedFirstAttemptState(b);
    StaleReplayKeepsByte(FailedFirstAttempt(b), l, 1, b);
    assert Flatten(l.closed) == [];
  }

  /**
   * A worker that dies after `recover` and before `updateIndex` leaves a record naming a deleted file.
   * The next attempt of the transaction then goes through exactly when no bytes had been recorded.
   */
  lemma DeathBetweenRecoverAndIndex(kind: Kind, w: World, l: Ledger)
    requires Refines(kind, w, l) && 0 < l.txid
    ensures var dead := Recover(w, w.last.file, w.last.offset).0;
            BeginCommit(kind, Prepare(dead), l.txid).1 <==> w.last.offset == 0
  {
  }
}
