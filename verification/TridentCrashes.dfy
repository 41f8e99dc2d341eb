/**
 * Exactly-once output when a worker may also die inside the replacement of the index file. The record is
 * no longer a field of the world: a worker that starts reads what the two index files give.
 */
module TridentCrashes {
  import opened Common
  import opened Text
  import opened TridentWorld
  import opened TridentExactlyOnce
  import opened TxnIndex

  /** A step of the protocol, or a `beginCommit` that dies at a point of `updateIndex`, followed by a new worker. */
  datatype Happening = Whole(e: Event) | DiesInUpdate(t: nat, p: Point)

  /** The index line of a record; files are named by their numbers. */
  function EntryOf(r: TxnRecord): Entry {
    Entry(r.txnid, Decimal(r.file), r.offset)
  }

  /** The record the index files give, if any; no transaction has number 0. */
  function ReadIndex(d: Disk): Option<TxnRecord> {
    match GetTxnRecord(d, Decimal(0))
    case Found(t, path, o) =>
      if t > 0 && o >= 0 && ParseLong(path).Some? && ParseLong(path).value >= 0
      then Some(TxnRecord(t, ParseLong(path).value, o)) else None
    case Unreadable => None
  }

  function Start(w: World, d: Disk): World {
    Prepare(w.(index := ReadIndex(d)))
  }

  /** `beginCommit` before `updateIndex`. */
  function Recovered(w: World, t: nat): (World, bool) {
    if t <= w.last.txnid then Recover(w, w.last.file, w.last.offset) else (w, true)
  }

  function Step(kind: Kind, w: World, d: Disk, h: Happening): (World, Disk) {
    match h
    case Whole(Restart) => (Start(w, d), d)
    case Whole(Begin(t)) =>
      var (w1, ok) := BeginCommit(kind, w, t);
      (w1, if ok then DiskAt(d, EntryOf(w1.last), AfterRename) else d)
    case Whole(e) => (WorldStep(kind, w, e), d)
    case DiesInUpdate(t, p) =>
      var (w1, ok) := Recovered(w, t);
      var d1 := if ok then DiskAt(d, EntryOf(UpdateIndex(kind, w1, t).last), p) else d;
      (Start(w1, d1), d1)
  }

  /** The line that `beginCommit` for `t` is about to write. */
  function NewEntry(kind: Kind, w: World, t: nat): Entry {
    EntryOf(UpdateIndex(kind, Recovered(w, t).0, t).last)
  }

  /** A torn temporary file is the only one there is. */
  predicate TornAlone(d: Disk, p: Point) {
    p.Torn? && d.index.None?
  }

  /** The death leaves the new record in force; a complete line counts even without its line break. */
  predicate NewInForce(d: Disk, e: Entry, p: Point) {
    p.AfterDelete? || p.AfterRename? || (TornAlone(d, p) && p.written >= |e.Print()|)
  }

  /** The death has begun the transaction: the new record, a recovery done, or the old record gone. */
  predicate Begun(kind: Kind, w: World, d: Disk, t: nat, p: Point) {
    NewInForce(d, NewEntry(kind, w, t), p) || t <= w.last.txnid || TornAlone(d, p)
  }

  function LedgerHappening(l: Ledger, h: Happening, begun: bool): Ledger {
    match h
    case Whole(e) => LedgerStep(l, e)
    case DiesInUpdate(t, _) => LedgerStep(if begun then LedgerStep(l, Begin(t)) else l, Restart)
  }

  /**
   * What a death inside `updateIndex` must not do: leave part of a line as the only one there is, or the old
   * record in force after bytes were recovered from the file it names.
   */
  predicate Survivable(kind: Kind, w: World, d: Disk, t: nat, p: Point) {
    var e := NewEntry(kind, w, t);
    if TornAlone(d, p) then p.written == 0 || p.written >= |e.Print()|
    else NewInForce(d, e, p) || t > w.last.txnid || w.last.offset == 0
  }

  predicate Legal(kind: Kind, w: World, d: Disk, l: Ledger, h: Happening) {
    match h
    case Whole(e) => Allowed(l, e) && CounterFresh(kind, w, e)
    case DiesInUpdate(t, p) => Allowed(l, Begin(t)) && CounterFresh(kind, w, Begin(t)) && Survivable(kind, w, d, t, p)
  }

  // ---------- the index files and the record ----------

  /** The files give exactly this record, or the default one. */
  ghost predicate Gives(d: Disk, index: Option<TxnRecord>) {
    match index
    case None => forall path :: GetTxnRecord(d, path) == Found(0, path, 0)
    case Some(r) => r.txnid > 0 && forall path :: GetTxnRecord(d, path) == Found(r.txnid, Decimal(r.file), r.offset)
  }

  lemma ReadsWhatIsGiven(d: Disk, index: Option<TxnRecord>)
    requires Gives(d, index)
    ensures ReadIndex(d) == index
  {
    if index.Some? { ParseDecimal(index.value.file); }
  }

  lemma NewGives(d: Disk, r: TxnRecord, p: Point)
    requires r.txnid > 0 && NewInForce(d, EntryOf(r), p)
    ensures Gives(DiskAt(d, EntryOf(r), p), Some(r))
  {
    var e := EntryOf(r);
    forall path ensures GetTxnRecord(DiskAt(d, e, p), path) == Found(r.txnid, Decimal(r.file), r.offset) {
      if p.Torn? {
        TornOutcome(e, p.written, path);
        CutOffsetIff(e, p.written);
      } else {
        FinishedUpdateIsRead(d, e, path);
      }
    }
  }

  lemma OldGives(d: Disk, index: Option<TxnRecord>, e: Entry, p: Point)
    requires Gives(d, index) && !NewInForce(d, e, p) && !TornAlone(d, p)
    ensures Gives(DiskAt(d, e, p), index)
  {
    assert forall path :: GetTxnRecord(DiskAt(d, e, p), path) == GetTxnRecord(d, path);
  }

  /** An empty temporary file alone is no record at all. */
  lemma NothingGives(d: Disk, e: Entry)
    requires d.index.None? && e.Plain()
    ensures Gives(DiskAt(d, e, Torn(0)), None)
  {
    forall path ensures GetTxnRecord(DiskAt(d, e, Torn(0)), path) == Found(0, path, 0) {
      TornOutcome(e, 0, path);
    }
  }

  // ---------- a record that names a deleted file without bytes ----------

  /** The recorded file is gone, and no bytes of it were recorded. */
  predicate FileGone(w: World) {
    w.last.txnid > 0 && w.last.offset == 0 && w.last.file !in w.files
  }

  /** The same world with an empty file in that place. */
  function Mended(w: World): World {
    if FileGone(w) then w.(files := w.files[w.last.file := []]) else w
  }

  lemma {:induction false} EmptyFileAdds(files: map<nat, seq<byte>>, id: nat, n: nat)
    requires id !in files
    ensures Contents(files[id := []], n) == Contents(files, n)
  {
    if n > 0 { EmptyFileAdds(files, id, n - 1); }
  }

  lemma MendedSurvivors(w: World)
    ensures Survivors(Mended(w)) == Survivors(w)
  {
    if FileGone(w) { EmptyFileAdds(w.files, w.last.file, w.next); }
  }

  /** The relation of the crash-free runs holds of the mended world, and the files give its record. */
  ghost predicate Related(kind: Kind, w: World, d: Disk, l: Ledger) {
    && Refines(kind, Mended(w), l)
    && (FileGone(w) ==> !l.active && !l.complete && w.last.txnid == l.txid)
    && Gives(d, w.index)
  }

  lemma RelatedIndex(kind: Kind, w: World, d: Disk, l: Ledger)
    requires Related(kind, w, d, l)
    ensures w.last.txnid == l.txid && ReadIndex(d) == w.index && w.index == (if l.txid == 0 then None else Some(w.last))
    ensures w.last.txnid > 0 ==> w.last.file < w.next
  {
    ReadsWhatIsGiven(d, w.index);
    assert w.last.txnid > 0 ==> w.last.file in Mended(w).files;
  }

  lemma BeginOfMended(kind: Kind, w: World, t: nat)
    requires FileGone(w) && t <= w.last.txnid && w.last.file < w.next
    ensures BeginCommit(kind, Mended(w), t) == BeginCommit(kind, w, t)
    ensures Recovered(Mended(w), t) == Recovered(w, t)
  {
    assert Recover(Mended(w), w.last.file, 0).0.files == Recover(w, w.last.file, 0).0.files;
  }

  lemma RestartOfMended(w: World)
    requires w.index == Some(w.last) && w.last.file < w.next
    ensures Mended(Prepare(w)) == Prepare(Mended(w))
  {
    if FileGone(w) {
      assert w.files[w.last.file := []][w.next := []] == w.files[w.next := []][w.last.file := []];
    }
  }

  lemma RestartRelated(kind: Kind, w: World, d: Disk, l: Ledger)
    requires Related(kind, w, d, l)
    ensures Related(kind, Start(w, d), d, LedgerStep(l, Restart)) && Start(w, d) == Prepare(w)
  {
    RelatedIndex(kind, w, d, l);
    StepRefines(kind, Mended(w), l, Restart);
    if l.txid > 0 { RestartOfMended(w); }
  }

  /** A finished `beginCommit` leaves a record that names a file that is there. */
  lemma BeginRelated(kind: Kind, w: World, d: Disk, l: Ledger, t: nat, p: Point)
    requires Related(kind, w, d, l) && Allowed(l, Begin(t)) && CounterFresh(kind, w, Begin(t))
    requires NewInForce(d, EntryOf(BeginCommit(kind, w, t).0.last), p)
    ensures var w1 := BeginCommit(kind, w, t).0;
            BeginCommit(kind, w, t).1 && !FileGone(w1)
            && Related(kind, w1, DiskAt(d, EntryOf(w1.last), p), LedgerStep(l, Begin(t)))
  {
    RelatedIndex(kind, w, d, l);
    if FileGone(w) { BeginOfMended(kind, w, t); }
    StepRefines(kind, Mended(w), l, Begin(t));
    if t == l.txid { ReplayRefines(kind, Mended(w), l, t); }
    var w1 := BeginCommit(kind, w, t).0;
    assert w1.last.file == w1.current && w1.current in w1.files && w1.index == Some(w1.last) && w1.last.txnid == t;
    NewGives(d, w1.last, p);
  }

  lemma BeginIsRecoverAndUpdate(kind: Kind, w: World, t: nat)
    requires BeginCommit(kind, w, t).1
    ensures Recovered(w, t).1 && UpdateIndex(kind, Recovered(w, t).0, t) == BeginCommit(kind, w, t).0
  {
  }

  /** A new worker reads the record from the files, whatever the old one held in memory. */
  lemma StartForgets(kind: Kind, w: World, t: nat, d: Disk)
    requires ReadIndex(d).Some?
    ensures Start(UpdateIndex(kind, w, t), d) == Start(w, d)
  {
  }

  // ---------- no record left ----------

  /** The record was lost before its transaction wrote anything: the files hold the closed batches. */
  ghost predicate Forgotten(w: World, d: Disk, l: Ledger) {
    && Tidy(w) && w.offset == 0 && w.files[w.current] == []
    && w.index == None && w.last.txnid == 0 && Gives(d, None)
    && l.txid > 0 && l.pending == [] && !l.active && !l.complete
    && Survivors(w) == Flatten(l.closed)
  }

  ghost predicate Fine(kind: Kind, w: World, d: Disk, l: Ledger) {
    Related(kind, w, d, l) || Forgotten(w, d, l)
  }

  lemma ForgottenRestart(w: World, d: Disk, l: Ledger)
    requires Forgotten(w, d, l)
    ensures Forgotten(Start(w, d), d, LedgerStep(l, Restart))
  {
    ReadsWhatIsGiven(d, None);
    NewEmptyFile(w);
  }

  lemma NewEmptyFile(w: World)
    requires forall id :: id in w.files ==> id < w.next
    ensures Survivors(Create(w)) == Survivors(w)
  {
    ContentsAgree(w.files, Create(w).files, w.next);
    assert Survivors(w) + [] == Survivors(w);
  }

  lemma ForgottenBegin(kind: Kind, w: World, d: Disk, l: Ledger, t: nat, p: Point)
    requires Forgotten(w, d, l) && Allowed(l, Begin(t)) && NewInForce(d, EntryOf(BeginCommit(kind, w, t).0.last), p)
    ensures var w1 := BeginCommit(kind, w, t).0;
            BeginCommit(kind, w, t).1 && !FileGone(w1)
            && Related(kind, w1, DiskAt(d, EntryOf(w1.last), p), LedgerStep(l, Begin(t)))
  {
    var w1 := BeginCommit(kind, w, t).0;
    NewGives(d, w1.last, p);
    var here: seq<byte> := [];
    assert w1.files[w1.current] == here[..0] == here;
    assert Survivors(w) == Contents(w.files, w.current) + here;
  }

  lemma BeginFine(kind: Kind, w: World, d: Disk, l: Ledger, t: nat, p: Point)
    requires Fine(kind, w, d, l) && Allowed(l, Begin(t)) && CounterFresh(kind, w, Begin(t))
    requires NewInForce(d, EntryOf(BeginCommit(kind, w, t).0.last), p)
    ensures var w1 := BeginCommit(kind, w, t).0;
            BeginCommit(kind, w, t).1 && !FileGone(w1)
            && Related(kind, w1, DiskAt(d, EntryOf(w1.last), p), LedgerStep(l, Begin(t)))
  {
    if Related(kind, w, d, l) { BeginRelated(kind, w, d, l, t, p); } else { ForgottenBegin(kind, w, d, l, t, p); }
  }

  /** Right after `beginCommit` the output is the closed batches, whether or not the record gets written. */
  lemma BegunOutput(kind: Kind, w: World, d: Disk, l: Ledger, t: nat)
    requires Fine(kind, w, d, l) && Allowed(l, Begin(t)) && CounterFresh(kind, w, Begin(t))
    ensures BeginCommit(kind, w, t).1 && Tidy(Recovered(w, t).0)
    ensures Survivors(BeginCommit(kind, w, t).0) == Survivors(Recovered(w, t).0) == Flatten(LedgerStep(l, Begin(t)).closed)
  {
    BeginFine(kind, w, d, l, t, AfterRename);
    BeginIsRecoverAndUpdate(kind, w, t);
    var (w1, l1) := (BeginCommit(kind, w, t).0, LedgerStep(l, Begin(t)));
    RefinesMeansContents(kind, w1, l1);
    assert Flatten(l1.closed) + [] == Flatten(l1.closed);
  }

  // ---------- one happening ----------

  /** A death with the new record in force is a begun transaction and a restart. */
  lemma NewDeath(kind: Kind, w: World, d: Disk, l: Ledger, t: nat, p: Point)
    requires Fine(kind, w, d, l) && Legal(kind, w, d, l, DiesInUpdate(t, p)) && NewInForce(d, NewEntry(kind, w, t), p)
    ensures var (w1, d1) := Step(kind, w, d, DiesInUpdate(t, p));
            Related(kind, w1, d1, LedgerHappening(l, DiesInUpdate(t, p), true))
  {
    BeginWorks(kind, w, d, l, t);
    BeginIsRecoverAndUpdate(kind, w, t);
    var (w1, l1) := (BeginCommit(kind, w, t).0, LedgerStep(l, Begin(t)));
    var d1 := DiskAt(d, EntryOf(w1.last), p);
    BeginFine(kind, w, d, l, t, p);
    RestartRelated(kind, w1, d1, l1);
    RelatedIndex(kind, w1, d1, l1);
    StartForgets(kind, Recovered(w, t).0, t, d1);
  }

  lemma BeginWorks(kind: Kind, w: World, d: Disk, l: Ledger, t: nat)
    requires Fine(kind, w, d, l) && Allowed(l, Begin(t)) && CounterFresh(kind, w, Begin(t))
    ensures BeginCommit(kind, w, t).1
  {
    BeginFine(kind, w, d, l, t, AfterRename);
  }

  /** A first attempt that dies with the old record in force has only cost a restart. */
  lemma OldDeath(kind: Kind, w: World, d: Disk, l: Ledger, t: nat, p: Point)
    requires Fine(kind, w, d, l) && t > w.last.txnid
    requires !NewInForce(d, NewEntry(kind, w, t), p) && !TornAlone(d, p)
    ensures var (w1, d1) := Step(kind, w, d, DiesInUpdate(t, p));
            Fine(kind, w1, d1, LedgerHappening(l, DiesInUpdate(t, p), false))
  {
    var d1 := DiskAt(d, NewEntry(kind, w, t), p);
    OldGives(d, w.index, NewEntry(kind, w, t), p);
    if Related(kind, w, d, l) { RestartRelated(kind, w, d1, l); } else { ForgottenRestart(w, d1, l); }
  }

  /** A replay without recorded bytes that dies with the old record in force: the recorded file is gone for good. */
  lemma EmptyReplayDeath(kind: Kind, w: World, d: Disk, l: Ledger, t: nat, p: Point)
    requires Related(kind, w, d, l) && Allowed(l, Begin(t)) && t <= w.last.txnid && w.last.offset == 0
    requires !NewInForce(d, NewEntry(kind, w, t), p) && !TornAlone(d, p)
    ensures var (w1, d1) := Step(kind, w, d, DiesInUpdate(t, p));
            Related(kind, w1, d1, LedgerHappening(l, DiesInUpdate(t, p), true))
  {
    RelatedIndex(kind, w, d, l);
    var (w1, d1) := (Recovered(w, t).0, DiskAt(d, NewEntry(kind, w, t), p));
    OldGives(d, w.index, NewEntry(kind, w, t), p);
    ReadsWhatIsGiven(d1, w.index);
    if FileGone(w) { BeginOfMended(kind, w, t); }
    EmptyRecoveryRefines(kind, Mended(w), l);
    assert w1 == Recover(Mended(w), w.last.file, 0).0;
    assert w1.index == w.index && Start(w1, d1) == Prepare(w1);
  }

  lemma EmptyRecoveryRefines(kind: Kind, w: World, l: Ledger)
    requires Refines(kind, w, l) && l.txid > 0 && w.last.offset == 0
    ensures var w1 := Prepare(Recover(w, w.last.file, 0).0);
            FileGone(w1) && w1.last == w.last && w1.index == w.index
            && Refines(kind, Mended(w1), l.(pending := [], active := false, complete := false))
  {
    var w1 := Prepare(Recover(w, w.last.file, 0).0);
    var r := w.last;
    assert w1.files == (w.files - {r.file})[w.next := []][w.next + 1 := []];
    ContentsAgree(w.files, Mended(w1).files, r.file);
    assert w.files[r.file][..0] == [];
    assert Mended(w1).files[r.file][..0] == [] == Mended(w1).files[r.file][0..];
  }

  /** A death that leaves an empty temporary file alone has lost the record, and no bytes. */
  lemma EmptyDeath(kind: Kind, w: World, d: Disk, l: Ledger, t: nat)
    requires Fine(kind, w, d, l) && Allowed(l, Begin(t)) && CounterFresh(kind, w, Begin(t)) && d.index.None?
    ensures var (w1, d1) := Step(kind, w, d, DiesInUpdate(t, Torn(0)));
            Forgotten(w1, d1, LedgerHappening(l, DiesInUpdate(t, Torn(0)), true))
  {
    BegunOutput(kind, w, d, l, t);
    BeginIsRecoverAndUpdate(kind, w, t);
    var d1 := DiskAt(d, NewEntry(kind, w, t), Torn(0));
    NothingGives(d, NewEntry(kind, w, t));
    ReadsWhatIsGiven(d1, None);
    NewEmptyFile(Recovered(w, t).0);
  }

  lemma WholeFine(kind: Kind, w: World, d: Disk, l: Ledger, e: Event)
    requires Fine(kind, w, d, l) && Legal(kind, w, d, l, Whole(e))
    ensures var (w1, d1) := Step(kind, w, d, Whole(e)); Fine(kind, w1, d1, LedgerStep(l, e))
  {
    match e
    case Begin(t) => BeginFine(kind, w, d, l, t, AfterRename);
    case Restart =>
      if Related(kind, w, d, l) { RestartRelated(kind, w, d, l); } else { ForgottenRestart(w, d, l); }
    case _ =>
      StepRefines(kind, w, l, e);
      NoneGone(kind, w, d, l, e);
  }

  lemma NoneGone(kind: Kind, w: World, d: Disk, l: Ledger, e: Event)
    requires Related(kind, w, d, l) && l.active && (e.Write? || e.Commit?)
    ensures var w1 := WorldStep(kind, w, e); !FileGone(w1) && w1.index == w.index && w1.last == w.last
  {
    if e.Write? && w.current in w.files { ExecuteAppends(w, e.tuples, e.capacity); }
  }

  lemma DeathFine(kind: Kind, w: World, d: Disk, l: Ledger, t: nat, p: Point)
    requires Fine(kind, w, d, l) && Legal(kind, w, d, l, DiesInUpdate(t, p))
    ensures var (w1, d1) := Step(kind, w, d, DiesInUpdate(t, p));
            Fine(kind, w1, d1, LedgerHappening(l, DiesInUpdate(t, p), Begun(kind, w, d, t, p)))
  {
    if NewInForce(d, NewEntry(kind, w, t), p) { NewDeath(kind, w, d, l, t, p); }
    else if TornAlone(d, p) { EmptyDeath(kind, w, d, l, t); }
    else if t > w.last.txnid { OldDeath(kind, w, d, l, t, p); }
    else { EmptyReplayDeath(kind, w, d, l, t, p); }
  }

  lemma HappeningFine(kind: Kind, w: World, d: Disk, l: Ledger, h: Happening)
    requires Fine(kind, w, d, l) && Legal(kind, w, d, l, h)
    ensures var (w1, d1) := Step(kind, w, d, h);
            Fine(kind, w1, d1, LedgerHappening(l, h, h.DiesInUpdate? && Begun(kind, w, d, h.t, h.p)))
  {
    match h
    case Whole(e) => WholeFine(kind, w, d, l, e);
    case DiesInUpdate(t, p) => DeathFine(kind, w, d, l, t, p);
  }

  // ---------- every run ----------

  datatype Outcome = Outcome(w: World, d: Disk, l: Ledger, legal: bool)

  const EMPTY_DISK := Disk(None, None)

  function After(kind: Kind, o: Outcome, h: Happening): Outcome {
    var (w, d) := Step(kind, o.w, o.d, h);
    var begun := h.DiesInUpdate? && Begun(kind, o.w, o.d, h.t, h.p);
    Outcome(w, d, LedgerHappening(o.l, h, begun), o.legal && Legal(kind, o.w, o.d, o.l, h))
  }

  function Run(kind: Kind, hs: seq<Happening>): Outcome {
    if hs == [] then Outcome(START, EMPTY_DISK, EMPTY_LEDGER, true)
    else After(kind, Run(kind, hs[..|hs| - 1]), hs[|hs| - 1])
  }

  lemma {:induction false} RunFine(kind: Kind, hs: seq<Happening>)
    requires Run(kind, hs).legal
    ensures var o := Run(kind, hs); Fine(kind, o.w, o.d, o.l) && InOrder(o.l)
  {
    if hs != [] {
      var (o, h) := (Run(kind, hs[..|hs| - 1]), hs[|hs| - 1]);
      RunFine(kind, hs[..|hs| - 1]);
      HappeningFine(kind, o.w, o.d, o.l, h);
      HappeningInOrder(o.l, h, h.DiesInUpdate? && Begun(kind, o.w, o.d, h.t, h.p));
    }
  }

  lemma HappeningInOrder(l: Ledger, h: Happening, begun: bool)
    requires InOrder(l) && (if h.Whole? then Allowed(l, h.e) else Allowed(l, Begin(h.t)))
    ensures InOrder(LedgerHappening(l, h, begun))
  {
    match h
    case Whole(e) => StepInOrder(l, e);
    case DiesInUpdate(t, _) =>
      StepInOrder(l, Begin(t));
      StepInOrder(LedgerStep(l, Begin(t)), Restart);
      StepInOrder(l, Restart);
  }

  lemma FineOutput(kind: Kind, w: World, d: Disk, l: Ledger)
    requires Fine(kind, w, d, l)
    ensures Survivors(w) == Flatten(l.closed) + l.pending && forall path :: GetTxnRecord(d, path).Found?
  {
    if Related(kind, w, d, l) {
      MendedSurvivors(w);
      RefinesMeansContents(kind, Mended(w), l);
    } else {
      assert Flatten(l.closed) + [] == Flatten(l.closed);
    }
  }

  /**
   * Exactly-once with deaths inside the index update: after every run of survivable happenings a worker can
   * start, and the directory holds the closed batches, each once and in transaction order, and then the open
   * attempt.
   */
  lemma {:induction false} ExactlyOnceWithCrashes(kind: Kind, hs: seq<Happening>)
    requires Run(kind, hs).legal
    ensures var o := Run(kind, hs);
            && InOrder(o.l)
            && Survivors(o.w) == Flatten(o.l.closed) + o.l.pending
            && (forall path :: GetTxnRecord(o.d, path).Found?)
  {
    var o := Run(kind, hs);
    RunFine(kind, hs);
    FineOutput(kind, o.w, o.d, o.l);
  }

  // ---------- the guard is exact ----------

  /** A worker can start, and its `beginCommit` for `t` leaves exactly the closed batches. */
  ghost predicate GoesOn(kind: Kind, w: World, d: Disk, closed: seq<Batch>, t: nat) {
    && (forall path :: GetTxnRecord(d, path).Found?)
    && BeginCommit(kind, w, t).1
    && Survivors(BeginCommit(kind, w, t).0) == Flatten(closed)
  }

  lemma StillAllowed(l: Ledger, t: nat, p: Point, begun: bool)
    requires Allowed(l, Begin(t))
    ensures var l1 := LedgerHappening(l, DiesInUpdate(t, p), begun);
            Allowed(l1, Begin(t)) && LedgerStep(l1, Begin(t)).closed == LedgerStep(l, Begin(t)).closed
  {
  }

  lemma StartsFresh(kind: Kind, w: World, d: Disk, t: nat, p: Point)
    ensures Step(kind, w, d, DiesInUpdate(t, p)).0.offset == 0
  {
  }

  lemma SurvivedGoesOn(kind: Kind, w: World, d: Disk, l: Ledger, t: nat, p: Point)
    requires Fine(kind, w, d, l) && Legal(kind, w, d, l, DiesInUpdate(t, p))
    ensures var (w1, d1) := Step(kind, w, d, DiesInUpdate(t, p)); GoesOn(kind, w1, d1, LedgerStep(l, Begin(t)).closed, t)
  {
    var ((w1, d1), begun) := (Step(kind, w, d, DiesInUpdate(t, p)), Begun(kind, w, d, t, p));
    var l1 := LedgerHappening(l, DiesInUpdate(t, p), begun);
    DeathFine(kind, w, d, l, t, p);
    StillAllowed(l, t, p, begun);
    StartsFresh(kind, w, d, t, p);
    FineOutput(kind, w1, d1, l1);
    BegunOutput(kind, w1, d1, l1, t);
  }

  /** Bytes were recovered from a file that the record still in force names. */
  lemma RecoveredFileMissed(kind: Kind, w: World, d: Disk, l: Ledger, t: nat, p: Point)
    requires Related(kind, w, d, l) && !NewInForce(d, NewEntry(kind, w, t), p) && !TornAlone(d, p)
    requires 0 < t == w.last.txnid && w.last.offset > 0
    ensures !BeginCommit(kind, Step(kind, w, d, DiesInUpdate(t, p)).0, t).1
  {
    RelatedIndex(kind, w, d, l);
    var (w1, d1) := (Recovered(w, t).0, DiskAt(d, NewEntry(kind, w, t), p));
    OldGives(d, w.index, NewEntry(kind, w, t), p);
    ReadsWhatIsGiven(d1, w.index);
    assert Start(w1, d1).last == w.last && w.last.file !in Start(w1, d1).files;
  }

  /** The first `cut` bytes of the recorded file alone, in a new file, are so much shorter than the closed batches. */
  lemma CutContents(w: World, l: Ledger, cut: nat)
    requires Tidy(w) && RecordCuts(w, l) && l.pending == [] && cut <= w.last.offset
    ensures var r := w.last;
            var files := (w.files[w.next := []][w.next + 1 := w.files[r.file][..cut]]) - {r.file};
            |Contents(files, w.next + 2)| == |Flatten(l.closed)| - (r.offset - cut)
  {
    var (r, f) := (w.last, w.files[w.last.file]);
    var files := (w.files[w.next := []][w.next + 1 := f[..cut]]) - {r.file};
    ContentsAgree(w.files, files, r.file);
    ContentsEmptyTail(files, r.file, w.next + 1);
    assert |f| == r.offset;
  }

  /** A worker that starts with the offset of the record cut short keeps only so many bytes of the recorded file. */
  lemma CutRecordLoses(kind: Kind, w: World, l: Ledger, cut: nat)
    requires Refines(kind, w, l) && l.active && l.pending == [] && 0 < cut < w.last.offset && l.txid > 0
    ensures var w1 := Create(w).(offset := 0, last := w.last.(offset := cut), index := Some(w.last.(offset := cut)));
            BeginCommit(kind, w1, l.txid).1
            && |Survivors(BeginCommit(kind, w1, l.txid).0)| == |Flatten(l.closed)| - (w.last.offset - cut)
  {
    var r := w.last;
    var w1 := Create(w).(offset := 0, last := r.(offset := cut), index := Some(r.(offset := cut)));
    var w2 := BeginCommit(kind, w1, l.txid).0;
    assert w2.files == (w.files[w.next := []][w.next + 1 := w.files[r.file][..cut]]) - {r.file};
    assert w2.next == w.next + 2;
    CutContents(w, l, cut);
  }

  /** A death inside the offset digits, with no other line to read: the worker starts, and committed bytes are gone. */
  lemma {:induction false} DeathInsideOffset(kind: Kind, w: World, d: Disk, l: Ledger, t: nat, n: nat)
    requires Fine(kind, w, d, l) && Allowed(l, Begin(t)) && CounterFresh(kind, w, Begin(t)) && d.index.None?
    requires OffsetStart(NewEntry(kind, w, t)) < n < |NewEntry(kind, w, t).Print()|
    ensures var e := NewEntry(kind, w, t);
            var w1 := Step(kind, w, d, DiesInUpdate(t, Torn(n))).0;
            var closed := LedgerStep(l, Begin(t)).closed;
            BeginCommit(kind, w1, t).1
            && |Survivors(BeginCommit(kind, w1, t).0)| == |Flatten(closed)| - (e.offset - CutOffset(e, n)) < |Flatten(closed)|
  {
    var (e, w2, l2) := (NewEntry(kind, w, t), BeginCommit(kind, w, t).0, LedgerStep(l, Begin(t)));
    BeginWorks(kind, w, d, l, t);
    BeginFine(kind, w, d, l, t, AfterRename);
    BeginIsRecoverAndUpdate(kind, w, t);
    CutOffsetIff(e, n);
    CutStart(kind, w, d, t, n);
    CutRecordLoses(kind, w2, l2, CutOffset(e, n));
  }

  lemma CutStart(kind: Kind, w: World, d: Disk, t: nat, n: nat)
    requires BeginCommit(kind, w, t).1 && d.index.None? && t > 0
    requires OffsetStart(NewEntry(kind, w, t)) < n
    ensures var w2 := BeginCommit(kind, w, t).0;
            var r := w2.last.(offset := CutOffset(NewEntry(kind, w, t), n));
            Step(kind, w, d, DiesInUpdate(t, Torn(n))).0 == Create(w2).(offset := 0, last := r, index := Some(r))
  {
    var (e, w2) := (NewEntry(kind, w, t), BeginCommit(kind, w, t).0);
    BeginIsRecoverAndUpdate(kind, w, t);
    TornOutcome(e, n, Decimal(0));
    ParseDecimal(w2.last.file);
  }

  lemma TornUnreadable(kind: Kind, w: World, d: Disk, t: nat, n: nat)
    requires BeginCommit(kind, w, t).1 && d.index.None? && 0 < n <= OffsetStart(NewEntry(kind, w, t))
    ensures GetTxnRecord(Step(kind, w, d, DiesInUpdate(t, Torn(n))).1, []) == Unreadable
  {
    BeginIsRecoverAndUpdate(kind, w, t);
    TornOutcome(NewEntry(kind, w, t), n, []);
  }

  /**
   * The guard is exact, for every point and every number of characters written: after a death inside the
   * update for transaction `t` the next worker starts, and its `beginCommit` leaves exactly the closed
   * batches, iff the death was survivable.
   */
  lemma SurvivableIff(kind: Kind, w: World, d: Disk, l: Ledger, t: nat, p: Point)
    requires Fine(kind, w, d, l) && Allowed(l, Begin(t)) && CounterFresh(kind, w, Begin(t))
    ensures var (w1, d1) := Step(kind, w, d, DiesInUpdate(t, p));
            GoesOn(kind, w1, d1, LedgerStep(l, Begin(t)).closed, t) <==> Survivable(kind, w, d, t, p)
  {
    BeginWorks(kind, w, d, l, t);
    if Survivable(kind, w, d, t, p) {
      SurvivedGoesOn(kind, w, d, l, t, p);
    } else if !TornAlone(d, p) {
      RelatedIndex(kind, w, d, l);
      RecoveredFileMissed(kind, w, d, l, t, p);
    } else if p.written <= OffsetStart(NewEntry(kind, w, t)) {
      TornUnreadable(kind, w, d, t, p.written);
    } else {
      DeathInsideOffset(kind, w, d, l, t, p.written);
    }
  }

  // ---------- the deaths that are not, from the start ----------

  /** One transaction is committed, and the next dies right after the delete. */
  function CommittedThenDeath(bytes: seq<byte>): seq<Happening> {
    [Whole(Begin(1)), Whole(Write([bytes], |bytes|)), Whole(Commit(false)), DiesInUpdate(2, AfterDelete)]
  }

  lemma OneMore(kind: Kind, hs: seq<Happening>, h: Happening)
    ensures Run(kind, hs + [h]) == After(kind, Run(kind, hs), h)
  {
    assert (hs + [h])[..|hs|] == hs;
  }

  /** A legal run that has reached this world and this ledger. */
  ghost predicate Reached(o: Outcome, w: World, l: Ledger) {
    o.legal && o.w == w && o.l == l
  }

  /** The worlds of the first transaction: what file 0 holds and what the worker counted. */
  function FirstWorld(bytes: seq<byte>): World {
    World(map[0 := bytes], 1, Some(TxnRecord(1, 0, 0)), 0, |bytes|, TxnRecord(1, 0, 0))
  }

  lemma FirstBegun(kind: Kind)
    ensures Reached(After(kind, Run(kind, []), Whole(Begin(1))), FirstWorld([]), Ledger([], 1, [], true, false))
  {
  }

  lemma FirstWritten(kind: Kind, o: Outcome, bytes: seq<byte>)
    requires Reached(o, FirstWorld([]), Ledger([], 1, [], true, false))
    ensures Reached(After(kind, o, Whole(Write([bytes], |bytes|))), FirstWorld(bytes), Ledger([], 1, bytes, true, false))
  {
    ExecuteAppends(o.w, [bytes], |bytes|);
    assert Join([bytes][1..]) == [];
    assert Join([bytes]) == bytes && bytes[..|bytes|] == bytes;
    assert [] + bytes == bytes;
  }

  lemma FirstCommitted(kind: Kind, bytes: seq<byte>)
    ensures Reached(Run(kind, [Whole(Begin(1)), Whole(Write([bytes], |bytes|)), Whole(Commit(false))]),
                    FirstWorld(bytes), Ledger([], 1, bytes, false, true))
  {
    var (b, w, c) := (Whole(Begin(1)), Whole(Write([bytes], |bytes|)), Whole(Commit(false)));
    assert [] + [b] == [b] && [b] + [w] == [b, w] && [b, w] + [c] == [b, w, c];
    OneMore(kind, [], b);
    OneMore(kind, [b], w);
    OneMore(kind, [b, w], c);
    FirstBegun(kind);
    FirstWritten(kind, Run(kind, [b]), bytes);
  }

  /** The world, the record and the batches after that death. */
  ghost predicate Died(o: Outcome, bytes: seq<byte>) {
    var r := TxnRecord(2, 0, |bytes|);
    && o.legal && o.w == World(map[0 := bytes, 1 := []], 2, Some(r), 1, 0, r)
    && o.d.index.None? && o.l == Ledger([Batch(1, bytes)], 2, [], false, false)
  }

  lemma SecondDies(kind: Kind, o: Outcome, bytes: seq<byte>)
    requires Reached(o, FirstWorld(bytes), Ledger([], 1, bytes, false, true))
    ensures Died(After(kind, o, DiesInUpdate(2, AfterDelete)), bytes)
  {
    var r := TxnRecord(2, 0, |bytes|);
    assert UpdateIndex(kind, o.w, 2).last == r;
    NewGives(o.d, r, AfterDelete);
    ReadsWhatIsGiven(DiskAt(o.d, EntryOf(r), AfterDelete), Some(r));
  }

  lemma DiedAfterDelete(kind: Kind, bytes: seq<byte>)
    ensures var o := Run(kind, CommittedThenDeath(bytes)); Died(o, bytes) && Flatten(o.l.closed) == bytes
  {
    var hs := [Whole(Begin(1)), Whole(Write([bytes], |bytes|)), Whole(Commit(false))];
    var h := DiesInUpdate(2, AfterDelete);
    FirstCommitted(kind, bytes);
    OneMore(kind, hs, h);
    assert hs + [h] == CommittedThenDeath(bytes);
    SecondDies(kind, Run(kind, hs), bytes);
    assert [Batch(1, bytes)][..0] == [] && [] + bytes == bytes;
  }

  lemma AllButLastDigit(e: Entry)
    requires e.offset >= 10
    ensures OffsetStart(e) < |e.Print()| - 1 && CutOffset(e, |e.Print()| - 1) == e.offset / 10
  {
    var s := Decimal(e.offset);
    assert s == Decimal(e.offset / 10) + [Digit(e.offset % 10)];
    assert s[..|s| - 1] == Decimal(e.offset / 10);
    DecimalValue(e.offset / 10);
  }

  lemma NextOffset(kind: Kind, o: Outcome, bytes: seq<byte>)
    requires Died(o, bytes) && bytes != []
    ensures NewEntry(kind, o.w, 2).offset == |bytes|
  {
    assert Recovered(o.w, 2).0.files[2] == bytes[..|bytes|] == bytes;
  }

  /** The number of characters up to the last digit of the offset. */
  function BeforeLastDigit(kind: Kind, o: Outcome): nat {
    |NewEntry(kind, o.w, 2).Print()| - 1
  }

  lemma DiedGoesOn(kind: Kind, o: Outcome, bytes: seq<byte>)
    requires Died(o, bytes)
    ensures Allowed(o.l, Begin(2)) && CounterFresh(kind, o.w, Begin(2)) && LedgerStep(o.l, Begin(2)).closed == o.l.closed
  {
  }

  /** The worker after that death starts, and its `beginCommit` leaves this many bytes. */
  ghost predicate Leaves(kind: Kind, w: World, t: nat, bytes: nat) {
    BeginCommit(kind, w, t).1 && |Survivors(BeginCommit(kind, w, t).0)| == bytes
  }

  lemma {:induction false} LosesAt(kind: Kind, o: Outcome, bytes: seq<byte>, n: nat, cut: nat)
    requires Died(o, bytes) && Fine(kind, o.w, o.d, o.l) && Flatten(o.l.closed) == bytes
    requires var e := NewEntry(kind, o.w, 2);
             e.offset == |bytes| && OffsetStart(e) < n < |e.Print()| && CutOffset(e, n) == cut
    ensures Leaves(kind, Step(kind, o.w, o.d, DiesInUpdate(2, Torn(n))).0, 2, cut)
  {
    DiedGoesOn(kind, o, bytes);
    DeathInsideOffset(kind, o.w, o.d, o.l, 2, n);
  }

  /**
   * From the start: after the death above, the next attempt dies before the last digit of the offset. The
   * worker that follows starts without complaint and keeps a tenth of the committed bytes.
   */
  lemma CommittedBytesLost(kind: Kind, bytes: seq<byte>)
    requires |bytes| >= 10
    ensures var o := Run(kind, CommittedThenDeath(bytes));
            o.legal && Flatten(o.l.closed) == bytes
            && Leaves(kind, Step(kind, o.w, o.d, DiesInUpdate(2, Torn(BeforeLastDigit(kind, o)))).0, 2, |bytes| / 10)
  {
    var o := Run(kind, CommittedThenDeath(bytes));
    DiedAfterDelete(kind, bytes);
    RunFine(kind, CommittedThenDeath(bytes));
    NextOffset(kind, o, bytes);
    AllButLastDigit(NewEntry(kind, o.w, 2));
    LosesAt(kind, o, bytes, BeforeLastDigit(kind, o), |bytes| / 10);
  }

  /** From the start: a worker that dies between `recover` and the index update stops the transaction for good. */
  lemma {:induction false} RecoveredFileMissedReached(kind: Kind, bytes: seq<byte>)
    requires bytes != []
    ensures var o := Run(kind, CommittedThenDeath(bytes));
            o.legal && !BeginCommit(kind, Step(kind, o.w, o.d, DiesInUpdate(2, BeforeCreate)).0, 2).1
  {
    DiedAfterDelete(kind, bytes);
    var o := Run(kind, CommittedThenDeath(bytes));
    RunFine(kind, CommittedThenDeath(bytes));
    RecoveredFileMissed(kind, o.w, o.d, o.l, 2, BeforeCreate);
  }
}
