/** Consecutive jobs of the Kafka loader over one partition, with the offsets kept in ZooKeeper. */
module KafkaOffsets {
  import opened Common

  /** The offsets of the partition's messages in log order. Compaction may leave gaps between them. */
  type Log = seq<int>

  ghost predicate Ascending(log: Log) {
    forall i, j :: 0 <= i < j < |log| ==> log[i] < log[j]
  }

  /** How many messages lie below an offset: where reading from that offset begins. */
  function Position(log: Log, from: int): (p: nat)
    ensures p <= |log|
  {
    if log == [] || log[|log| - 1] < from then |log| else Position(log[..|log| - 1], from)
  }

  lemma {:induction false} PositionSplits(log: Log, from: int, i: nat)
    requires Ascending(log) && i < |log|
    ensures log[i] < from <==> i < Position(log, from)
  {
    if log[|log| - 1] >= from && i < |log| - 1 {
      PositionSplits(log[..|log| - 1], from, i);
    }
  }

  lemma PositionIs(log: Log, from: int, p: nat)
    requires Ascending(log) && p <= |log|
    requires p > 0 ==> log[p - 1] < from
    requires p < |log| ==> from <= log[p]
    ensures Position(log, from) == p
  {
    var q := Position(log, from);
    if q < p {
      PositionSplits(log, from, p - 1);
    } else if q > p {
      PositionSplits(log, from, p);
    }
  }

  /** The broker's answer to a fetch: a stretch of the log, possibly empty, or an error code. */
  datatype Response = OutOfRange | FetchError | Batch(lo: nat, hi: nat)

  /** Where to read from next, the undelivered part of the last fetch (`None`: fetch again), what was delivered. */
  datatype Reader = Reader(next: int, buffered: Option<seq<int>>, read: seq<int>)

  datatype Reset = Watermark | Earliest | Latest

  /** Offset 0 cannot be asked for, so the earliest offset is asked for in its place. */
  function ResetTo(offset: nat, earliest: nat): nat {
    if offset == 0 then earliest else offset
  }

  function Open(start: int, reset: Reset, earliest: nat, latest: nat): Reader {
    var next :=
      if reset == Earliest || (reset == Watermark && start < earliest) then ResetTo(earliest, earliest)
      else if reset == Latest then ResetTo(latest, earliest)
      else start;
    Reader(next, None, [])
  }

  function Deliver(r: Reader, rest: seq<int>): Reader
    requires rest != []
  {
    Reader(rest[0] + 1, if |rest| == 1 then None else Some(rest[1..]), r.read + [rest[0]])
  }

  predicate InLog(log: Log, a: Response) { a.Batch? ==> a.lo <= a.hi <= |log| }

  /** After an answer without messages nothing is delivered any more: `Some([])`. */
  function Next(log: Log, r: Reader, answer: Response): Reader
    requires InLog(log, answer)
  {
    var rest := match r.buffered
                case Some(b) => b
                case None => if answer.Batch? then log[answer.lo..answer.hi] else [];
    if rest == [] then r.(buffered := Some([])) else Deliver(r, rest)
  }

  function ReadAll(log: Log, r: Reader, answers: seq<Response>): Reader
    requires forall a :: a in answers ==> InLog(log, a)
  {
    if answers == [] then r
    else Next(log, ReadAll(log, r, answers[..|answers| - 1]), answers[|answers| - 1])
  }

  /** A job that read nothing commits nothing. */
  function Committed(last: int, r: Reader): int {
    if r.read == [] then last else r.next - 1
  }

  /** The stored last consumed offset, -1 before the first commit, and everything successful jobs delivered. */
  datatype Store = Store(last: int, delivered: seq<int>)

  /**
   * How a job ends for the partition. Closing the reader commits, whatever becomes of the job afterwards:
   * `Died` never closed it, `Discarded` closed it and failed later, so that the output is thrown away.
   */
  datatype Ending = Died | Discarded | Kept

  datatype Job = Job(reset: Reset, earliest: nat, latest: nat, answers: seq<Response>, ending: Ending)

  ghost predicate JobInLog(log: Log, j: Job) { forall a :: a in j.answers ==> InLog(log, a) }

  ghost function Finished(log: Log, s: Store, j: Job): Reader
    requires JobInLog(log, j)
  {
    ReadAll(log, Open(s.last + 1, j.reset, j.earliest, j.latest), j.answers)
  }

  ghost function RunJob(log: Log, s: Store, j: Job): Store
    requires JobInLog(log, j)
  {
    var r := Finished(log, s, j);
    match j.ending
    case Died => s
    case Discarded => s.(last := Committed(s.last, r))
    case Kept => Store(Committed(s.last, r), s.delivered + r.read)
  }

  ghost function RunJobs(log: Log, jobs: seq<Job>): Store
    requires forall j :: j in jobs ==> JobInLog(log, j)
  {
    if jobs == [] then Store(-1, []) else RunJob(log, RunJobs(log, jobs[..|jobs| - 1]), jobs[|jobs| - 1])
  }

  /** A fetch answers from the offset asked for on. A compressed message set comes whole and may begin earlier. */
  predicate Aligned(log: Log, r: Reader, a: Response) {
    r.buffered == None && a.Batch? && a.lo < a.hi ==> a.lo == Position(log, r.next)
  }

  ghost predicate AllAligned(log: Log, r: Reader, answers: seq<Response>)
    requires forall a :: a in answers ==> InLog(log, a)
  {
    forall i :: 0 <= i < |answers| ==> Aligned(log, ReadAll(log, r, answers[..i]), answers[i])
  }

  /** The reader that began at position `p` has delivered the log from there on, and goes on where it stopped. */
  ghost predicate Contiguous(log: Log, p: nat, r: Reader) {
    var q := p + |r.read|;
    q <= |log| && r.read == log[p..q] && Position(log, r.next) == q
    && (r.buffered.Some? ==> q + |r.buffered.value| <= |log| && r.buffered.value == log[q..q + |r.buffered.value|])
  }

  lemma DeliverKeeps(log: Log, p: nat, r: Reader, hi: nat)
    requires Ascending(log) && Contiguous(log, p, r) && p + |r.read| < hi <= |log|
    ensures Contiguous(log, p, Deliver(r, log[p + |r.read|..hi]))
  {
    var q := p + |r.read|;
    PositionIs(log, log[q] + 1, q + 1);
  }

  /** One call of `nextKeyValue` that has to fetch goes on without gap or repetition iff the answer is aligned. */
  lemma FetchContiguousIff(log: Log, p: nat, r: Reader, a: Response)
    requires Ascending(log) && Contiguous(log, p, r) && InLog(log, a)
    ensures Contiguous(log, p, Next(log, r, a)) <==> Aligned(log, r, a)
  {
    var q := p + |r.read|;
    if r.buffered.Some? {
      if r.buffered.value != [] { DeliverKeeps(log, p, r, q + |r.buffered.value|); }
    } else if a.Batch? && a.lo < a.hi {
      if a.lo == q {
        DeliverKeeps(log, p, r, a.hi);
      } else {
        assert Next(log, r, a).read[|r.read|] == log[a.lo];
        if q < |log| { assert log[p..q + 1][|r.read|] == log[q] != log[a.lo]; }
      }
    }
  }

  lemma {:induction false} ReadingContiguous(log: Log, p: nat, r: Reader, answers: seq<Response>)
    requires Ascending(log) && Contiguous(log, p, r)
    requires forall a :: a in answers ==> InLog(log, a)
    requires AllAligned(log, r, answers)
    ensures Contiguous(log, p, ReadAll(log, r, answers))
  {
    if answers != [] {
      var n := |answers| - 1;
      var before := answers[..n];
      forall i | 0 <= i < n ensures Aligned(log, ReadAll(log, r, before[..i]), before[i]) {
        assert before[..i] == answers[..i];
      }
      ReadingContiguous(log, p, r, before);
      FetchContiguousIff(log, p, ReadAll(log, r, before), answers[n]);
    }
  }

  /** Exactly the log up to the checkpoint has been delivered. */
  ghost predicate Exact(log: Log, s: Store) {
    s.delivered == log[..Position(log, s.last + 1)]
  }

  /** No message that is still to be read has been removed by retention. */
  predicate NothingLost(log: Log, s: Store, j: Job) {
    Position(log, j.earliest) <= Position(log, s.last + 1)
  }

  ghost predicate Ordinary(log: Log, s: Store, j: Job)
    requires JobInLog(log, j)
  {
    j.reset == Watermark && AllAligned(log, Open(s.last + 1, j.reset, j.earliest, j.latest), j.answers)
  }

  lemma PositionGrows(log: Log, a: int, b: int)
    requires Ascending(log) && a <= b
    ensures Position(log, a) <= Position(log, b)
  {
    var p := Position(log, a);
    if p > 0 {
      PositionSplits(log, a, p - 1);
      PositionSplits(log, b, p - 1);
    }
  }

  /** What the mode asks for: the earliest offset, the latest one, or the watermark unless that has been deleted. */
  function FirstOffset(s: Store, j: Job): int {
    match j.reset
    case Earliest => j.earliest
    case Latest => if j.latest == 0 then j.earliest else j.latest
    case Watermark => if s.last + 1 < j.earliest then j.earliest else s.last + 1
  }

  lemma OpensAt(s: Store, j: Job)
    ensures Open(s.last + 1, j.reset, j.earliest, j.latest) == Reader(FirstOffset(s, j), None, [])
  {
  }

  lemma NothingRead(log: Log, next: int)
    ensures Contiguous(log, Position(log, next), Reader(next, None, []))
  {
  }

  /** In every mode a job with aligned fetches delivers the log from the offset the mode asks for on, without gaps. */
  lemma EveryModeReads(log: Log, s: Store, j: Job)
    requires Ascending(log) && JobInLog(log, j)
    requires AllAligned(log, Open(s.last + 1, j.reset, j.earliest, j.latest), j.answers)
    ensures Contiguous(log, Position(log, FirstOffset(s, j)), Finished(log, s, j))
  {
    OpensAt(s, j);
    var begin := Reader(FirstOffset(s, j), None, []);
    NothingRead(log, begin.next);
    ReadingContiguous(log, Position(log, begin.next), begin, j.answers);
  }

  /** Reading begins with the first message at or above the offset asked for. */
  lemma BelowPosition(log: Log, from: int)
    requires Ascending(log)
    ensures var p := Position(log, from); (p > 0 ==> log[p - 1] < from) && (p < |log| ==> from <= log[p])
  {
    var p := Position(log, from);
    if p > 0 { PositionSplits(log, from, p - 1); }
    if p < |log| { PositionSplits(log, from, p); }
  }

  /** Reading moves the checkpoint past whatever was read. */
  lemma CheckpointAfter(log: Log, start: nat, r: Reader, last: int)
    requires Contiguous(log, start, r) && r.read != []
    ensures start < start + |r.read| <= |log| && r.read == log[start..start + |r.read|]
    ensures Position(log, Committed(last, r) + 1) == start + |r.read|
  {
  }

  /**
   * A job in watermark mode keeps the delivered offsets exact iff it never closed the reader, or read
   * nothing, or kept its output with nothing lost to retention. A job that closed the reader and failed
   * afterwards has moved the checkpoint past messages nobody will read again.
   */
  lemma JobExactIff(log: Log, s: Store, j: Job)
    requires Ascending(log) && JobInLog(log, j) && Ordinary(log, s, j) && Exact(log, s)
    ensures Exact(log, RunJob(log, s, j))
            <==> j.ending.Died? || Finished(log, s, j).read == [] || (j.ending.Kept? && NothingLost(log, s, j))
  {
    var r := Finished(log, s, j);
    if r.read == [] {
      assert s.delivered + r.read == s.delivered;
    } else {
      EveryModeReads(log, s, j);
      LaterStart(log, s, j);
      EndingIff(log, s, Position(log, FirstOffset(s, j)), r);
    }
  }

  /** Moving the checkpoint without the output is never exact, moving it with the output iff that joins on. */
  lemma EndingIff(log: Log, s: Store, start: nat, r: Reader)
    requires Exact(log, s) && Contiguous(log, start, r) && r.read != [] && Position(log, s.last + 1) <= start
    ensures !Exact(log, Store(Committed(s.last, r), s.delivered))
    ensures Exact(log, Store(Committed(s.last, r), s.delivered + r.read)) <==> start == Position(log, s.last + 1)
  {
    CheckpointAfter(log, start, r, s.last);
    JoinedIff(log, Position(log, s.last + 1), start, start + |r.read|);
  }

  lemma LaterStart(log: Log, s: Store, j: Job)
    requires Ascending(log) && j.reset == Watermark
    ensures Position(log, s.last + 1) <= Position(log, FirstOffset(s, j))
    ensures Position(log, s.last + 1) == Position(log, FirstOffset(s, j)) <==> NothingLost(log, s, j)
  {
    if s.last + 1 < j.earliest {
      PositionGrows(log, s.last + 1, j.earliest);
    } else {
      PositionGrows(log, j.earliest, s.last + 1);
    }
  }

  lemma JoinedIff(log: Log, p: nat, start: nat, q: nat)
    requires p <= start < q <= |log|
    ensures log[..p] + log[start..q] == log[..q] <==> start == p
    ensures log[..p] != log[..q]
  {
    assert |log[..p] + log[start..q]| == p + q - start;
    assert log[..p] + log[p..q] == log[..q];
  }

  /**
   * Every job reads from the watermark on with aligned fetches; one that keeps its output lost nothing to
   * retention, and one that fails does so before closing the reader, or with nothing read.
   */
  ghost predicate OrdinaryRun(log: Log, jobs: seq<Job>)
    requires forall j :: j in jobs ==> JobInLog(log, j)
  {
    forall i :: 0 <= i < |jobs| ==> Harmless(log, RunJobs(log, jobs[..i]), jobs[i])
  }

  ghost predicate Harmless(log: Log, s: Store, j: Job)
    requires JobInLog(log, j)
  {
    && Ordinary(log, s, j)
    && (j.ending.Kept? ==> NothingLost(log, s, j))
    && (j.ending.Discarded? ==> Finished(log, s, j).read == [])
  }

  /**
   * Consecutive jobs: over any sequence of such jobs, dead ones, empty ones and ones that stop in the middle
   * of a fetch included, the successful ones together deliver the log up to the checkpoint, each offset once.
   */
  lemma {:induction false} ConsecutiveJobs(log: Log, jobs: seq<Job>)
    requires Ascending(log) && forall i :: 0 <= i < |log| ==> log[i] >= 0
    requires forall j :: j in jobs ==> JobInLog(log, j)
    requires OrdinaryRun(log, jobs)
    ensures Exact(log, RunJobs(log, jobs))
  {
    if jobs == [] {
      PositionIs(log, 0, 0);
    } else {
      var n := |jobs| - 1;
      var before := jobs[..n];
      forall i | 0 <= i < n ensures Harmless(log, RunJobs(log, before[..i]), before[i]) {
        assert before[..i] == jobs[..i];
      }
      ConsecutiveJobs(log, before);
      JobExactIff(log, RunJobs(log, before), jobs[n]);
    }
  }

  const LOST_LOG: Log := [0]

  /** One message, read by a job that closes its reader and then fails; the next job finds nothing to read. */
  lemma ClosedThenFailedLoses()
    ensures var first := Job(Watermark, 0, 1, [Batch(0, 1)], Discarded);
            var second := Job(Watermark, 0, 1, [Batch(1, 1)], Kept);
            Ascending(LOST_LOG) && JobInLog(LOST_LOG, first) && JobInLog(LOST_LOG, second)
            && RunJobs(LOST_LOG, [first, second]) == Store(0, [])
  {
    var first := Job(Watermark, 0, 1, [Batch(0, 1)], Discarded);
    var second := Job(Watermark, 0, 1, [Batch(1, 1)], Kept);
    OneCall(LOST_LOG, Reader(0, None, []), Batch(0, 1));
    OneCall(LOST_LOG, Reader(1, None, []), Batch(1, 1));
    assert [first, second][..1] == [first] && [first][..0] == [];
    assert RunJobs(LOST_LOG, []) == Store(-1, []);
    assert RunJobs(LOST_LOG, [first]) == Store(0, []);
  }

  const WHOLE_LOG: Log := [0, 1, 2]

  /**
   * The messages of one compressed set: a job stops after two of them, and the next one, which asks for the
   * third, is given the set from its beginning.
   */
  lemma MisalignedRepeats()
    ensures var first := Job(Watermark, 0, 3, [Batch(0, 3), Batch(0, 3)], Kept);
            var second := Job(Watermark, 0, 3, [Batch(0, 3)], Kept);
            JobInLog(WHOLE_LOG, first) && JobInLog(WHOLE_LOG, second)
            && RunJobs(WHOLE_LOG, [first, second]).delivered == [0, 1, 0]
  {
    var first := Job(Watermark, 0, 3, [Batch(0, 3), Batch(0, 3)], Kept);
    var second := Job(Watermark, 0, 3, [Batch(0, 3)], Kept);
    var (r0, r2) := (Reader(0, None, []), Reader(2, None, []));
    OneCall(WHOLE_LOG, r0, Batch(0, 3));
    assert first.answers[..1] == [Batch(0, 3)];
    assert WHOLE_LOG[0..3] == [0, 1, 2] && [0, 1, 2][1..] == [1, 2] && [1, 2][1..] == [2];
    assert [] + [0] == [0] && [0] + [1] == [0, 1];
    assert Next(WHOLE_LOG, r0, Batch(0, 3)) == Reader(1, Some([1, 2]), [0]);
    assert Next(WHOLE_LOG, Reader(1, Some([1, 2]), [0]), Batch(0, 3)) == Reader(2, Some([2]), [0, 1]);
    assert Finished(WHOLE_LOG, Store(-1, []), first) == Reader(2, Some([2]), [0, 1]);
    OneCall(WHOLE_LOG, r2, Batch(0, 3));
    assert Next(WHOLE_LOG, r2, Batch(0, 3)) == Reader(1, Some([1, 2]), [0]);
    assert [first, second][..1] == [first] && [first][..0] == [];
    assert RunJobs(WHOLE_LOG, []) == Store(-1, []);
    assert RunJobs(WHOLE_LOG, [first]) == Store(1, [0, 1]);
  }

  lemma OneCall(log: Log, r: Reader, a: Response)
    requires InLog(log, a)
    ensures ReadAll(log, r, [a]) == Next(log, r, a)
  {
    assert [a][..0] == [];
  }

  /** The ZooKeeper node of one group, topic and partition. */
  class CheckpointManager {
    var lastConsumed: Option<int>

    ghost function Last(): int
      reads this
    {
      if lastConsumed.Some? then lastConsumed.value else -1
    }

    constructor ()
      ensures Last() == -1
    {
      lastConsumed := None;
    }

    method GetNextOffsetToConsume() returns (offset: int)
      ensures offset == Last() + 1
    {
      match lastConsumed
      case None => offset := 0;
      case Some(last) => offset := last + 1;
    }

    method CommitOffsets(lastConsumedOffset: int)
      modifies this
      ensures Last() == lastConsumedOffset
    {
      lastConsumed := Some(lastConsumedOffset);
    }
  }

  class KafkaInputRecordReader {
    var nextOffsetToConsume: int
    var messages: Option<seq<int>>
    var numProcessedMessages: nat
    ghost var delivered: seq<int>

    ghost predicate Valid()
      reads this
    {
      numProcessedMessages == |delivered|
    }

    ghost function View(): Reader
      reads this
    {
      Reader(nextOffsetToConsume, messages, delivered)
    }

    constructor Initialize(start: int, reset: Reset, earliest: nat, latest: nat)
      ensures Valid() && View() == Open(start, reset, earliest, latest)
      ensures reset == Earliest ==> nextOffsetToConsume == earliest
      ensures reset == Latest ==> nextOffsetToConsume == if latest == 0 then earliest else latest
      ensures reset == Watermark ==> nextOffsetToConsume == if start < earliest then earliest else start
    {
      nextOffsetToConsume, messages, numProcessedMessages, delivered := start, None, 0, [];
      new;
      match reset
      case Earliest => ResetWatermark(earliest, earliest);
      case Latest => ResetWatermark(latest, earliest);
      case Watermark =>
        if nextOffsetToConsume < earliest { ResetWatermark(earliest, earliest); }
    }

    method ResetWatermark(offset: nat, earliest: nat)
      modifies `nextOffsetToConsume
      ensures nextOffsetToConsume == ResetTo(offset, earliest)
      ensures nextOffsetToConsume == if offset == 0 then earliest else offset
    {
      nextOffsetToConsume := if offset == 0 then earliest else offset;
    }

    /** `answer` is what the broker says should this call have to ask it. */
    method NextKeyValue(log: Log, answer: Response) returns (more: bool, key: int)
      requires Valid() && InLog(log, answer)
      modifies this
      ensures Valid() && View() == Next(log, old(View()), answer)
      ensures more <==> |delivered| > |old(delivered)|
      ensures more ==> delivered == old(delivered) + [key]
      ensures var rest := if old(messages).Some? then old(messages).value
                          else if answer.Batch? then log[answer.lo..answer.hi] else [];
              && more == (rest != [])
              && nextOffsetToConsume == (if more then key + 1 else old(nextOffsetToConsume))
              && (more ==> key == rest[0] && messages == if |rest| == 1 then None else Some(rest[1..]))
    {
      key := 0;
      if messages == None {
        messages := if answer.Batch? then Some(log[answer.lo..answer.hi]) else Some([]);
      }
      var rest := messages.value;
      if rest == [] { return false, key; }
      key := rest[0];
      nextOffsetToConsume := key + 1;
      numProcessedMessages := numProcessedMessages + 1;
      delivered := delivered + [key];
      messages := if |rest| == 1 then None else Some(rest[1..]);
      more := true;
    }

    method Close(zk: CheckpointManager)
      requires Valid()
      modifies zk
      ensures zk.Last() == Committed(old(zk.Last()), View())
      ensures zk.Last() == if delivered == [] then old(zk.Last()) else nextOffsetToConsume - 1
    {
      if numProcessedMessages > 0 { zk.CommitOffsets(nextOffsetToConsume - 1); }
    }
  }
}
