/** The Trident state in the code's own form: fields updated step by step over a shared file system. */
module HdfsStateClass {
  import opened Common
  import opened TridentWorld
  import TridentExactlyOnce

  /** The part of the world that outlives a worker. */
  class FileSystem {
    var files: map<nat, seq<byte>>
    var next: nat
    var index: Option<TxnRecord>

    constructor ()
      ensures files == map[] && next == 0 && index == None
    {
      files, next, index := map[], 0, None;
    }

    method CreateFile() returns (id: nat)
      modifies this
      ensures id == old(next) && next == old(next) + 1
      ensures files == old(files)[id := []] && index == old(index)
    {
      id := next;
      files, next := files[id := []], next + 1;
    }
  }

  /**
   * Copies at most `bytesToCopy` bytes. A read returns between one byte and a full buffer and the loop
   * tests the budget only after reading; the result does not depend on how the reads fall.
   */
  method CopyBytes(src: seq<byte>, bytesToCopy: nat, bufferSize: nat) returns (out: seq<byte>)
    requires 1 <= bufferSize
    ensures out == src[..Min(bytesToCopy, |src|)]
  {
    out := [];
    var pos, left: int := 0, bytesToCopy;
    while true
      invariant 0 <= pos <= |src|
      invariant left == bytesToCopy - pos
      invariant out == src[..Min(bytesToCopy, pos)]
      decreases |src| - pos
    {
      if pos == |src| { break; }
      var most := Min(bufferSize, |src| - pos);
      var n :| 1 <= n <= most;
      var buf := src[pos..pos + n];
      pos := pos + n;
      if left <= 0 { break; }
      out := out + buf[..Min(n, left)];
      left := left - n;
    }
  }

  class HdfsState {
    const kind: Kind
    const fs: FileSystem
    const bufferSize: nat
    var currentFile: nat
    var rotation: nat
    var offset: nat
    var lastSeenTxn: TxnRecord

    ghost function View(): World
      reads this, fs
    {
      World(fs.files, fs.next, fs.index, currentFile, offset, lastSeenTxn)
    }

    ghost predicate Valid()
      reads this, fs
    {
      1 <= bufferSize && currentFile in fs.files && forall id :: id in fs.files ==> id < fs.next
    }

    /** `prepare`: a worker starts on what the previous one left. */
    constructor (kind: Kind, fs: FileSystem, bufferSize: nat)
      requires 1 <= bufferSize
      requires forall id :: id in fs.files ==> id < fs.next
      modifies fs
      ensures Valid() && this.kind == kind && this.fs == fs && this.bufferSize == bufferSize
      ensures View() == Prepare(World(old(fs.files), old(fs.next), old(fs.index), 0, 0, TxnRecord(0, 0, 0)))
      ensures currentFile == old(fs.next) && fs.files == old(fs.files)[currentFile := []] && offset == 0
      ensures fs.index == old(fs.index)
      ensures lastSeenTxn == if fs.index.Some? then fs.index.value else TxnRecord(0, currentFile, 0)
    {
      this.kind, this.fs, this.bufferSize, rotation, offset := kind, fs, bufferSize, 0, 0;
      new;
      currentFile := fs.CreateFile();
      lastSeenTxn := if fs.index.Some? then fs.index.value else TxnRecord(0, currentFile, 0);
    }

    method RotateOutputFile()
      requires Valid()
      modifies this, fs
      ensures Valid() && View() == Create(old(View()))
      ensures currentFile == old(fs.next) && fs.next == old(fs.next) + 1
      ensures fs.files == old(fs.files)[currentFile := []] && fs.index == old(fs.index)
      ensures offset == old(offset) && lastSeenTxn == old(lastSeenTxn)
    {
      rotation := rotation + 1;
      currentFile := fs.CreateFile();
    }

    method DoRecover(src: nat, nBytes: nat) returns (ok: bool)
      requires Valid() && src != currentFile
      modifies this, fs
      ensures Valid() && ok == (src in old(fs.files))
      ensures View() == old(View()).(
                offset := if ok then nBytes else 0,
                files := if ok then old(fs.files)[currentFile := old(fs.files)[src][..Min(nBytes, |old(fs.files)[src]|)]]
                         else old(fs.files))
    {
      offset := 0;
      if src !in fs.files { return false; }
      var copied := CopyBytes(fs.files[src], nBytes, bufferSize);
      fs.files := fs.files[currentFile := copied];
      offset := nBytes;
      ok := true;
    }

    method RecoverFile(src: nat, nBytes: nat) returns (ok: bool)
      requires Valid() && src < fs.next
      modifies this, fs
      ensures (View(), ok) == Recover(old(View()), src, nBytes)
      ensures ok ==> Valid()
      ensures ok <==> nBytes == 0 || src in old(fs.files)
      ensures currentFile == old(fs.next) && fs.index == old(fs.index) && lastSeenTxn == old(lastSeenTxn)
      ensures ok ==>
        var kept := if nBytes == 0 then [] else old(fs.files)[src][..Min(nBytes, |old(fs.files)[src]|)];
        fs.files == old(fs.files)[currentFile := kept] - {src}
        && offset == if nBytes == 0 then old(offset) else nBytes
    {
      RotateOutputFile();
      ok := true;
      if nBytes > 0 {
        ok := DoRecover(src, nBytes);
        if !ok { return; }
      }
      fs.files := fs.files - {src};
    }

    method UpdateIndex(txid: nat)
      requires Valid()
      modifies this, fs
      ensures Valid() && View() == TridentWorld.UpdateIndex(kind, old(View()), txid)
      ensures lastSeenTxn == TxnRecord(txid, currentFile, if kind.SequenceFile? then |fs.files[currentFile]| else offset)
      ensures fs.index == Some(lastSeenTxn)
      ensures fs.files == old(fs.files) && currentFile == old(currentFile) && offset == old(offset)
    {
      var here := if kind.SequenceFile? then |fs.files[currentFile]| else offset;
      var r := TxnRecord(txid, currentFile, here);
      fs.index := Some(r);
      lastSeenTxn := r;
    }

    method BeginCommit(txid: nat) returns (ok: bool)
      requires Valid() && lastSeenTxn.file < fs.next
      modifies this, fs
      ensures (View(), ok) == TridentWorld.BeginCommit(kind, old(View()), txid)
      ensures ok ==> Valid() && lastSeenTxn.file < fs.next
      ensures txid > old(lastSeenTxn.txnid) ==> ok && currentFile == old(currentFile) && fs.files == old(fs.files)
      ensures txid <= old(lastSeenTxn.txnid) ==>
        currentFile == old(fs.next) && (ok ==> old(lastSeenTxn.file) !in fs.files)
      ensures ok ==> lastSeenTxn.txnid == txid && lastSeenTxn.file == currentFile && fs.index == Some(lastSeenTxn)
      ensures !ok ==> lastSeenTxn == old(lastSeenTxn) && fs.index == old(fs.index)
    {
      if txid <= lastSeenTxn.txnid {
        ok := RecoverFile(lastSeenTxn.file, lastSeenTxn.offset);
        if !ok { return; }
      }
      UpdateIndex(txid);
      ok := true;
    }

    /** `updateState`; the file system takes `capacity` bytes and then throws. */
    method UpdateState(tuples: seq<seq<byte>>, capacity: nat) returns (ok: bool)
      requires Valid()
      modifies this, fs
      ensures Valid() && (View(), ok) == Execute(old(View()), tuples, capacity)
      ensures lastSeenTxn == old(lastSeenTxn)
      ensures currentFile == old(currentFile) && fs.index == old(fs.index)
      ensures var all := TridentExactlyOnce.Join(tuples);
              && ok == (|all| <= capacity)
              && fs.files == old(fs.files[currentFile := fs.files[currentFile] + all[..Min(capacity, |all|)]])
              && (ok ==> offset == old(offset) + |all|)
    {
      TridentExactlyOnce.ExecuteAppends(View(), tuples, capacity);
      var i, room := 0, capacity;
      while i < |tuples|
        invariant 0 <= i <= |tuples| && 0 <= room
        invariant Valid() && lastSeenTxn == old(lastSeenTxn)
        invariant Execute(View(), tuples[i..], room) == Execute(old(View()), tuples, capacity)
      {
        var bytes := tuples[i];
        assert tuples[i..][1..] == tuples[i + 1..];
        if |bytes| > room {
          fs.files := fs.files[currentFile := fs.files[currentFile] + bytes[..room]];
          return false;
        }
        fs.files := fs.files[currentFile := fs.files[currentFile] + bytes];
        offset := offset + |bytes|;
        i, room := i + 1, room - |bytes|;
      }
      ok := true;
    }

    method DoCommit(rotate: bool)
      requires Valid()
      modifies this, fs
      ensures Valid() && View() == TridentWorld.Commit(old(View()), rotate)
      ensures lastSeenTxn == old(lastSeenTxn) && fs.index == old(fs.index)
      ensures rotate ==>
        currentFile == old(fs.next) && fs.files == old(fs.files)[old(fs.next) := []]
        && fs.next == old(fs.next) + 1 && offset == 0
      ensures !rotate ==>
        currentFile == old(currentFile) && fs.files == old(fs.files) && fs.next == old(fs.next) && offset == old(offset)
    {
      if rotate {
        RotateOutputFile();
        offset := 0;
      }
    }
  }
}
