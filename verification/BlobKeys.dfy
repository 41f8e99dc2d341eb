/** The bucketed key directories of the HDFS blob store, their iterator and the periodic cleanup. */
module BlobKeys {
  import opened Common

  const BUCKETS := 1024

  const WORD := 0x1_0000_0000

  /** `String.hashCode`: wraps around in 32 bits, two's complement. */
  function HashCode(key: string): (h: int)
    ensures -WORD / 2 <= h < WORD / 2
  {
    if key == "" then 0
    else Wrap(31 * HashCode(key[..|key| - 1]) + key[|key| - 1] as int)
  }

  function Wrap(n: int): (h: int)
    ensures -WORD / 2 <= h < WORD / 2
  {
    var u := n % WORD;
    if u >= WORD / 2 then u - WORD else u
  }

  /** The absolute value is taken in 64 bits, so the smallest hash is no exception. */
  function Bucket(key: string): (b: nat)
    ensures b < BUCKETS
  {
    var h := HashCode(key);
    (if h < 0 then -h else h) % BUCKETS
  }

  function Power31(n: nat): nat {
    if n == 0 then 1 else 31 * Power31(n - 1)
  }

  /** `s[0] * 31^(n - 1) + s[1] * 31^(n - 2) + ... + s[n - 1]`, as a number. */
  function Polynomial(key: string): nat {
    if key == "" then 0 else key[0] as int * Power31(|key| - 1) + Polynomial(key[1..])
  }

  lemma {:induction false} PolynomialGrows(key: string, c: char)
    ensures Polynomial(key + [c]) == 31 * Polynomial(key) + c as int
  {
    if key == "" {
      assert Power31(0) == 1 && Polynomial([c][1..]) == 0;
      assert "" + [c] == [c];
    } else {
      assert (key + [c])[1..] == key[1..] + [c];
      PolynomialGrows(key[1..], c);
      assert Power31(|key|) == 31 * Power31(|key| - 1);
      assert key[0] as int * (31 * Power31(|key| - 1)) == 31 * (key[0] as int * Power31(|key| - 1));
    }
  }

  lemma WrapIs(n: int)
    ensures exists k :: Wrap(n) == n + k * WORD
  {
    var k := n / WORD;
    assert n == k * WORD + n % WORD;
    assert Wrap(n) == n + (-k) * WORD || Wrap(n) == n + (-k - 1) * WORD;
  }

  /** The hash is the polynomial, up to multiples of 2^32. */
  lemma {:induction false} HashIsPolynomial(key: string) returns (k: int)
    ensures HashCode(key) == Polynomial(key) + k * WORD
  {
    if key == "" {
      k := 0;
    } else {
      var front, c := key[..|key| - 1], key[|key| - 1];
      assert key == front + [c];
      var q := HashIsPolynomial(front);
      var n := 31 * HashCode(front) + c as int;
      PolynomialGrows(front, c);
      WrapIs(n);
      var w :| Wrap(n) == n + w * WORD;
      k := 31 * q + w;
    }
  }

  /** The bucket of a key, from the one 32-bit number that agrees with the polynomial modulo 2^32. */
  lemma BucketIs(key: string, h: int)
    requires -0x8000_0000 <= h < 0x8000_0000 && (h - Polynomial(key)) % 0x1_0000_0000 == 0
    ensures HashCode(key) == h && Bucket(key) == (if h < 0 then -h else h) % 1024
  {
    var k := HashIsPolynomial(key);
    var q := (h - Polynomial(key)) / WORD;
    assert h - Polynomial(key) == q * WORD;
    assert h - HashCode(key) == (q - k) * WORD;
  }

  /** What `listStatus` says of each bucket directory; `None` where there is no such directory. */
  type Listing = seq<Option<seq<string>>>

  function KeysOf(dir: Option<seq<string>>): seq<string> {
    match dir case None => [] case Some(keys) => keys
  }

  function Concatenated(buckets: Listing): seq<string> {
    if buckets == [] then [] else KeysOf(buckets[0]) + Concatenated(buckets[1..])
  }

  /** The keys of the buckets from number `b` on. */
  function From(buckets: Listing, b: nat): seq<string>
    requires b <= |buckets|
  {
    Concatenated(buckets[b..])
  }

  lemma FromStep(buckets: Listing, b: nat)
    requires b < |buckets|
    ensures From(buckets, b) == KeysOf(buckets[b]) + From(buckets, b + 1)
  {
    assert buckets[b..][1..] == buckets[b + 1..];
  }

  /** What an iterator standing in bucket `b` has yet to hand out. */
  function Ahead(buckets: Listing, b: nat, it: Option<seq<string>>, next: Option<string>): seq<string>
    requires it.Some? ==> b < |buckets|
  {
    (if next.Some? then [next.value] else []) + (if it.Some? then it.value + From(buckets, b + 1) else [])
  }

  lemma AheadStep(buckets: Listing, b: nat, keys: seq<string>)
    requires b < |buckets| && keys != []
    ensures Ahead(buckets, b, Some(keys[1..]), Some(keys[0])) == keys + From(buckets, b + 1)
  {
    assert [keys[0]] + keys[1..] == keys;
    assert [keys[0]] + (keys[1..] + From(buckets, b + 1)) == ([keys[0]] + keys[1..]) + From(buckets, b + 1);
  }

  lemma EmptyBucket(buckets: Listing, b: nat)
    requires b < |buckets| && KeysOf(buckets[b]) == []
    ensures From(buckets, b) == From(buckets, b + 1)
  {
    FromStep(buckets, b);
    assert [] + From(buckets, b + 1) == From(buckets, b + 1);
  }

  lemma FirstOfBucket(buckets: Listing, b: nat)
    requires b < |buckets| && KeysOf(buckets[b]) != []
    ensures var keys := KeysOf(buckets[b]); Ahead(buckets, b, Some(keys[1..]), Some(keys[0])) == From(buckets, b)
  {
    FromStep(buckets, b);
    AheadStep(buckets, b, KeysOf(buckets[b]));
  }

  class KeyInHashDirIterator {
    const buckets: Listing
    var currentBucket: nat
    var it: Option<seq<string>>
    var next: Option<string>

    /** What is still to come. */
    ghost function Remaining(): seq<string>
      reads this
      requires Valid()
    {
      Ahead(buckets, currentBucket, it, next)
    }

    ghost predicate Valid()
      reads this
    {
      |buckets| == BUCKETS && currentBucket <= BUCKETS
      && (it.Some? <==> next.Some?) && (it.Some? ==> currentBucket < BUCKETS)
    }

    constructor (buckets: Listing)
      requires |buckets| == BUCKETS
      ensures Valid() && this.buckets == buckets && Remaining() == Concatenated(buckets)
    {
      this.buckets, currentBucket, it, next := buckets, 0, None, None;
      new;
      assert buckets[0..] == buckets;
      PrimeNext();
    }

    method PrimeNext()
      requires |buckets| == BUCKETS && currentBucket <= BUCKETS && it == None && next == None
      modifies this
      ensures Valid() && Remaining() == From(buckets, old(currentBucket))
    {
      ghost var all := From(buckets, currentBucket);
      while it.None? && currentBucket < BUCKETS
        invariant Valid()
        invariant it.None? ==> From(buckets, currentBucket) == all
        invariant it.Some? ==> Remaining() == all
        decreases BUCKETS - currentBucket, it.None?
      {
        it := buckets[currentBucket];
        if it.None? || |it.value| == 0 {
          EmptyBucket(buckets, currentBucket);
          it := None;
          currentBucket := currentBucket + 1;
        } else {
          FirstOfBucket(buckets, currentBucket);
          next := Some(it.value[0]);
          it := Some(it.value[1..]);
        }
      }
      if it.None? { assert From(buckets, BUCKETS) == []; }
    }

    predicate HasNext()
      reads this
    {
      next.Some?
    }

    method Next() returns (key: string)
      requires Valid() && HasNext()
      modifies this
      ensures Valid() && [key] + Remaining() == old(Remaining())
    {
      key := next.value;
      next := None;
      if it.value == [] {
        it := None;
        currentBucket := currentBucket + 1;
        assert [] + From(buckets, currentBucket) == From(buckets, currentBucket);
        PrimeNext();
      } else {
        AheadStep(buckets, currentBucket, it.value);
        next := Some(it.value[0]);
        it := Some(it.value[1..]);
      }
    }
  }

  /** `hasNext` is false exactly when every key of every bucket has been handed out. */
  lemma HasNextExact(i: KeyInHashDirIterator)
    requires i.Valid()
    ensures i.HasNext() <==> i.Remaining() != []
  {
  }

  /** A file is the committed data, a temporary file stamped with its creation, or something unexpected. */
  datatype Name = Data | Temporary(stamp: nat) | Unexpected(name: string)

  type Dir = map<Name, int>

  /** Every key's directory, with the modification times of its files. */
  type Blobs = map<string, Dir>

  /** The store keeps each key under the bucket its hash names, and a listing names it once, in any order. */
  ghost predicate Lists(store: Blobs, buckets: Listing) {
    |buckets| == BUCKETS
    && (forall b :: 0 <= b < BUCKETS ==> Distinct(KeysOf(buckets[b])))
    && (forall b, k :: 0 <= b < BUCKETS ==> (k in KeysOf(buckets[b]) <==> k in store && Bucket(k) == b))
  }

  ghost predicate FromBucket(buckets: Listing, first: nat) {
    (forall b :: 0 <= b < |buckets| ==> Distinct(KeysOf(buckets[b])))
    && (forall b, k :: 0 <= b < |buckets| && k in KeysOf(buckets[b]) ==> Bucket(k) == first + b)
  }

  /** The bucket named by the key's hash lists it. */
  predicate Listed(buckets: Listing, first: nat, key: string) {
    first <= Bucket(key) < first + |buckets| && key in KeysOf(buckets[Bucket(key) - first])
  }

  lemma LaterBuckets(buckets: Listing, first: nat)
    requires buckets != [] && FromBucket(buckets, first)
    ensures FromBucket(buckets[1..], first + 1)
  {
    forall b | 0 <= b < |buckets[1..]|
      ensures Distinct(KeysOf(buckets[1..][b])) && forall k :: k in KeysOf(buckets[1..][b]) ==> Bucket(k) == first + 1 + b
    {
      assert buckets[1..][b] == buckets[b + 1];
    }
  }

  /** A key is met exactly when it is listed under its own hash. */
  lemma {:induction false} MetIffListed(buckets: Listing, first: nat, key: string)
    requires FromBucket(buckets, first)
    ensures key in Concatenated(buckets) <==> Listed(buckets, first, key)
  {
    if buckets != [] {
      LaterBuckets(buckets, first);
      MetIffListed(buckets[1..], first + 1, key);
      assert key in KeysOf(buckets[0]) ==> Bucket(key) == first + 0;
      if first < Bucket(key) < first + |buckets| {
        assert buckets[1..][Bucket(key) - first - 1] == buckets[Bucket(key) - first];
      }
    }
  }

  lemma {:induction false} MetOnce(buckets: Listing, first: nat)
    requires FromBucket(buckets, first)
    ensures Distinct(Concatenated(buckets))
  {
    if buckets != [] {
      var (head, rest) := (KeysOf(buckets[0]), Concatenated(buckets[1..]));
      LaterBuckets(buckets, first);
      MetOnce(buckets[1..], first + 1);
      forall i, j | 0 <= i < |head| && 0 <= j < |rest| ensures head[i] != rest[j] {
        MetIffListed(buckets[1..], first + 1, rest[j]);
        assert head[i] in KeysOf(buckets[0]) && Bucket(head[i]) == first + 0;
      }
      DistinctJoin(head, rest);
    }
  }

  lemma DistinctJoin(a: seq<string>, b: seq<string>)
    requires Distinct(a) && Distinct(b)
    requires forall i, j :: 0 <= i < |a| && 0 <= j < |b| ==> a[i] != b[j]
    ensures Distinct(a + b)
  {
  }

  /** The iterator enumerates the store: each key once, and every key is found under its own hash. */
  lemma EveryKeyOnce(store: Blobs, buckets: Listing)
    requires Lists(store, buckets)
    ensures Distinct(Concatenated(buckets))
    ensures forall k :: k in Concatenated(buckets) <==> k in store
  {
    MetOnce(buckets, 0);
    forall k ensures k in Concatenated(buckets) <==> k in store {
      MetIffListed(buckets, 0, k);
    }
  }

  predicate Recognised(n: Name) { !n.Unexpected? }

  /** A directory without a recognised file is removed with all it holds; of the others only old temporaries go. */
  function CleanDir(files: Dir, cutoff: int): Option<Dir> {
    if forall n :: n in files ==> !Recognised(n) then None
    else Some(map n | n in files && !(n.Temporary? && files[n] <= cutoff) :: files[n])
  }

  function Clean(store: Blobs, cutoff: int): Blobs {
    map k | k in store && CleanDir(store[k], cutoff).Some? :: CleanDir(store[k], cutoff).value
  }

  /** Cleanup never touches committed data, a newer temporary, or what it does not recognise beside a file it does. */
  lemma CleanupSpares(store: Blobs, cutoff: int, key: string, n: Name)
    requires key in store && n in store[key]
    requires n.Data? || (n.Temporary? && store[key][n] > cutoff)
             || (n.Unexpected? && exists m :: m in store[key] && !m.Unexpected?)
    ensures key in Clean(store, cutoff) && n in Clean(store, cutoff)[key]
    ensures Clean(store, cutoff)[key][n] == store[key][n]
  {
    var m :| m in store[key] && !m.Unexpected?;
    assert Recognised(m);
  }

  /** And it makes up nothing: what is there afterwards was there before, and no old temporary remains. */
  lemma CleanupOnlyRemoves(store: Blobs, cutoff: int, key: string, n: Name)
    requires key in Clean(store, cutoff) && n in Clean(store, cutoff)[key]
    ensures key in store && n in store[key] && Clean(store, cutoff)[key][n] == store[key][n]
    ensures n.Temporary? ==> store[key][n] > cutoff
  {
  }

  /** A key disappears exactly when its directory held nothing but unrecognised files, whatever those were. */
  lemma KeyRemovedIff(store: Blobs, cutoff: int, key: string)
    requires key in store
    ensures key !in Clean(store, cutoff) <==> forall n :: n in store[key] ==> n.Unexpected?
  {
    assert (forall n :: n in store[key] ==> !Recognised(n)) <==> (forall n :: n in store[key] ==> n.Unexpected?);
  }

  /** Some recognised file of the directory survives a cleanup. */
  predicate KeepsOne(files: Dir, cutoff: int) {
    exists n :: n in files && Recognised(n) && !(n.Temporary? && files[n] <= cutoff)
  }

  predicate Abandoned(files: Dir, cutoff: int) {
    (exists n :: n in files && Recognised(n)) && !KeepsOne(files, cutoff)
  }

  lemma CleanDirAgain(files: Dir, cutoff: int)
    requires CleanDir(files, cutoff).Some?
    ensures CleanDir(CleanDir(files, cutoff).value, cutoff)
            == if KeepsOne(files, cutoff) then CleanDir(files, cutoff) else None
  {
    var once := CleanDir(files, cutoff).value;
    if KeepsOne(files, cutoff) {
      var n :| n in files && Recognised(n) && !(n.Temporary? && files[n] <= cutoff);
      assert n in once;
      assert CleanDir(once, cutoff).value == once;
    }
  }

  /** One pass is enough iff no directory held recognised files all of which were old temporaries. */
  lemma OnePassSettlesIff(store: Blobs, cutoff: int)
    ensures Clean(Clean(store, cutoff), cutoff) == Clean(store, cutoff)
            <==> forall k :: k in store ==> !Abandoned(store[k], cutoff)
  {
    var once := Clean(store, cutoff);
    var twice := Clean(once, cutoff);
    forall k | k in once ensures k in twice <==> KeepsOne(store[k], cutoff)
    ensures k in twice ==> twice[k] == once[k] {
      CleanDirAgain(store[k], cutoff);
    }
    if forall k :: k in store ==> !Abandoned(store[k], cutoff) {
      forall k | k in once ensures k in twice {
        var n :| n in store[k] && Recognised(n);
      }
      assert twice == once;
    } else {
      var k :| k in store && Abandoned(store[k], cutoff);
      var n :| n in store[k] && Recognised(n);
      assert k in once && k !in twice;
    }
  }

  /** Two passes with the same cutoff always are. */
  lemma TwoPassesSettle(store: Blobs, cutoff: int)
    ensures var twice := Clean(Clean(store, cutoff), cutoff); Clean(twice, cutoff) == twice
  {
    var once := Clean(store, cutoff);
    forall k | k in once ensures !Abandoned(once[k], cutoff) {
      CleanDirAgain(store[k], cutoff);
      if n :| n in once[k] && Recognised(n) {
        assert !(n.Temporary? && once[k][n] <= cutoff);
      }
    }
    OnePassSettlesIff(once, cutoff);
  }

  function CleanOne(store: Blobs, key: string, cutoff: int): Blobs
    requires key in store
  {
    match CleanDir(store[key], cutoff)
    case None => store - {key}
    case Some(files) => store[key := files]
  }

  class HdfsBlobStoreImpl {
    var store: Blobs

    /** Deletes the old temporaries among the recognised files of one directory. */
    method CleanKey(key: string, cutoff: int)
      requires key in store
      modifies this
      ensures store == CleanOne(old(store), key, cutoff)
    {
      var files := store[key];
      var pending := set n | n in files && Recognised(n);
      if pending == {} {
        assert forall n :: n in files && Recognised(n) ==> n in pending;
        assert CleanDir(files, cutoff) == None;
        store := store - {key};
        return;
      }
      ghost var one :| one in pending;
      assert CleanDir(files, cutoff).Some?;
      var kept := files;
      while pending != {}
        invariant kept == map n | n in files && !(n.Temporary? && files[n] <= cutoff && n !in pending) :: files[n]
        decreases pending
      {
        var f :| f in pending;
        pending := pending - {f};
        if f.Temporary? && files[f] <= cutoff { kept := kept - {f}; }
      }
      assert kept == CleanDir(files, cutoff).value;
      store := store[key := kept];
    }

    /** `buckets` are the bucket listings as the iterator finds them. */
    method FullCleanup(buckets: Listing, cutoff: int)
      requires Lists(store, buckets)
      modifies this
      ensures store == Clean(old(store), cutoff)
    {
      CleaningStarts(store, buckets, cutoff);
      ghost var before := store;
      ghost var done: set<string> := {};
      var keys := new KeyInHashDirIterator(buckets);
      while keys.HasNext()
        invariant keys.Valid() && fresh(keys) && Pending(before, done, keys.Remaining())
        invariant store == Partly(before, cutoff, done)
        decreases |keys.Remaining()|
      {
        var key := keys.Next();
        CleanStep(before, cutoff, done, key, keys.Remaining());
        CleanKey(key, cutoff);
        done := done + {key};
      }
      CleanedAll(before, cutoff, done);
    }
  }

  /** Every key is either done or yet to come, and comes once. */
  ghost predicate Pending(store: Blobs, done: set<string>, rest: seq<string>) {
    Distinct(rest) && forall k :: k in rest <==> k in store && k !in done
  }

  ghost function Partly(store: Blobs, cutoff: int, done: set<string>): Blobs {
    map k | k in store && (k in done ==> CleanDir(store[k], cutoff).Some?)
      :: if k in done then CleanDir(store[k], cutoff).value else store[k]
  }

  lemma CleaningStarts(store: Blobs, buckets: Listing, cutoff: int)
    requires Lists(store, buckets)
    ensures Pending(store, {}, Concatenated(buckets)) && Partly(store, cutoff, {}) == store
  {
    EveryKeyOnce(store, buckets);
  }

  lemma CleanStep(store: Blobs, cutoff: int, done: set<string>, key: string, rest: seq<string>)
    requires Pending(store, done, [key] + rest)
    ensures Pending(store, done + {key}, rest)
    ensures key in Partly(store, cutoff, done)
    ensures Partly(store, cutoff, done + {key}) == CleanOne(Partly(store, cutoff, done), key, cutoff)
  {
    var all := [key] + rest;
    assert all[0] == key && all[1..] == rest;
    forall i, j | 0 <= i < j < |rest| ensures rest[i] != rest[j] {
      assert all[i + 1] != all[j + 1];
    }
    forall k ensures k in rest <==> k in all && k != key {
      if k in rest {
        var i :| 0 <= i < |rest| && rest[i] == k;
        assert all[i + 1] == k;
      }
    }
  }

  lemma CleanedAll(store: Blobs, cutoff: int, done: set<string>)
    requires Pending(store, done, [])
    ensures Partly(store, cutoff, done) == Clean(store, cutoff)
  {
    assert forall k :: k in store ==> k in done || k in [];
  }
}
