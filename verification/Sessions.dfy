/**
 * Joining and splitting at '|', as the counting topologies store a session (`channel|partner`) and name
 * their counters.
 */
module StringHandle {
  import opened Text

  function Join(a: string, b: string): string {
    a + "|" + b
  }

  predicate Clean(s: string) { '|' !in s }

  /** The first two parts of a joined pair are the pair again exactly when neither part contains the separator. */
  lemma PairRoundTripIff(a: string, b: string)
    ensures var parts := Split(Join(a, b), '|');
            (|parts| >= 2 && parts[0] == a && parts[1] == b) <==> Clean(a) && Clean(b)
  {
    var s := Join(a, b);
    assert s == a + ['|'] + b;
    var i := IndexOf(s, '|');
    if Clean(a) {
      SplitFirst(a, '|', b);
      var j := IndexOf(b, '|');
      if j < |b| { assert Split(b, '|')[0] == b[..j]; }
    } else {
      var k :| 0 <= k < |a| && a[k] == '|';
      assert s[k] == '|';
      assert forall n :: k < n <= |s| ==> s[..n][k] == '|';
      assert i <= k;
      assert Split(s, '|')[0] == s[..i];
    }
  }
}

/** One viewer's session in the store, and the atomic transitions every event makes. */
module Sessions {
  import opened Common
  import opened Text
  import opened StringHandle

  type Mac = string

  /** The value of `mac|cp`, and the payload of an ADD or a DEC. */
  datatype Pair = Pair(channel: string, partner: string)

  datatype Event = Event(pt: string, mac: Mac, channel: string, partner: string) {
    function NewPair(): Pair { Pair(channel, partner) }
  }

  /** What the bolt emits: one viewer more, one viewer less, or both. */
  datatype Delta = Delta(add: Option<Pair>, dec: Option<Pair>)

  datatype Key = Total(channel: string) | Partner(partner: string, channel: string) {
    function Name(): string {
      match this
      case Total(c) => "total|" + c
      case Partner(p, c) => "partner|" + Join(p, c)
    }
  }

  /** Counters of different keys are different counters. */
  lemma NamesInjective(k1: Key, k2: Key)
    requires k1.Partner? ==> Clean(k1.partner)
    requires k2.Partner? ==> Clean(k2.partner)
    ensures k1.Name() == k2.Name() <==> k1 == k2
  {
    if k1.Name() == k2.Name() {
      assert k1.Name()[0] == (if k1.Total? then 't' else 'p');
      assert k2.Name()[0] == (if k2.Total? then 't' else 'p');
      if k1.Total? {
        assert k1.Name()[6..] == k1.channel && k2.Name()[6..] == k2.channel;
      } else {
        var (a, b) := (k1.Name()[8..], k2.Name()[8..]);
        assert a == k1.partner + ['|'] + k1.channel && b == k2.partner + ['|'] + k2.channel;
        IndexOfPrefix(k1.partner, '|', k1.channel);
        IndexOfPrefix(k2.partner, '|', k2.channel);
        assert a[..|k1.partner|] == k1.partner && b[..|k2.partner|] == k2.partner;
        assert a[|k1.partner| + 1..] == k1.channel && b[|k2.partner| + 1..] == k2.channel;
      }
    }
  }

  predicate Matches(k: Key, v: Pair) {
    match k
    case Total(c) => v.channel == c
    case Partner(p, c) => v == Pair(c, p)
  }

  function Unit(v: Option<Pair>, k: Key): int {
    if v.Some? && Matches(k, v.value) then 1 else 0
  }

  function Effect(d: Delta, k: Key): int {
    Unit(d.add, k) - Unit(d.dec, k)
  }

  /** Exactly the two counters of a pair move: the total of its channel and its partner's share. */
  lemma EffectMeans(d: Delta, k: Key)
    ensures var (a, b) := (d.add, d.dec);
            var up := a.Some? && (k == Total(a.value.channel) || k == Partner(a.value.partner, a.value.channel));
            var down := b.Some? && (k == Total(b.value.channel) || k == Partner(b.value.partner, b.value.channel));
            Effect(d, k) == (if up then 1 else 0) - (if down then 1 else 0)
  {
  }

  function Lookup(cp: map<Mac, Pair>, mac: Mac): Option<Pair> {
    if mac in cp then Some(cp[mac]) else None
  }

  /** The two keys of every viewer: `mac` (expires) and `mac|cp` (does not). */
  datatype Store = Store(live: set<Mac>, cp: map<Mac, Pair>)

  /** What the switch over `pt` decides after reading `mac|cp`. */
  datatype Action = Transact(value: Option<Pair>, out: Delta) | Refresh | Nothing

  function Decide(e: Event, seen: Option<Pair>): Action {
    if e.pt == "0" then
      Transact(Some(e.NewPair()),
               Delta(Some(e.NewPair()), if seen.Some? then Some(Pair(seen.value.channel, e.partner)) else None))
    else if e.pt == "1" || e.pt == "2" then
      if seen.None? then Nothing
      else Transact(None, Delta(None, Some(Pair(seen.value.channel, e.partner))))
    else if e.pt == "5" then
      if seen.Some? then Refresh else Transact(Some(e.NewPair()), Delta(Some(e.NewPair()), None))
    else Nothing
  }

  function Put(s: Store, mac: Mac, value: Option<Pair>): Store {
    match value
    case Some(v) => Store(s.live + {mac}, s.cp[mac := v])
    case None => Store(s.live - {mac}, s.cp - {mac})
  }

  /** The simple form: every event, expiry and expiry task is one indivisible step. */
  datatype Op = Session(e: Event) | Expired(mac: Mac) | Dropped(mac: Mac)

  function Apply(s: Store, op: Op): (Store, Delta) {
    match op
    case Session(e) =>
      var a := Decide(e, Lookup(s.cp, e.mac));
      if a.Transact? then (Put(s, e.mac, a.value), a.out) else (s, Delta(None, None))
    case Expired(mac) => (s.(live := s.live - {mac}), Delta(None, None))
    case Dropped(mac) => (s.(cp := s.cp - {mac}), Delta(None, Lookup(s.cp, mac)))
  }

  const EMPTY := Store({}, map[])

  function ApplyAll(ops: seq<Op>): Store {
    if ops == [] then EMPTY else Apply(ApplyAll(ops[..|ops| - 1]), ops[|ops| - 1]).0
  }

  /** The counter `k` if every delta were added the moment it arises. */
  function Count(ops: seq<Op>, k: Key): int {
    if ops == [] then 0
    else
      var before := ops[..|ops| - 1];
      Count(before, k) + Effect(Apply(ApplyAll(before), ops[|ops| - 1]).1, k)
  }

  /** The step is a session event that changes something and emits `d`. */
  predicate Emits(s: Store, op: Op, d: Delta) {
    op.Session? && Decide(op.e, Lookup(s.cp, op.e.mac)).Transact? && Apply(s, op).1 == d
  }

  /** How often `d` is emitted. */
  function Emissions(ops: seq<Op>, d: Delta): nat {
    if ops == [] then 0
    else
      var before := ops[..|ops| - 1];
      Emissions(before, d) + if Emits(ApplyAll(before), ops[|ops| - 1], d) then 1 else 0
  }

  // ---------- the store, told by the history alone ----------

  /** What `mac` watches: its last word decides, and a heartbeat speaks only for a viewer without a session. */
  function Watches(ops: seq<Op>, mac: Mac): Option<Pair> {
    if ops == [] then None
    else
      var was := Watches(ops[..|ops| - 1], mac);
      match ops[|ops| - 1]
      case Session(Event(pt, m, channel, partner)) =>
        if m != mac then was
        else if pt == "0" then Some(Pair(channel, partner))
        else if pt == "1" || pt == "2" then None
        else if pt == "5" && was == None then Some(Pair(channel, partner))
        else was
      case Expired(_) => was
      case Dropped(m) => if m == mac then None else was
  }

  /** Whether the key that expires is there. */
  predicate Lives(ops: seq<Op>, mac: Mac) {
    ops != [] &&
      var before := ops[..|ops| - 1];
      var did := Lives(before, mac);
      match ops[|ops| - 1]
      case Session(Event(pt, m, _, _)) =>
        if m != mac then did
        else if pt == "0" then true
        else if pt == "1" || pt == "2" then did && Watches(before, mac) == None
        else did || (pt == "5" && Watches(before, mac) == None)
      case Expired(m) => did && m != mac
      case Dropped(_) => did
  }

  lemma {:induction false} StoreFromHistory(ops: seq<Op>, mac: Mac)
    ensures mac in ApplyAll(ops).cp <==> Watches(ops, mac).Some?
    ensures mac in ApplyAll(ops).cp ==> Some(ApplyAll(ops).cp[mac]) == Watches(ops, mac)
    ensures mac in ApplyAll(ops).live <==> Lives(ops, mac)
    ensures Apply(ApplyAll(ops), Dropped(mac)).1 == Delta(None, Watches(ops, mac))
  {
    if ops != [] { StoreFromHistory(ops[..|ops| - 1], mac); }
  }

  /**
   * What a session event emits, by the history before it: coming or moving adds the new pair, moving or
   * leaving takes off the channel watched so far, and nothing is emitted otherwise.
   */
  lemma {:induction false} EmittedFromHistory(ops: seq<Op>, e: Event, d: Delta)
    ensures var was := Watches(ops, e.mac);
            var added := Some(Pair(e.channel, e.partner));
            var gone := if was.Some? then Some(Pair(was.value.channel, e.partner)) else None;
            Emits(ApplyAll(ops), Session(e), d) <==>
              || (e.pt == "0" && d == Delta(added, gone))
              || ((e.pt == "1" || e.pt == "2") && was.Some? && d == Delta(None, gone))
              || (e.pt == "5" && was.None? && d == Delta(added, None))
  {
    StoreFromHistory(ops, e.mac);
  }

  // ---------- how many viewers a store names ----------

  function Macs(cp: map<Mac, Pair>, k: Key): set<Mac> {
    set m | m in cp && Matches(k, cp[m])
  }

  function Viewers(cp: map<Mac, Pair>, k: Key): nat {
    |Macs(cp, k)|
  }

  lemma MacsWithout(cp: map<Mac, Pair>, mac: Mac, k: Key)
    ensures Macs(cp - {mac}, k) == Macs(cp, k) - {mac}
  {
  }

  lemma MacsWith(cp: map<Mac, Pair>, mac: Mac, v: Pair, k: Key)
    ensures Macs(cp[mac := v], k) == (Macs(cp, k) - {mac}) + (if Matches(k, v) then {mac} else {})
  {
  }

  lemma ViewersAfter(cp: map<Mac, Pair>, mac: Mac, v: Option<Pair>, k: Key)
    ensures var after := if v.Some? then cp[mac := v.value] else cp - {mac};
            Viewers(after, k) == Viewers(cp, k) - Unit(Lookup(cp, mac), k) + Unit(v, k)
  {
    var s := Macs(cp, k);
    assert mac in s <==> Unit(Lookup(cp, mac), k) == 1;
    assert |s - {mac}| == |s| - (if mac in s then 1 else 0);
    match v
    case None => MacsWithout(cp, mac, k);
    case Some(w) => MacsWith(cp, mac, w, k);
  }

  /** `total|c` counts the viewers of `c`, after any sequence of atomic steps. */
  lemma {:induction false} TotalsExact(ops: seq<Op>, c: string)
    ensures Count(ops, Total(c)) == Viewers(ApplyAll(ops).cp, Total(c))
  {
    if ops != [] {
      var before := ops[..|ops| - 1];
      TotalsExact(before, c);
      OneStep(ApplyAll(before), ops[|ops| - 1], Total(c));
    }
  }

  /** A viewer who moves or leaves must do so under the partner stored for the session. */
  predicate PartnerKept(s: Store, op: Op) {
    op.Session? && op.e.mac in s.cp && op.e.pt in {"0", "1", "2"} ==> s.cp[op.e.mac].partner == op.e.partner
  }

  lemma OneStep(s: Store, op: Op, k: Key)
    requires k.Total? || PartnerKept(s, op)
    ensures var (s', d) := Apply(s, op);
            Viewers(s'.cp, k) - Viewers(s.cp, k) == Effect(d, k)
  {
    match op
    case Session(e) =>
      var a := Decide(e, Lookup(s.cp, e.mac));
      if a.Transact? { ViewersAfter(s.cp, e.mac, a.value, k); }
    case Expired(_) =>
    case Dropped(mac) => ViewersAfter(s.cp, mac, None, k);
  }

  /**
   * One step moves every partner counter by the change in that partner's viewers exactly when the event
   * carries the stored partner: the DEC is booked on the partner of the event.
   */
  lemma PartnerStepExactIff(s: Store, op: Op)
    ensures (forall k: Key :: k.Partner? ==>
               Viewers(Apply(s, op).0.cp, k) - Viewers(s.cp, k) == Effect(Apply(s, op).1, k))
            <==> PartnerKept(s, op)
  {
    if PartnerKept(s, op) {
      forall k: Key | k.Partner?
        ensures Viewers(Apply(s, op).0.cp, k) - Viewers(s.cp, k) == Effect(Apply(s, op).1, k)
      {
        OneStep(s, op, k);
      }
    } else {
      var e := op.e;
      var stored := s.cp[e.mac];
      var k := Partner(stored.partner, stored.channel);
      ViewersAfter(s.cp, e.mac, Decide(e, Some(stored)).value, k);
      assert Effect(Apply(s, op).1, k) == 0;
      assert Viewers(Apply(s, op).0.cp, k) == Viewers(s.cp, k) - 1;
    }
  }

  /** Two events: a viewer comes under one partner and leaves under another. */
  function ComeAndGo(m: Mac, c: string, p: string, q: string): seq<Op> {
    [Session(Event("0", m, c, p)), Session(Event("2", m, c, q))]
  }

  /** Nobody watches then, and the one partner keeps a viewer that the other one owes. */
  lemma PartnerMisbooked(m: Mac, c: string, p: string, q: string)
    requires p != q
    ensures var ops := ComeAndGo(m, c, p, q);
            ApplyAll(ops).cp == map[] && Count(ops, Total(c)) == 0
            && Count(ops, Partner(p, c)) == 1 && Count(ops, Partner(q, c)) == -1
  {
    var ops := ComeAndGo(m, c, p, q);
    assert ops[..1] == [ops[0]] && ops[..1][..0] == [];
    assert ApplyAll([]) == EMPTY;
    assert ApplyAll(ops[..1]) == Store({m}, map[m := Pair(c, p)]);
    assert Count([], Total(c)) == 0 && Count([], Partner(p, c)) == 0 && Count([], Partner(q, c)) == 0;
    assert Count(ops[..1], Total(c)) == 1 && Count(ops[..1], Partner(p, c)) == 1 && Count(ops[..1], Partner(q, c)) == 0;
  }

  predicate AllPartnersKept(ops: seq<Op>) {
    ops != [] ==>
      AllPartnersKept(ops[..|ops| - 1]) && PartnerKept(ApplyAll(ops[..|ops| - 1]), ops[|ops| - 1])
  }

  lemma {:induction false} PartnersExact(ops: seq<Op>, k: Key)
    requires AllPartnersKept(ops)
    ensures Count(ops, k) == Viewers(ApplyAll(ops).cp, k)
  {
    if ops != [] {
      var before := ops[..|ops| - 1];
      PartnersExact(before, k);
      OneStep(ApplyAll(before), ops[|ops| - 1], k);
    }
  }

  // ---------- the partner breakdown ----------

  function UnitSum(v: Option<Pair>, c: string, ps: seq<string>): int {
    if ps == [] then 0 else UnitSum(v, c, ps[..|ps| - 1]) + Unit(v, Partner(ps[|ps| - 1], c))
  }

  function CountSum(ops: seq<Op>, c: string, ps: seq<string>): int {
    if ps == [] then 0 else CountSum(ops, c, ps[..|ps| - 1]) + Count(ops, Partner(ps[|ps| - 1], c))
  }

  lemma {:induction false} UnitSplits(v: Option<Pair>, c: string, ps: seq<string>)
    requires Distinct(ps)
    ensures UnitSum(v, c, ps) == if v.Some? && v.value.partner in ps then Unit(v, Total(c)) else 0
  {
    if ps != [] {
      var rest := ps[..|ps| - 1];
      UnitSplits(v, c, rest);
      assert ps == rest + [ps[|ps| - 1]];
    }
  }

  lemma {:induction false} CountSumStep(ops: seq<Op>, c: string, ps: seq<string>)
    requires ops != []
    ensures var before := ops[..|ops| - 1];
            var d := Apply(ApplyAll(before), ops[|ops| - 1]).1;
            CountSum(ops, c, ps) == CountSum(before, c, ps) + UnitSum(d.add, c, ps) - UnitSum(d.dec, c, ps)
  {
    if ps != [] { CountSumStep(ops, c, ps[..|ps| - 1]); }
  }

  ghost predicate PartnersAmong(ops: seq<Op>, ps: seq<string>) {
    forall i :: 0 <= i < |ops| && ops[i].Session? ==> ops[i].e.partner in ps
  }

  lemma {:induction false} StoredPartnersAmong(ops: seq<Op>, ps: seq<string>)
    requires PartnersAmong(ops, ps)
    ensures forall m :: m in ApplyAll(ops).cp ==> ApplyAll(ops).cp[m].partner in ps
  {
    if ops != [] { StoredPartnersAmong(ops[..|ops| - 1], ps); }
  }

  /** `total|c` is the sum of the partner counters of `c`, whichever partner a DEC was booked on. */
  lemma {:induction false} PartnerBreakdown(ops: seq<Op>, c: string, ps: seq<string>)
    requires Distinct(ps) && PartnersAmong(ops, ps)
    ensures Count(ops, Total(c)) == CountSum(ops, c, ps)
  {
    if ops == [] {
      ZeroSum(c, ps);
    } else {
      var before := ops[..|ops| - 1];
      PartnerBreakdown(before, c, ps);
      StoredPartnersAmong(before, ps);
      CountSumStep(ops, c, ps);
      var d := Apply(ApplyAll(before), ops[|ops| - 1]).1;
      UnitSplits(d.add, c, ps);
      UnitSplits(d.dec, c, ps);
    }
  }

  lemma {:induction false} ZeroSum(c: string, ps: seq<string>)
    ensures CountSum([], c, ps) == 0
  {
    if ps != [] { ZeroSum(c, ps[..|ps| - 1]); }
  }
}
