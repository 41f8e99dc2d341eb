/** The three workers of the counting topology in the code's own form, against the steps of `CounterRuns`. */
module CountingBolts {
  import opened Common
  import opened Sessions
  import opened CounterRuns

  /** The Redis instance that holds the two keys of every viewer. */
  class ViewerStore {
    /** `mac`, with the second at which it expires. */
    var deadlines: map<Mac, nat>
    /** `mac|cp`, which does not expire. */
    var cp: map<Mac, Pair>

    ghost function View(): Store
      reads this
    {
      Store(deadlines.Keys, cp)
    }
  }

  /** The Redis instance that holds the counters. */
  class CounterStore {
    var counts: Counters

    method IncrBy(k: Key, n: int)
      modifies this
      ensures counts == Bump(old(counts), k, n)
      ensures counts == old(counts)[k := (if k in old(counts) then old(counts)[k] else 0) + n]
    {
      counts := if k in counts then counts[k := counts[k] + n] else counts[k := n];
    }
  }

  /** Seconds until `mac` expires. */
  const TIME_TTL := 660

  /** What goes to the album counters beside the change of viewers. */
  datatype Play = Play(channel: string, album: string, flag: string, partner: string)

  datatype AlbumDelta = AlbumDelta(added: Option<Play>, gone: Option<Play>)

  class Mac2Redis {
    /**
     * One event at second `now`. `disturbed`: the transaction, if one is sent, is refused because a watched
     * key was written in between; then nothing is stored and nothing is emitted.
     */
    method CheckMacAndHandle(redis: ViewerStore, e: Event, an: string, vt: string, now: nat, disturbed: bool)
      returns (out: Option<Delta>, record: Option<AlbumDelta>)
      modifies redis
      ensures var (after, d) := Apply(old(redis.View()), Session(e));
              if disturbed || !Decide(e, Lookup(old(redis.cp), e.mac)).Transact?
              then redis.View() == old(redis.View()) && out == None
              else redis.View() == after && out == Some(d)
      // Coming, moving, and a heartbeat of a viewer without a session.
      ensures !disturbed && (e.pt == "0" || (e.pt == "5" && e.mac !in old(redis.cp))) ==>
        && redis.cp == old(redis.cp)[e.mac := Pair(e.channel, e.partner)]
        && redis.deadlines == old(redis.deadlines)[e.mac := now + TIME_TTL]
        && out == Some(Delta(Some(Pair(e.channel, e.partner)),
                             if e.mac !in old(redis.cp) then None
                             else Some(Pair(old(redis.cp)[e.mac].channel, e.partner))))
      // Leaving.
      ensures !disturbed && (e.pt == "1" || e.pt == "2") && e.mac in old(redis.cp) ==>
        && redis.cp == old(redis.cp) - {e.mac} && redis.deadlines == old(redis.deadlines) - {e.mac}
        && out == Some(Delta(None, Some(Pair(old(redis.cp)[e.mac].channel, e.partner))))
      // A heartbeat of a viewer with a session; a key that has expired is not brought back.
      ensures e.pt == "5" && e.mac in old(redis.cp) ==>
        && redis.cp == old(redis.cp) && out == None
        && redis.deadlines == if e.mac in old(redis.deadlines) then old(redis.deadlines)[e.mac := now + TIME_TTL]
                              else old(redis.deadlines)
      // Everything else.
      ensures (e.pt != "0" && e.pt != "5" && (e.pt !in {"1", "2"} || e.mac !in old(redis.cp)))
              || (disturbed && !(e.pt == "5" && e.mac in old(redis.cp))) ==>
        redis.cp == old(redis.cp) && redis.deadlines == old(redis.deadlines) && out == None
      // The album counters hear of the same change.
      ensures record.Some? == out.Some?
      ensures record.Some? ==>
        var flag := if e.pt == "0" && vt == "3" then "use" else "pass";
        && record.value.added == (if out.value.add.None? then None
                                  else Some(Play(e.channel, an, flag, e.partner)))
        && record.value.gone == (if out.value.dec.None? then None
                                 else Some(Play(out.value.dec.value.channel, an, "pass", e.partner)))
    {
      out, record := None, None;
      var mac, cp := e.mac, Lookup(redis.cp, e.mac);
      if e.pt == "0" {
        var anFlag := if vt == "3" then "use" else "pass";
        if disturbed { return; }
        redis.deadlines, redis.cp := redis.deadlines[mac := now + TIME_TTL], redis.cp[mac := e.NewPair()];
        var added := Some(Play(e.channel, an, anFlag, e.partner));
        if cp.Some? {
          out := Some(Delta(Some(e.NewPair()), Some(Pair(cp.value.channel, e.partner))));
          record := Some(AlbumDelta(added, Some(Play(cp.value.channel, an, "pass", e.partner))));
        } else {
          out := Some(Delta(Some(e.NewPair()), None));
          record := Some(AlbumDelta(added, None));
        }
      } else if e.pt == "1" || e.pt == "2" {
        if cp.None? || disturbed { return; }
        redis.deadlines, redis.cp := redis.deadlines - {mac}, redis.cp - {mac};
        out := Some(Delta(None, Some(Pair(cp.value.channel, e.partner))));
        record := Some(AlbumDelta(None, Some(Play(cp.value.channel, an, "pass", e.partner))));
      } else if e.pt == "5" {
        if cp.Some? {
          if mac in redis.deadlines { redis.deadlines := redis.deadlines[mac := now + TIME_TTL]; }
          return;
        }
        if disturbed { return; }
        redis.deadlines, redis.cp := redis.deadlines[mac := now + TIME_TTL], redis.cp[mac := e.NewPair()];
        out := Some(Delta(Some(e.NewPair()), None));
        record := Some(AlbumDelta(Some(Play(e.channel, an, "pass", e.partner)), None));
      }
    }
  }

  class TriggerTask {
    /** The expiry of `mac` was announced: drop its session and take it off both counters. */
    method Run(redis: ViewerStore, comp: CounterStore, mac: Mac, disturbed: bool)
      modifies redis, comp
      ensures var (after, d) := Apply(old(redis.View()), Dropped(mac));
              if disturbed then redis.View() == old(redis.View()) && comp.counts == old(comp.counts)
              else redis.View() == after
                   && forall k :: Value(comp.counts, k) == Value(old(comp.counts), k) + Effect(d, k)
      ensures redis.deadlines == old(redis.deadlines)
      ensures redis.cp == if disturbed then old(redis.cp) else old(redis.cp) - {mac}
      ensures disturbed || mac !in old(redis.cp) ==> comp.counts == old(comp.counts)
      ensures !disturbed && mac in old(redis.cp) ==>
        var v := old(redis.cp)[mac];
        forall k :: Value(comp.counts, k) == Value(old(comp.counts), k)
                      - (if k == Total(v.channel) || k == Partner(v.partner, v.channel) then 1 else 0)
    {
      var channelPartner := Lookup(redis.cp, mac);
      if disturbed { return; }
      redis.cp := redis.cp - {mac};
      if channelPartner.Some? {
        var v := channelPartner.value;
        comp.IncrBy(Total(v.channel), -1);
        comp.IncrBy(Partner(v.partner, v.channel), -1);
      }
    }
  }

  class UserCount {
    var cacheMap: Counters

    constructor ()
      ensures cacheMap == map[]
    {
      cacheMap := map[];
    }

    method CacheInMap(k: Key, n: int)
      modifies this
      ensures cacheMap == Bump(old(cacheMap), k, n)
      ensures cacheMap == old(cacheMap)[k := (if k in old(cacheMap) then old(cacheMap)[k] else 0) + n]
    {
      if k in cacheMap {
        cacheMap := cacheMap[k := cacheMap[k] + n];
      } else {
        cacheMap := cacheMap[k := n];
      }
    }

    method MainTain(d: Delta)
      modifies this
      ensures cacheMap == Maintain(old(cacheMap), d)
      ensures forall k :: Value(cacheMap, k) == Value(old(cacheMap), k) + Effect(d, k)
    {
      if d.add.Some? {
        CacheInMap(Total(d.add.value.channel), 1);
        CacheInMap(Partner(d.add.value.partner, d.add.value.channel), 1);
      }
      if d.dec.Some? {
        CacheInMap(Total(d.dec.value.channel), -1);
        CacheInMap(Partner(d.dec.value.partner, d.dec.value.channel), -1);
      }
    }

    /** Adds every cached count to its stored counter, in any order, and empties the cache. */
    method SecondsToRedis(comp: CounterStore)
      modifies this, comp
      ensures cacheMap == map[]
      ensures forall k :: Value(comp.counts, k) == Value(old(comp.counts), k) + Value(old(cacheMap), k)
    {
      var todo := cacheMap.Keys;
      while todo != {}
        invariant todo <= cacheMap.Keys && cacheMap == old(cacheMap)
        invariant forall k :: Value(comp.counts, k)
                              == Value(old(comp.counts), k) + (if k in todo then 0 else Value(old(cacheMap), k))
        decreases todo
      {
        var k :| k in todo;
        comp.IncrBy(k, cacheMap[k]);
        todo := todo - {k};
      }
      cacheMap := map[];
    }
  }
}
