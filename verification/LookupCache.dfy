/** The two-sided cache of lookup answers; which entries an insertion evicts is left open. */
module LookupCaches {
  import opened Prelude

  datatype Item = IsAccount(name: string) | Authenticate(credentials: string) | Verify(name: string) | Expand(name: string)

  type Time = nat

  datatype Ttl = Ttl(pos: Time, neg: Time)

  /** For either answer, the instants until which it is valid. */
  datatype Cache = Cache(pos: map<Item, Time>, neg: map<Item, Time>)

  const EMPTY: Cache := Cache(map[], map[])

  function Find(c: Cache, item: Item, now: Time): Option<bool> {
    if item in c.pos && c.pos[item] >= now then Some(true)
    else if item in c.neg && c.neg[item] >= now then Some(false)
    else None
  }

  /** Looking up drops an expired positive entry; an expired negative one stays. */
  function AfterFind(c: Cache, item: Item, now: Time): Cache {
    if item in c.pos && c.pos[item] < now then c.(pos := c.pos - {item}) else c
  }

  function Insert(c: Cache, item: Item, answer: bool, now: Time, ttl: Ttl, evicted: set<Item>): Cache {
    if answer then c.(pos := c.pos[item := now + ttl.pos] - evicted)
    else c.(neg := c.neg[item := now + ttl.neg] - evicted)
  }

  /**
    A lookup never drops a negative entry, not even an expired one. It makes no difference: the cache
    answers every later lookup as if the entry were gone.
  */
  lemma StaleNegativeIsHarmless(c: Cache, item: Item, now: Time, other: Item, later: Time)
    requires item in c.neg && c.neg[item] < now <= later
    ensures item in AfterFind(c, item, now).neg
    ensures Find(AfterFind(c, item, now), other, later) == Find(AfterFind(c, item, now).(neg := c.neg - {item}), other, later)
  {
  }

  class LookupCache {
    var cachePos: map<Item, Time>
    var cacheNeg: map<Item, Time>
    const ttl: Ttl

    function Contents(): Cache
      reads this
    {
      Cache(cachePos, cacheNeg)
    }

    constructor (ttl: Ttl)
      ensures Contents() == EMPTY && this.ttl == ttl
    {
      cachePos, cacheNeg := map[], map[];
      this.ttl := ttl;
    }

    method Get(item: Item, now: Time) returns (r: Option<bool>)
      modifies this
      ensures r == Find(old(Contents()), item, now)
      ensures Contents() == AfterFind(old(Contents()), item, now)
    {
      if item in cachePos {
        if cachePos[item] >= now {
          return Some(true);
        }
        cachePos := cachePos - {item};
      }
      if item !in cacheNeg {
        return None;
      }
      if cacheNeg[item] >= now {
        return Some(false);
      }
      cachePos := cachePos - {item};
      r := None;
    }

    method InsertAnswer(item: Item, answer: bool, now: Time, evicted: set<Item>)
      modifies this
      ensures Contents() == Insert(old(Contents()), item, answer, now, ttl, evicted)
    {
      if answer {
        cachePos := cachePos[item := now + ttl.pos] - evicted;
      } else {
        cacheNeg := cacheNeg[item := now + ttl.neg] - evicted;
      }
    }

    method Clear()
      modifies this
      ensures Contents() == EMPTY
    {
      cachePos, cacheNeg := map[], map[];
    }
  }
}
