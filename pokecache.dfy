/**
 The timed byte cache of internal/pokecache/pokecache.go: a map from string
 keys to entries stamped with their creation time, and a sweep that drops
 every entry older than the cache's interval.

 The wall clock is an explicit parameter `now` (one integer clock, e.g.
 nanoseconds), and the background ticker becomes `Sweep(now)`, one tick of
 the sweep run on its own. Locking is not modelled: every operation here runs
 to completion before the next starts.
 */
module PokeCache {

  /** One byte of a cached payload (a raw HTTP response body). */
  type Byte = bv8

  /** `cacheEntry`: when the entry was stored, and its payload. */
  datatype Entry = Entry(createAt: int, val: seq<Byte>)

  /** The sweep's test: an entry goes once its age is strictly greater than the interval. */
  predicate Expired(e: Entry, now: int, interval: int)
  {
    now - e.createAt > interval
  }

  /** What one sweep tick at time `now` keeps of a store. */
  function Survivors(m: map<string, Entry>, now: int, interval: int): map<string, Entry>
  {
    map k | k in m && !Expired(m[k], now, interval) :: m[k]
  }

  /** A sweep that has visited every key except those in `pending`. */
  ghost function SweptExcept(m: map<string, Entry>, pending: set<string>, now: int, interval: int): map<string, Entry>
  {
    map k | k in m && (k in pending || !Expired(m[k], now, interval)) :: m[k]
  }

  class Cache {
    /** The key -> entry store, updated in place. */
    var data: map<string, Entry>
    /** The ticker period and time-to-live given to `NewCache`. */
    const interval: int

    /** `NewCache` without its goroutine: the store starts empty. A
        non-positive interval makes the ticker panic, so callers must not pass one. */
    constructor (interval: int)
      requires interval > 0
      ensures this.interval == interval
      ensures data == map[]
    {
      this.interval := interval;
      data := map[];
    }

    /** `Add`: stores `val` under `key`, stamped `now`, replacing any earlier
        entry for `key` and leaving every other key as it was. */
    method Add(key: string, val: seq<Byte>, now: int)
      modifies this
      ensures data == old(data)[key := Entry(now, val)]
      ensures key in data && data[key] == Entry(now, val)
      ensures forall k :: k != key ==> (k in data <==> k in old(data))
      ensures forall k :: k != key && k in data ==> data[k] == old(data)[k]
    {
      data := data[key := Entry(now, val)];
    }

    /** `Get`: the payload stored under `key` and true, or an empty payload
        (Go's nil slice) and false when the key is absent. Reads only. */
    method Get(key: string) returns (val: seq<Byte>, found: bool)
      ensures found <==> key in data
      ensures found ==> val == data[key].val
      ensures !found ==> val == []
    {
      if key !in data {
        return [], false;
      }
      return data[key].val, true;
    }

    /** One tick of the `ReadLoop` goroutine at time `now`: removes exactly
        the entries whose age exceeds the interval; the others stay with the
        same payload and timestamp, and no key is added. The source ranges
        over `data` and reads each `entry` outside the lock, taking the lock
        only around the test and `delete`; here the tick runs alone, so the
        entry read is the one in the store. The tick uses one clock reading
        for every entry, where the source reads the clock once per entry. */
    method Sweep(now: int)
      modifies this
      ensures data == Survivors(old(data), now, interval)
      ensures forall k :: k in data <==> k in old(data) && !Expired(old(data)[k], now, interval)
      ensures forall k :: k in data ==> data[k] == old(data)[k]
    {
      var pending := data.Keys;
      while pending != {}
        invariant pending <= old(data).Keys
        invariant data == SweptExcept(old(data), pending, now, interval)
        decreases pending
      {
        var key :| key in pending;
        if Expired(data[key], now, interval) {
          data := data - {key};
        }
        pending := pending - {key};
      }
    }
  }

  /** Right after a tick at `now`, every entry left is at most `interval` old. */
  lemma SweepLeavesOnlyFresh(m: map<string, Entry>, now: int, interval: int)
    ensures forall k :: k in Survivors(m, now, interval) ==> now - Survivors(m, now, interval)[k].createAt <= interval
  {
  }

  /** A later tick removes everything an earlier one did and more: a tick at
      `now1` followed by one at `now2 >= now1` keeps what a tick at `now2` alone keeps. */
  lemma SweepsCompose(m: map<string, Entry>, now1: int, now2: int, interval: int)
    requires now1 <= now2
    ensures Survivors(Survivors(m, now1, interval), now2, interval) == Survivors(m, now2, interval)
  {
  }

  /** Sweeping twice at the same time gives the same store as sweeping once. */
  lemma SweepIdempotent(m: map<string, Entry>, now: int, interval: int)
    ensures Survivors(Survivors(m, now, interval), now, interval) == Survivors(m, now, interval)
  {
    SweepsCompose(m, now, now, interval);
  }

  /** The sweep treats each entry on its own: adding a still-fresh entry
      before or after a tick gives the same store. */
  lemma SweepCommutesWithFreshAdd(m: map<string, Entry>, key: string, e: Entry, now: int, interval: int)
    requires !Expired(e, now, interval)
    ensures Survivors(m[key := e], now, interval) == Survivors(m, now, interval)[key := e]
  {
  }

  /** An entry stored at `t` is gone after any tick later than `t + interval`,
      whatever else the store holds. */
  lemma ExpiresAfterInterval(m: map<string, Entry>, key: string, val: seq<Byte>, t: int, now: int, interval: int)
    requires now > t + interval
    ensures key !in Survivors(m[key := Entry(t, val)], now, interval)
  {
  }

  /** Overwriting a key resets its age: the second payload survives a tick
      that falls within the interval of the second write, even when that
      tick would have removed the first write. */
  lemma OverwriteResetsExpiry(m: map<string, Entry>, key: string, v1: seq<Byte>, v2: seq<Byte>, t1: int, t2: int, now: int, interval: int)
    requires now - t2 <= interval
    ensures key in Survivors(m[key := Entry(t1, v1)][key := Entry(t2, v2)], now, interval)
    ensures Survivors(m[key := Entry(t1, v1)][key := Entry(t2, v2)], now, interval)[key] == Entry(t2, v2)
  {
  }

  /** A new cache answers every lookup with a miss. */
  method NewCacheMisses(interval: int, key: string) returns (val: seq<Byte>, found: bool)
    requires interval > 0
    ensures !found && val == []
  {
    var c := new Cache(interval);
    val, found := c.Get(key);
  }

  /** Round trip: on any cache, `Add(k, v)` then `Get(k)` yields `(v, true)`. */
  method AddThenGet(c: Cache, key: string, v: seq<Byte>, now: int) returns (val: seq<Byte>, found: bool)
    modifies c
    ensures found && val == v
  {
    c.Add(key, v, now);
    val, found := c.Get(key);
  }

  /** Last write wins, and the second write's time is the one the sweep sees:
      on any cache, `Add(k, v1)` at `t1`, `Add(k, v2)` at `t2`, a tick at `now`
      within the interval of `t2`, then `Get(k)` yields `(v2, true)`. */
  method OverwriteThenSweep(c: Cache, key: string, v1: seq<Byte>, v2: seq<Byte>, t1: int, t2: int, now: int)
    returns (val: seq<Byte>, found: bool)
    requires now - t2 <= c.interval
    modifies c
    ensures found && val == v2
  {
    c.Add(key, v1, t1);
    c.Add(key, v2, t2);
    c.Sweep(now);
    val, found := c.Get(key);
  }

  /** Expiry: on any cache, an entry added at `t` is still served before the
      next tick and missed after a tick later than `t + interval`. */
  method AddSweepGet(c: Cache, key: string, v: seq<Byte>, t: int, now: int)
    returns (before: bool, after: bool)
    requires now > t + c.interval
    modifies c
    ensures before && !after
  {
    c.Add(key, v, t);
    var _, hit := c.Get(key);
    before := hit;
    c.Sweep(now);
    var _, hit2 := c.Get(key);
    after := hit2;
  }

  /** Adding a key leaves a different key's lookup unchanged. */
  method AddKeepsOtherKeys(c: Cache, key: string, other: string, v: seq<Byte>, now: int)
    returns (same: bool)
    requires key != other
    modifies c
    ensures same
  {
    var v0, f0 := c.Get(other);
    c.Add(key, v, now);
    var v1, f1 := c.Get(other);
    same := v0 == v1 && f0 == f1;
  }
}
