/** The idempotency cache: timed ABSENT / IN_FLIGHT / DONE entries with a fail-closed size limit. */
module Idempotency {
  import opened Common
  import opened Errors

  /** A version 4 UUID. */
  type Key = nat

  datatype Entry = Entry(result: Option<Json>, createdAt: nat, inFlight: bool)

  datatype Status = New | InFlight | Cached(body: Json) | Full

  type Entries = map<Key, Entry>

  /** Saturating `Instant` difference. */
  function Age(now: nat, since: nat): nat {
    if now >= since then now - since else 0
  }

  /** `retain` drops an entry whose age has reached the time to live ... */
  predicate Stale(entry: Entry, now: nat, ttl: nat) {
    Age(now, entry.createdAt) >= ttl
  }

  /** ... while `entry` overwrites one only when its age is past it. */
  predicate Expired(entry: Entry, now: nat, ttl: nat) {
    Age(now, entry.createdAt) > ttl
  }

  /** One visit of the purge. */
  function Visit(entries: Entries, key: Key, now: nat, ttl: nat): Entries {
    if key in entries && Stale(entries[key], now, ttl) then entries - {key} else entries
  }

  /** The whole purge, when nothing runs beside it. */
  function Retained(entries: Entries, now: nat, ttl: nat): Entries {
    map key | key in entries && !Stale(entries[key], now, ttl) :: entries[key]
  }

  function Reserved(now: nat): Entry {
    Entry(None, now, true)
  }

  /** The answer given under the entry lock; `full` is the size test made before taking it. */
  function Answer(entries: Entries, key: Key, now: nat, ttl: nat, full: bool): Status {
    if key in entries then
      if Expired(entries[key], now, ttl) then New
      else if entries[key].inFlight then InFlight
      else match entries[key].result
           case Some(body) => Cached(body)
           case None => InFlight
    else if full then Full else New
  }

  function AfterAnswer(entries: Entries, key: Key, now: nat, ttl: nat, full: bool): Entries {
    if Answer(entries, key, now, ttl, full) == New then entries[key := Reserved(now)] else entries
  }

  /** The answer by the instants alone: an entry is replaced only when it is older than the time to live, and
      at exactly that age it still answers, if the purge has left it. */
  lemma AnswerMeans(entries: Entries, key: Key, now: nat, ttl: nat, full: bool, body: Json)
    requires Consistent(entries)
    ensures var status := Answer(entries, key, now, ttl, full);
            && (status == New <==> if key in entries then now > entries[key].createdAt + ttl else !full)
            && (status == Full <==> key !in entries && full)
            && (status == InFlight <==>
                  key in entries && now <= entries[key].createdAt + ttl && entries[key].result.None?)
            && (status == Cached(body) <==>
                  key in entries && now <= entries[key].createdAt + ttl && entries[key].result == Some(body))
  {
  }

  /** What one visit of the purge keeps: an entry strictly younger than the time to live. */
  lemma VisitMeans(entries: Entries, key: Key, now: nat, ttl: nat)
    requires ttl >= 1
    ensures key in Visit(entries, key, now, ttl) <==> key in entries && now < entries[key].createdAt + ttl
  {
  }

  function Completed(entries: Entries, key: Key, body: Json): Entries {
    if key in entries then entries[key := entries[key].(inFlight := false, result := Some(body))] else entries
  }

  /** In flight exactly while there is no result, so the defensive arm of `Answer` is never taken. */
  ghost predicate Consistent(entries: Entries) {
    forall key :: key in entries ==> (entries[key].inFlight <==> entries[key].result.None?)
  }

  lemma RetainedCardinality(entries: Entries, now: nat, ttl: nat)
    ensures |Retained(entries, now, ttl)| <= |entries|
  {
    CardinalitySubset(Retained(entries, now, ttl).Keys, entries.Keys);
  }

  lemma {:induction false} CardinalitySubset<T>(small: set<T>, large: set<T>)
    requires small <= large
    ensures |small| <= |large|
  {
    if x :| x in small {
      CardinalitySubset(small - {x}, large - {x});
    }
  }

  class IdempotencyCache {
    var entries: Entries
    const maxEntries: nat
    const ttl: nat

    ghost predicate Valid()
      reads this
    {
      Consistent(entries)
    }

    constructor (maxEntries: nat, ttl: nat)
      ensures Valid() && entries == map[] && this.maxEntries == maxEntries && this.ttl == ttl
    {
      this.entries, this.maxEntries, this.ttl := map[], maxEntries, ttl;
    }

    /** Visits the keys in any order, against the one instant read before the first visit. */
    method PurgeExpired(now: nat)
      requires Valid()
      modifies this`entries
      ensures Valid()
      ensures entries == Retained(old(entries), now, ttl)
    {
      var todo := entries.Keys;
      while todo != {}
        invariant todo <= entries.Keys <= old(entries).Keys
        invariant forall key :: key in entries ==> entries[key] == old(entries)[key]
        invariant forall key :: key in entries && key !in todo ==> !Stale(entries[key], now, ttl)
        invariant forall key :: key in old(entries) && key !in entries ==> Stale(old(entries)[key], now, ttl)
        decreases todo
      {
        var key :| key in todo;
        entries := Visit(entries, key, now, ttl);
        todo := todo - {key};
      }
    }

    /**
     * With no other caller in between: `purgeAt` is the instant read by the purge and `now` the one
     * read under the entry lock. The map stays within its limit, an answer other than `New` leaves
     * the purged map alone, `New` is given exactly when no live entry exists and a slot is free,
     * and `Full` means the key is absent.
     */
    method CheckOrInsert(key: Key, purgeAt: nat, now: nat) returns (status: Status)
      requires Valid()
      requires purgeAt <= now
      modifies this`entries
      ensures Valid()
      ensures status == Answer(Retained(old(entries), purgeAt, ttl), key, now, ttl,
                               |Retained(old(entries), purgeAt, ttl)| >= maxEntries)
      ensures status == New ==> entries == Retained(old(entries), purgeAt, ttl)[key := Entry(None, now, true)]
      ensures status != New ==> entries == Retained(old(entries), purgeAt, ttl)
      ensures status == Full ==> key !in entries && entries - {key} == entries && |entries| >= maxEntries
      ensures |old(entries)| <= maxEntries ==> |entries| <= maxEntries
      ensures key in old(entries) && old(entries)[key].createdAt <= now < old(entries)[key].createdAt + ttl ==>
                status == match old(entries)[key].result { case Some(body) => Cached(body) case None => InFlight }
    {
      RetainedCardinality(entries, purgeAt, ttl);
      PurgeExpired(purgeAt);
      var atCapacity := |entries| >= maxEntries;
      if key in entries {
        var entry := entries[key];
        if Expired(entry, now, ttl) {
          entries := entries[key := entry.(result := None, createdAt := now, inFlight := true)];
          return New;
        } else if entry.inFlight {
          return InFlight;
        } else if entry.result.Some? {
          return Cached(entry.result.value);
        } else {
          return InFlight;
        }
      }
      if atCapacity {
        return Full;
      }
      entries := entries[key := Reserved(now)];
      return New;
    }

    method Complete(key: Key, result: Json)
      requires Valid()
      modifies this`entries
      ensures Valid()
      ensures entries.Keys == old(entries).Keys
      ensures forall k :: k in entries && k != key ==> entries[k] == old(entries)[k]
      ensures key in entries ==> entries[key] == Entry(Some(result), old(entries)[key].createdAt, false)
    {
      if key in entries {
        entries := Completed(entries, key, result);
      }
    }

    method Remove(key: Key)
      requires Valid()
      modifies this`entries
      ensures Valid()
      ensures entries == old(entries) - {key}
    {
      entries := entries - {key};
    }
  }

  /** Sequential life of one key: reserve, commit, and every repeat before the expiry replays the committed body. */
  method ReserveCommitReplay(
      cache: IdempotencyCache, key: Key, result: Json, start: nat, later: nat) returns (first: Status,
      second: Status)
    requires cache.Valid() && start <= later
    modifies cache
    ensures first == New && later < start + cache.ttl ==> second == Cached(result)
  {
    first := cache.CheckOrInsert(key, start, start);
    if first == New {
      cache.Complete(key, result);
      assert cache.entries[key].createdAt == start;
    }
    second := cache.CheckOrInsert(key, later, later);
  }
}
