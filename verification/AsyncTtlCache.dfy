/**
 The cache object itself. Each method is the code one task runs without suspending, with its own
 `async with` blocks; the contracts say that it does to the fields what the step system says, and
 that the lock is free again when the task suspends. So acquiring the lock never suspends a task.
 */
module AsyncTtlCache {
  import opened Options
  import opened SingleFlight

  class AsyncTTLCache<V> {
    const ttl: real
    var cache: map<Key, (real, V)>
    var inflight: map<Key, nat>
    var futures: seq<Future<V>>
    var locked: bool

    ghost function View(): Shared<V>
      reads this
    {
      Shared(ttl, cache, inflight, futures)
    }

    constructor (ttl: real)
      ensures View() == Init<V>(ttl).shared && !locked
    {
      this.ttl := ttl;
      cache, inflight, futures, locked := map[], map[], [], false;
    }

    /** Reports whether the caller has to suspend. */
    method Acquire() returns (suspends: bool)
      modifies this`locked
      ensures suspends == old(locked) && locked
    {
      suspends := locked;
      locked := true;
    }

    /** `get_or_compute` up to its first suspension. */
    method Begin(caller: Caller, key: Key, now: real) returns (entry: Entry<V>, suspends: bool)
      requires !locked
      modifies this
      ensures entry == Enter(old(View()), key, now)
      ensures View() == AfterEnter(old(View()), caller, key, now)
      ensures !suspends && !locked
      // a value younger than the time to live is served and changes nothing
      ensures key in old(cache) && now - old(cache)[key].0 < ttl ==> entry == Hit(old(cache)[key].1) && View() == old(View())
      ensures !(key in old(cache) && now - old(cache)[key].0 < ttl) ==> !entry.Hit?
    {
      var isOwner := false;
      suspends := Acquire();
      if key in cache && now - cache[key].0 < ttl {
        entry := Hit(cache[key].1);
        locked := false;
        return;
      }
      var fut: nat;
      if key !in inflight {
        fut := |futures|;
        futures := futures + [Future(key, caller, Pending)];
        inflight := inflight[key := fut];
        isOwner := true;
      } else {
        fut := inflight[key];
      }
      locked := false;
      entry := if isOwner then Own(fut) else Join(fut);
    }

    /** `get_or_compute` after its factory, with the value it returned or the error it raised. */
    method Complete(key: Key, fut: nat, outcome: Status<V>, now: real) returns (suspends: bool)
      requires !locked && fut < |futures| && !outcome.Pending?
      modifies this
      ensures View() == AfterFactory(old(View()), key, fut, outcome, now)
      ensures !suspends && !locked
    {
      suspends := false;
      if outcome.Failure? {
        if futures[fut].status.Pending? {
          futures := futures[fut := futures[fut].(status := outcome)];
        }
      } else {
        suspends := Acquire();
        cache := cache[key := (now, outcome.value)];
        locked := false;
        if futures[fut].status.Pending? {
          futures := futures[fut := futures[fut].(status := outcome)];
        }
      }
      inflight := inflight - {key};
    }

    method Drop(key: Option<Key>)
      requires !locked
      modifies this
      ensures View() == AfterInvalidate(old(View()), key) && !locked
    {
      if key == None {
        cache := map[];
      } else {
        cache := cache - {key.value};
      }
    }
  }
}
