/** The limiter object: `src/server.rs:656-703` updating the failure map in place. */
module AuthLimiterObject {
  import opened Common
  import opened Limiter
  import opened LimiterHistory

  datatype Outcome = RateLimited | WrongPassword | Unlocked

  class AuthLimiter {
    var failures: Failures
    ghost var log: Log
    ghost var mark: Instant

    ghost function View(): World
      reads this
    {
      World(failures, log, mark)
    }

    ghost predicate Valid()
      reads this
    {
      Inv(View())
    }

    constructor ()
      ensures Valid() && View() == EMPTY
    {
      failures, log, mark := map[], [], 0;
      new;
      EmptyOk();
    }

    /** The inner loop of `prune_auth_failures`. Time order is what makes it keep exactly the recent failures. */
    static method PopFront(q: Deque, now: Instant) returns (rest: Deque)
      requires Sorted(q)
      ensures rest == InWindow(q, now)
    {
      rest := q;
      while rest != [] && !Recent(rest[0], now)
        invariant Sorted(rest) && PopExpired(rest, now) == PopExpired(q, now)
        decreases |rest|
      {
        rest := rest[1..];
      }
      SortedPops(q, now);
    }

    /** `prune_auth_failures`: every deque loses its expired failures, and an emptied one its key. */
    method PruneInPlace(now: Instant)
      requires forall key :: key in failures ==> Sorted(failures[key])
      modifies this`failures
      ensures failures == Prune(old(failures), now)
    {
      var before, rest := failures, failures.Keys;
      while rest != {}
        invariant rest <= before.Keys && HalfPruned(before, failures, rest, now)
        decreases rest
      {
        var key :| key in rest;
        var values := PopFront(failures[key], now);
        SortedPops(failures[key], now);
        if values == [] {
          failures := failures - {key};
        } else {
          failures := failures[key := values];
        }
        rest := rest - {key};
      }
    }

    method RateLimited(key: Key, now: Instant) returns (refused: bool)
      requires Valid()
      modifies this
      ensures Valid() && View() == Next(old(View()), Checked(key, now))
      ensures refused <==> Refuses(failures, key)
    {
      ghost var w := View();
      StepKeeps(w, Checked(key, now));
      DequesSorted(w);
      PruneInPlace(now);
      refused := (key in failures && |failures[key]| >= MAX_FAILURES) || (key !in failures && |failures| >= MAX_KEYS);
      log, mark := log + [Done(Checked(key, now), !Refuses(failures, key))], Later(mark, now);
    }

    method PushInPlace(key: Key, now: Instant)
      modifies this`failures
      ensures failures == Push(old(failures), key, now)
    {
      if |failures| >= MAX_KEYS && key !in failures {
        return;
      }
      if key !in failures {
        failures := failures[key := []];
      }
      if |failures[key]| < MAX_FAILURES {
        failures := failures[key := failures[key] + [now]];
      }
    }

    method Record(key: Key, now: Instant)
      requires Valid() && mark <= now
      modifies this
      ensures Valid() && View() == Next(old(View()), Failed(key, now))
    {
      ghost var w := View();
      StepKeeps(w, Failed(key, now));
      DequesSorted(w);
      PruneInPlace(now);
      PushInPlace(key, now);
      log, mark := Next(w, Failed(key, now)).log, now;
    }

    method Clear(key: Key)
      requires Valid()
      modifies this
      ensures Valid() && View() == Next(old(View()), Succeeded(key))
    {
      StepKeeps(View(), Succeeded(key));
      failures := failures - {key};
      log := log + [Done(Succeeded(key), true)];
    }

    /** The calls `unlock` makes, in its order, around a password verification whose result is `correct`. It refuses by the
        failures on record at the latest reading; a log that was complete before stays complete. */
    method Unlock(key: Key, correct: bool, checkedAt: Instant, doneAt: Instant) returns (outcome: Outcome)
      requires Valid() && mark <= doneAt && checkedAt <= doneAt
      modifies this
      ensures Valid() && View() == UnlockStep(old(View()), LimiterHistory.Unlock(key, correct, checkedAt, doneAt))
      ensures var recent := InWindow(Accepted(old(log), key), Later(old(mark), checkedAt));
        outcome.RateLimited? <==> |recent| >= 5 || (recent == [] && |Prune(old(failures), checkedAt)| >= 4096)
      ensures !outcome.RateLimited? ==> outcome == if correct then Unlocked else WrongPassword
      ensures outcome.Unlocked? ==> key !in failures && Attempts(log, key) == []
      ensures outcome.WrongPassword? ==>
        key in failures && failures[key] == InWindow(Accepted(old(log), key), doneAt) + [doneAt]
      ensures outcome.RateLimited? ==> Accepted(log, key) == Accepted(old(log), key)
      ensures forall k :: k != key ==> Accepted(log, k) == Accepted(old(log), k)
      ensures old(AllRecorded(log)) && old(mark) <= checkedAt ==> AllRecorded(log)
    {
      ghost var w, call := View(), LimiterHistory.Unlock(key, correct, checkedAt, doneAt);
      RefusesExactly(w, key, checkedAt);
      forall k ensures k != key ==> Accepted(UnlockStep(w, call).log, k) == Accepted(w.log, k) {
        UnlockExactly(w, call, k);
      }
      UnlockExactly(w, call, key);
      if AllRecorded(log) && mark <= checkedAt {
        UnlockKeeps(w, call);
      }
      var refused := RateLimited(key, checkedAt);
      if refused {
        return Outcome.RateLimited;
      }
      if correct {
        Clear(key);
        return Unlocked;
      }
      Record(key, doneAt);
      return WrongPassword;
    }
  }

  ghost predicate HalfPruned(before: Failures, m: Failures, rest: set<Key>, now: Instant) {
    forall key :: if key in rest then key in before && key in m && m[key] == before[key]
                  else Get(m, key) == Get(Prune(before, now), key)
  }

  lemma DequesSorted(w: World)
    requires Inv(w)
    ensures forall key :: key in w.failures ==> Sorted(w.failures[key])
  {
    forall key | key in w.failures ensures Sorted(w.failures[key]) {
      assert KeyOk(w.failures, w.log, w.mark, key);
      InWindowSorted(Accepted(w.log, key), w.mark);
    }
  }

  /** A check refuses a key with five failures on record in the window, and a key without any when the map is full. The
      window ends at the latest reading: the check's own, or that of a sweep that came before it. */
  lemma RefusesExactly(w: World, key: Key, now: Instant)
    requires Inv(w)
    ensures var recent := InWindow(Accepted(w.log, key), Later(w.mark, now));
      Refuses(Prune(w.failures, now), key) <==> |recent| >= 5 || (recent == [] && |Prune(w.failures, now)| >= 4096)
  {
    assert KeyOk(w.failures, w.log, w.mark, key);
    SweptKey(w.failures, w.log, w.mark, now, key);
  }
}
