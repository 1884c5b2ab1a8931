/**
 * The progress counters of a migration run: keys discovered, keys migrated,
 * keys that failed. Each counter changes only through its own method.
 */
module MigrationStats {

  /** A snapshot of the three counters. */
  datatype Counters = Counters(total: int, migrated: int, failed: int)

  /** One counter update, as the methods of Stats perform them. */
  datatype Event = TotalSet(total: int) | MigratedOne | FailedOne

  /** The effect of one update on a snapshot. */
  function Step(c: Counters, e: Event): Counters
  {
    match e
    case TotalSet(t) => c.(total := t)
    case MigratedOne => c.(migrated := c.migrated + 1)
    case FailedOne => c.(failed := c.failed + 1)
  }

  /** The counters of a fresh Stats after the given updates, in order. */
  function Replay(events: seq<Event>): Counters
  {
    if events == [] then Counters(0, 0, 0)
    else Step(Replay(events[..|events| - 1]), events[|events| - 1])
  }

  /** The last total set, or 0 when none was. */
  function LastTotal(events: seq<Event>): int
  {
    if events == [] then 0
    else if events[|events| - 1].TotalSet? then events[|events| - 1].total
    else LastTotal(events[..|events| - 1])
  }

  /** How many of the updates are `e`. */
  function Occurrences(events: seq<Event>, e: Event): nat
  {
    if events == [] then 0
    else Occurrences(events[..|events| - 1], e) + (if events[|events| - 1] == e then 1 else 0)
  }

  /** After any updates, the snapshot is the last total set (or 0), the
      number of migrated increments and the number of failed increments. */
  lemma {:induction false} ReplayCounts(events: seq<Event>)
    ensures Replay(events) == Counters(LastTotal(events), Occurrences(events, MigratedOne), Occurrences(events, FailedOne))
  {
    if events != [] {
      ReplayCounts(events[..|events| - 1]);
    }
  }

  /** Further updates never decrease the migrated and failed counters. */
  lemma {:induction false} ReplayMonotone(events: seq<Event>, more: seq<Event>)
    ensures Replay(events + more).migrated >= Replay(events).migrated
    ensures Replay(events + more).failed >= Replay(events).failed
    decreases |more|
  {
    if more != [] {
      var init := more[..|more| - 1];
      assert (events + more)[..|events + more| - 1] == events + init;
      ReplayMonotone(events, init);
    } else {
      assert events + more == events;
    }
  }

  class Stats {
    var totalKeys: int
    var migratedKeys: int
    var failedKeys: int
    /** Every update applied since construction. */
    ghost var history: seq<Event>

    ghost predicate Valid()
      reads this
    {
      Counters(totalKeys, migratedKeys, failedKeys) == Replay(history)
    }

    /** Newstats: all counters zero. */
    constructor ()
      ensures Valid() && history == []
      ensures totalKeys == 0 && migratedKeys == 0 && failedKeys == 0
    {
      totalKeys, migratedKeys, failedKeys := 0, 0, 0;
      history := [];
    }

    method SetTotalKeys(total: int)
      requires Valid()
      modifies this
      ensures Valid() && history == old(history) + [TotalSet(total)]
      ensures totalKeys == total && migratedKeys == old(migratedKeys) && failedKeys == old(failedKeys)
    {
      totalKeys := total;
      history := history + [TotalSet(total)];
      assert history[..|history| - 1] == old(history);
    }

    method IncrementMigratedKeys()
      requires Valid()
      modifies this
      ensures Valid() && history == old(history) + [MigratedOne]
      ensures migratedKeys == old(migratedKeys) + 1 && totalKeys == old(totalKeys) && failedKeys == old(failedKeys)
    {
      migratedKeys := migratedKeys + 1;
      history := history + [MigratedOne];
      assert history[..|history| - 1] == old(history);
    }

    method IncrementFailedKeys()
      requires Valid()
      modifies this
      ensures Valid() && history == old(history) + [FailedOne]
      ensures failedKeys == old(failedKeys) + 1 && totalKeys == old(totalKeys) && migratedKeys == old(migratedKeys)
    {
      failedKeys := failedKeys + 1;
      history := history + [FailedOne];
      assert history[..|history| - 1] == old(history);
    }

    /** GetStats: the current triple; with Valid, the last total set, the
        number of migrated increments and the number of failed increments. */
    method GetStats() returns (total: int, migrated: int, failed: int)
      ensures total == totalKeys && migrated == migratedKeys && failed == failedKeys
      ensures Valid() ==> total == LastTotal(history) && migrated == Occurrences(history, MigratedOne)
                          && failed == Occurrences(history, FailedOne)
    {
      ReplayCounts(history);
      return totalKeys, migratedKeys, failedKeys;
    }
  }

  /** A run as the progress tracker sees it: set the total, then record two
      migrated keys and one failed key. */
  method CountedRun() returns (total: int, migrated: int, failed: int)
    ensures total == 3 && migrated == 2 && failed == 1
  {
    var s := new Stats();
    s.SetTotalKeys(3);
    s.IncrementMigratedKeys();
    s.IncrementFailedKeys();
    s.IncrementMigratedKeys();
    total, migrated, failed := s.GetStats();
  }
}
