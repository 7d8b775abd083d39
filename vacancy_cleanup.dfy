/** The `cleanup_vacancies` command: one bulk update switches `is_active` off for every
    active vacancy created more than ninety days before "now". The update goes straight
    to the database, so `save` is not called and nothing else changes. */
module VacancyCleanup {
  import opened VacancyModel

  const SecondsPerDay := 86400
  const MaxAgeDays := 90

  /** `timezone.now() - timedelta(days=90)`. */
  function Threshold(now: int): int
  {
    now - MaxAgeDays * SecondsPerDay
  }

  /** The keys the filter selects: active, and created strictly before the threshold.
      The ensures only spares callers unfolding the set comprehension. */
  function Matches(rows: map<nat, VacancyRecord>, now: int): (r: set<nat>)
    ensures forall id :: id in r <==> id in rows && rows[id].isActive && rows[id].createdAt < Threshold(now)
  {
    set id | id in rows && rows[id].isActive && rows[id].createdAt < Threshold(now)
  }

  /** The table after the update. */
  function Deactivated(rows: map<nat, VacancyRecord>, now: int): (r: map<nat, VacancyRecord>)
    ensures r.Keys == rows.Keys
  {
    map id | id in rows :: if id in Matches(rows, now) then rows[id].(isActive := false) else rows[id]
  }

  /** `handle`: the number reported is the number of matches before the update. */
  method Cleanup(store: VacancyStore, now: int) returns (count: nat)
    modifies store
    ensures count == |Matches(old(store.rows), now)|
    ensures store.rows == Deactivated(old(store.rows), now)
    ensures store.nextId == old(store.nextId) && store.sources == old(store.sources)
  {
    var oldVacancies := Matches(store.rows, now);
    count := |oldVacancies|;
    if count > 0 {
      store.rows := map id | id in store.rows :: if id in oldVacancies then store.rows[id].(isActive := false) else store.rows[id];
    } else {
      assert oldVacancies == {};
      assert store.rows == Deactivated(store.rows, now);
    }
  }

  /** Exactly the matching vacancies end inactive; every other field of every row, the
      status and the closing time included, is as before. */
  lemma {:induction false} DeactivatesExactlyMatches(rows: map<nat, VacancyRecord>, now: int)
    ensures var r := Deactivated(rows, now);
            forall id :: id in rows ==>
              r[id].(isActive := rows[id].isActive) == rows[id]
              && (r[id].isActive <==> rows[id].isActive && id !in Matches(rows, now))
  {
    var r := Deactivated(rows, now);
    forall id | id in rows
      ensures r[id].(isActive := rows[id].isActive) == rows[id]
      ensures r[id].isActive <==> rows[id].isActive && id !in Matches(rows, now)
    {
      assert r[id] == if id in Matches(rows, now) then rows[id].(isActive := false) else rows[id];
    }
  }

  /** A second run at the same "now" matches nothing and leaves the table as it is. */
  lemma {:induction false} SecondRunMatchesNothing(rows: map<nat, VacancyRecord>, now: int)
    ensures Matches(Deactivated(rows, now), now) == {}
    ensures Deactivated(Deactivated(rows, now), now) == Deactivated(rows, now)
  {
    var r := Deactivated(rows, now);
    DeactivatesExactlyMatches(rows, now);
    forall id | id in r
      ensures !(r[id].isActive && r[id].createdAt < Threshold(now))
    {
      assert r[id].createdAt == rows[id].createdAt;
    }
    assert Matches(r, now) == {};
  }

  /** An active vacancy created at or after the threshold stays active. */
  lemma RecentStaysActive(rows: map<nat, VacancyRecord>, now: int, id: nat)
    requires id in rows && rows[id].isActive && rows[id].createdAt >= Threshold(now)
    ensures Deactivated(rows, now)[id] == rows[id]
  {
  }
}
