/** The `vacancy` table and the rule `Vacancy.save` applies before every write: the
    generation follows the parent vacancy, and the closing time follows the status.
    Moments are whole seconds; "now" is always a parameter. */
module VacancyModel {
  import opened Common

  /** A calendar day as `datetime.date` holds it. */
  datatype Date = Date(day: nat, month: nat, year: nat)

  /** A `DateTimeField` value: midnight of a parsed day, or an instant in seconds. */
  datatype When = OnDay(date: Date) | At(seconds: int)

  const Active := "active"

  /** One row of the vacancy table; foreign keys are held as the referenced row's key:
      the employer's tax id, the job title's (code, name), the settlement's code, the
      dictionary entries' names and the parent vacancy's primary key. */
  datatype VacancyRecord = VacancyRecord(
    employer: string,
    title: string,
    externalId: Option<string>,
    position: (string, string),
    location: string,
    salaryMin: Option<int>,
    salaryMax: Option<int>,
    description: string,
    report3pn: Option<Date>,
    publishedAt: When,
    confirmedAt: Option<When>,
    source: Option<string>,
    employment: Option<string>,
    education: Option<string>,
    degree: Option<string>,
    status: string,
    isActive: bool,
    closedAt: Option<int>,
    parent: Option<nat>,
    generation: int,
    createdAt: int,
    updatedAt: int)

  // ---------------------------------------------------------------- the save rule

  /** The generation `save` stores: one more than the parent's, or the old one when
      there is no parent. */
  function SavedGeneration(generation: int, parentGeneration: Option<int>): int
  {
    if parentGeneration.Some? then parentGeneration.value + 1 else generation
  }

  /** The closing time `save` stores: cleared for an active vacancy, stamped with `now`
      for a closed one that has none, kept otherwise. */
  function SavedClosedAt(status: string, closedAt: Option<int>, now: int): Option<int>
  {
    if status != Active && closedAt.None? then Some(now)
    else if status == Active then None
    else closedAt
  }

  /** The row `save` writes at `now`, given the generation of the parent row it holds;
      `updated_at` is stamped by `auto_now`. */
  function SaveRule(v: VacancyRecord, parentGeneration: Option<int>, now: int): VacancyRecord
  {
    v.(generation := SavedGeneration(v.generation, parentGeneration),
       closedAt := SavedClosedAt(v.status, v.closedAt, now),
       updatedAt := now)
  }

  /** What `update_or_create` writes for an existing vacancy (Django 4.2 and later). It runs `save`, which
      computes `s`, but saves only the fields of `defaults` and those that stamp
      themselves before saving (the date and time fields), so of `save`'s work only the
      closing time and `updated_at` reach the table; the generation it recomputes stays in
      memory. */
  function UpdateSave(rows: map<nat, VacancyRecord>, v: VacancyRecord, now: int): (r: VacancyRecord)
    ensures r.generation == v.generation && r.updatedAt == now
    ensures r.closedAt == SaveRule(v, ParentGeneration(rows, v), now).closedAt
  {
    var s := SaveRule(v, ParentGeneration(rows, v), now);
    v.(closedAt := s.closedAt, updatedAt := s.updatedAt)
  }

  /** The generation of the parent a row points at, read from the table. */
  function ParentGeneration(rows: map<nat, VacancyRecord>, v: VacancyRecord): Option<int>
  {
    if v.parent.Some? && v.parent.value in rows then Some(rows[v.parent.value].generation) else None
  }

  /** With a parent the generation is one more than the parent's; without one it is
      left as it was, so removing a parent does not reset it. */
  lemma SaveGeneration(v: VacancyRecord, parentGeneration: Option<int>, now: int)
    ensures parentGeneration.Some? ==> SaveRule(v, parentGeneration, now).generation == parentGeneration.value + 1
    ensures parentGeneration.None? ==> SaveRule(v, parentGeneration, now).generation == v.generation
  {
  }

  /** After `save` the closing time is empty exactly when the status is "active"; an
      existing closing time of a closed vacancy is kept, a missing one becomes `now`. */
  lemma SaveClosedAt(v: VacancyRecord, parentGeneration: Option<int>, now: int)
    ensures SaveRule(v, parentGeneration, now).closedAt.None? <==> v.status == Active
    ensures v.status != Active && v.closedAt.Some? ==> SaveRule(v, parentGeneration, now).closedAt == v.closedAt
    ensures v.status != Active && v.closedAt.None? ==> SaveRule(v, parentGeneration, now).closedAt == Some(now)
  {
  }

  /** `save` changes no field but the generation, the closing time and `updated_at`. */
  lemma SaveFrame(v: VacancyRecord, parentGeneration: Option<int>, now: int)
    ensures var s := SaveRule(v, parentGeneration, now);
            s.(generation := v.generation, closedAt := v.closedAt, updatedAt := v.updatedAt) == v
            && s.status == v.status && s.isActive == v.isActive && s.parent == v.parent
  {
  }

  /** Saving again at the same moment, with the same parent, changes nothing more. */
  lemma SaveIdempotent(v: VacancyRecord, parentGeneration: Option<int>, now: int)
    ensures var s := SaveRule(v, parentGeneration, now);
            SaveRule(s, parentGeneration, now) == s
  {
  }

  /** The generations of a chain of vacancies, each the parent of the next, saved root
      first from their stored generations `stored`. */
  function ChainGenerations(stored: seq<int>): (r: seq<int>)
    ensures |r| == |stored|
  {
    if stored == [] then []
    else if |stored| == 1 then [SavedGeneration(stored[0], None)]
    else
      var before := ChainGenerations(stored[..|stored| - 1]);
      before + [SavedGeneration(stored[|stored| - 1], Some(before[|before| - 1]))]
  }

  /** When a chain is saved root first and the root keeps its default generation 1, the
      k-th vacancy (the root being the first) has generation k, whatever the others
      stored before. */
  lemma {:induction false} ChainGenerationIsDepth(stored: seq<int>)
    requires stored != [] && stored[0] == 1
    ensures forall k :: 0 <= k < |stored| ==> ChainGenerations(stored)[k] == k + 1
  {
    if |stored| > 1 {
      var n := |stored| - 1;
      assert stored[..n][0] == stored[0];
      ChainGenerationIsDepth(stored[..n]);
    }
  }

  // ---------------------------------------------------------------- the table

  /** The vacancy table, keyed by primary key, with the next key the database hands out,
      and the `VacancySource` table (code to name). */
  class VacancyStore {
    var rows: map<nat, VacancyRecord>
    var nextId: nat
    var sources: map<string, string>

    /** Every key was handed out before `nextId`, and `external_id` is unique. */
    predicate Valid()
      reads this
    {
      (forall id :: id in rows ==> id < nextId) && UniqueExternalIds(rows)
    }

    constructor ()
      ensures Valid() && rows == map[] && sources == map[]
    {
      rows, nextId, sources := map[], 0, map[];
    }

    /** `Vacancy.save` on the row with key `id` holding `v`: the save rule applied with
        the parent's generation as stored, and the result written back. */
    method Save(id: nat, v: VacancyRecord, now: int) returns (saved: VacancyRecord)
      modifies this
      ensures saved == SaveRule(v, ParentGeneration(old(rows), v), now)
      ensures rows == old(rows)[id := saved] && nextId == old(nextId) && sources == old(sources)
    {
      var parentGeneration := None;
      if v.parent.Some? && v.parent.value in rows {
        parentGeneration := Some(rows[v.parent.value].generation);
      }
      saved := SaveRule(v, parentGeneration, now);
      rows := rows[id := saved];
    }

    /** The `save` of `update_or_create` on the existing row `id` holding `v`: only the
        closing time and `updated_at` of the save rule are written back. */
    method SaveExisting(id: nat, v: VacancyRecord, now: int) returns (saved: VacancyRecord)
      modifies this
      ensures saved == UpdateSave(old(rows), v, now)
      ensures rows == old(rows)[id := saved] && nextId == old(nextId) && sources == old(sources)
    {
      var parentGeneration := None;
      if v.parent.Some? && v.parent.value in rows {
        parentGeneration := Some(rows[v.parent.value].generation);
      }
      var s := SaveRule(v, parentGeneration, now);
      saved := v.(closedAt := s.closedAt, updatedAt := s.updatedAt);
      rows := rows[id := saved];
    }
  }

  /** The unique constraint on `external_id` (empty values are not exempt). */
  predicate UniqueExternalIds(rows: map<nat, VacancyRecord>)
  {
    forall i, j :: i in rows && j in rows && rows[i].externalId.Some? && rows[i].externalId == rows[j].externalId ==> i == j
  }
}
