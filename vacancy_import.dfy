/** The `import_vacancies` command: each row of the file names an employer by tax id, a
    job title by code and a place by settlement or city-district code; a row that lacks
    one of them, or names one that does not exist, is an error. The others are written
    with `update_or_create` keyed by `external_id`, which runs `Vacancy.save` and, for an
    existing row, stores only part of what it computes (`UpdateSave`). */
module VacancyImport {
  import opened Common
  import opened LocationData
  import opened VacancyModel
  import opened VacancyParsing

  /** The stripped cells of one row (`row.get(key, '').strip()`). */
  datatype VacancyFields = VacancyFields(
    taxId: string, externalId: string, posCode: string, locCode: string,
    salaryMin: string, salaryMax: string, description: string, report3pn: string,
    publishedAt: string, education: string, degree: string, confirmedAt: string)

  /** What the other tables answer: the employers' tax ids; for each job-title code, the
      name of the title `first()` returns (the smallest name; the table's ordering is by
      code, then name); the location tables; the names of the education levels and the
      degrees; and the first employment type and education level by their ordering. */
  datatype Lookups = Lookups(
    employers: set<string>,
    titleOf: map<string, string>,
    geo: Geo,
    educations: set<string>,
    degrees: set<string>,
    defaultEmployment: Option<string>,
    defaultEducation: Option<string>)

  /** The `VacancySource` every imported vacancy is given. */
  const SourceCode := "dsz"
  const SourceName := "Державна служба зайнятості"

  /** The `defaults` an accepted row writes. */
  datatype VacancyValues = VacancyValues(
    employer: string, title: string, position: (string, string), location: string,
    salaryMin: Option<int>, salaryMax: Option<int>, description: string,
    report3pn: Option<Date>, publishedAt: When, confirmedAt: Option<When>,
    source: Option<string>, employment: Option<string>, education: Option<string>,
    degree: Option<string>)

  // ---------------------------------------------------------------- one row

  function AsMoment(d: Option<Date>): Option<When>
  {
    if d.Some? then Some(OnDay(d.value)) else None
  }

  /** The values of a row whose employer, job title and place all resolve. */
  function Values(env: Lookups, f: VacancyFields, now: int): Option<VacancyValues>
  {
    if f.taxId == "" || f.posCode == "" || f.locCode == "" then None
    else if f.taxId !in env.employers || f.posCode !in env.titleOf then None
    else
      var location := ResolveSettlement(env.geo, f.locCode);
      if location.None? then None
      else
        var name := env.titleOf[f.posCode];
        var education := if f.education != "" then (if f.education in env.educations then Some(f.education) else None)
                         else env.defaultEducation;
        var degree := if f.degree != "" && f.degree in env.degrees then Some(f.degree) else None;
        var salary := NormalizeSalary(f.salaryMin, f.salaryMax);
        var published := ParseDate(f.publishedAt);
        Some(VacancyValues(f.taxId, name, (f.posCode, name), location.value, salary.0, salary.1,
                           if f.description != "" then f.description else name,
                           ParseDate(f.report3pn),
                           if published.Some? then OnDay(published.value) else At(now),
                           AsMoment(ParseDate(f.confirmedAt)),
                           Some(SourceCode), env.defaultEmployment, education, degree))
  }

  /** Values the database refuses: a missing employment type or education level (both
      are required), or a negative salary (the columns hold non-negative integers). */
  predicate Refused(v: VacancyValues)
  {
    v.employment.None? || v.education.None?
    || (v.salaryMin.Some? && v.salaryMin.value < 0) || (v.salaryMax.Some? && v.salaryMax.value < 0)
  }

  /** Whether the row is written; `bad` says the write raises for another reason. */
  predicate Accepted(env: Lookups, f: VacancyFields, bad: bool, now: int)
  {
    var v := Values(env, f, now);
    v.Some? && !bad && !Refused(v.value)
  }

  /** The `defaults` a table row holds. */
  function ValuesOf(r: VacancyRecord): VacancyValues
  {
    VacancyValues(r.employer, r.title, r.position, r.location, r.salaryMin, r.salaryMax,
                  r.description, r.report3pn, r.publishedAt, r.confirmedAt, r.source,
                  r.employment, r.education, r.degree)
  }

  /** The fields `update_or_create` does not set: the key, the status and visibility,
      the parent chain and the timestamps. */
  predicate SameBookkeeping(a: VacancyRecord, b: VacancyRecord)
  {
    && a.externalId == b.externalId && a.status == b.status && a.isActive == b.isActive
    && a.closedAt == b.closedAt && a.parent == b.parent && a.generation == b.generation
    && a.createdAt == b.createdAt && a.updatedAt == b.updatedAt
  }

  /** `update_or_create` setting the defaults on an existing row: the row then holds the
      values and keeps every other field. */
  function Apply(r: VacancyRecord, v: VacancyValues): (r': VacancyRecord)
    ensures ValuesOf(r') == v && SameBookkeeping(r, r')
  {
    r.(employer := v.employer, title := v.title, position := v.position, location := v.location,
       salaryMin := v.salaryMin, salaryMax := v.salaryMax, description := v.description,
       report3pn := v.report3pn, publishedAt := v.publishedAt, confirmedAt := v.confirmedAt,
       source := v.source, employment := v.employment, education := v.education, degree := v.degree)
  }

  /** `update_or_create` building a new row: the model's defaults (active, public, no
      parent, generation 1) and `created_at` stamped with `now`. */
  function NewRecord(externalId: string, v: VacancyValues, now: int): (r: VacancyRecord)
    ensures ValuesOf(r) == v && r.externalId == Some(externalId) && r.parent.None?
    ensures r.status == Active && r.isActive && r.closedAt.None? && r.generation == 1
    ensures r.createdAt == now && r.updatedAt == now
  {
    VacancyRecord(v.employer, v.title, Some(externalId), v.position, v.location, v.salaryMin,
                  v.salaryMax, v.description, v.report3pn, v.publishedAt, v.confirmedAt,
                  v.source, v.employment, v.education, v.degree, Active, true, None, None, 1, now, now)
  }

  /** The key of the row holding this `external_id`, if any. */
  function FindExternal(rows: map<nat, VacancyRecord>, e: string): (r: Option<nat>)
    requires UniqueExternalIds(rows)
    ensures r.Some? <==> exists id :: id in rows && rows[id].externalId == Some(e)
    ensures r.Some? ==> r.value in rows && rows[r.value].externalId == Some(e)
  {
    if exists id :: id in rows && rows[id].externalId == Some(e) then
      var id :| id in rows && rows[id].externalId == Some(e);
      Some(id)
    else None
  }

  /** The vacancy table and its next key. */
  datatype Db = Db(rows: map<nat, VacancyRecord>, nextId: nat)

  predicate ValidDb(db: Db)
  {
    (forall id :: id in db.rows ==> id < db.nextId) && UniqueExternalIds(db.rows)
  }

  /** The `created_count`, `updated_count` and `error_count` counters. */
  datatype Counts = Counts(created: nat, updated: nat, errors: nat)
  {
    function Plus(d: Counts): Counts
    {
      Counts(created + d.created, updated + d.updated, errors + d.errors)
    }

    function Total(): nat { created + updated + errors }
  }

  const Error := Counts(0, 0, 1)

  datatype Outcome = Outcome(db: Db, counts: Counts)

  /** The upsert of accepted values, `save` included. */
  function Upsert(db: Db, e: string, v: VacancyValues, now: int): (r: Outcome)
    requires ValidDb(db)
    ensures ValidDb(r.db) && r.db.nextId >= db.nextId
  {
    var found := FindExternal(db.rows, e);
    if found.Some? then
      var r := Apply(db.rows[found.value], v);
      var rows' := db.rows[found.value := UpdateSave(db.rows, r, now)];
      assert rows'[found.value].externalId == Some(e);
      Outcome(Db(rows', db.nextId), Counts(0, 1, 0))
    else
      var r := NewRecord(e, v, now);
      var rows' := db.rows[db.nextId := SaveRule(r, None, now)];
      assert rows'[db.nextId].externalId == Some(e);
      Outcome(Db(rows', db.nextId + 1), Counts(1, 0, 0))
  }

  /** Reference definition of one row of the loop. */
  function Step(db: Db, env: Lookups, f: VacancyFields, bad: bool, now: int): (r: Outcome)
    requires ValidDb(db)
    ensures ValidDb(r.db)
  {
    if !Accepted(env, f, bad, now) then Outcome(db, Error)
    else Upsert(db, f.externalId, Values(env, f, now).value, now)
  }

  // ---------------------------------------------------------------- the loop

  function Load(db: Db, env: Lookups, rows: seq<VacancyFields>, faulty: set<nat>, now: int): (r: Outcome)
    requires ValidDb(db)
    ensures ValidDb(r.db)
  {
    if rows == [] then Outcome(db, Counts(0, 0, 0))
    else
      var n := |rows| - 1;
      var before := Load(db, env, rows[..n], faulty, now);
      var step := Step(before.db, env, rows[n], n in faulty, now);
      Outcome(step.db, before.counts.Plus(step.counts))
  }

  /** One more row. */
  lemma LoadSnoc(db: Db, env: Lookups, rows: seq<VacancyFields>, faulty: set<nat>, now: int)
    requires ValidDb(db) && rows != []
    ensures var n := |rows| - 1;
            var before := Load(db, env, rows[..n], faulty, now);
            var step := Step(before.db, env, rows[n], n in faulty, now);
            Load(db, env, rows, faulty, now) == Outcome(step.db, before.counts.Plus(step.counts))
  {
  }

  /** The same row against the store; `d` holds its counter increments. */
  method ImportRow(store: VacancyStore, env: Lookups, f: VacancyFields, bad: bool, now: int) returns (d: Counts)
    requires store.Valid()
    modifies store
    ensures Outcome(Db(store.rows, store.nextId), d) == Step(Db(old(store.rows), old(store.nextId)), env, f, bad, now)
    ensures store.sources == old(store.sources)
  {
    if f.taxId == "" || f.posCode == "" || f.locCode == "" {
      return Error;
    }
    if f.taxId !in env.employers {
      return Error;
    }
    if f.posCode !in env.titleOf {
      return Error;
    }
    var location := None;
    if f.locCode in env.geo.settlements {
      location := Some(f.locCode);
    }
    if location.None? && f.locCode in env.geo.cityDistricts {
      location := Some(env.geo.cityDistricts[f.locCode].settlement);
    }
    if location.None? {
      return Error;
    }
    var v := Values(env, f, now).value;
    if bad || Refused(v) {
      return Error;
    }
    var found := FindExternal(store.rows, f.externalId);
    if found.Some? {
      var r := Apply(store.rows[found.value], v);
      var _ := store.SaveExisting(found.value, r, now);
      d := Counts(0, 1, 0);
    } else {
      var r := NewRecord(f.externalId, v, now);
      var id := store.nextId;
      store.nextId := store.nextId + 1;
      var _ := store.Save(id, r, now);
      d := Counts(1, 0, 0);
    }
  }

  /** `handle`, after the file has been found: the source "dsz" is looked up or created,
      then every row is imported in turn. */
  method ImportVacancies(store: VacancyStore, env: Lookups, rows: seq<VacancyFields>, faulty: set<nat>, now: int)
      returns (counts: Counts)
    requires store.Valid()
    modifies store
    ensures store.sources == GetOrCreate(old(store.sources), SourceCode, SourceName)
    ensures var r := Load(Db(old(store.rows), old(store.nextId)), env, rows, faulty, now);
            Db(store.rows, store.nextId) == r.db && counts == r.counts
  {
    if SourceCode !in store.sources {
      store.sources := store.sources[SourceCode := SourceName];
    }
    counts := ImportRows(store, env, rows, faulty, now);
  }

  /** The row loop of `handle`. */
  method ImportRows(store: VacancyStore, env: Lookups, rows: seq<VacancyFields>, faulty: set<nat>, now: int)
      returns (counts: Counts)
    requires store.Valid()
    modifies store
    ensures store.sources == old(store.sources)
    ensures Outcome(Db(store.rows, store.nextId), counts) == Load(Db(old(store.rows), old(store.nextId)), env, rows, faulty, now)
  {
    ghost var db0 := Db(store.rows, store.nextId);
    counts := Counts(0, 0, 0);
    var i := 0;
    while i < |rows|
      invariant 0 <= i <= |rows|
      invariant store.Valid() && store.sources == old(store.sources)
      invariant Outcome(Db(store.rows, store.nextId), counts) == Load(db0, env, rows[..i], faulty, now)
    {
      LoadSnoc(db0, env, rows[..i + 1], faulty, now);
      assert rows[..i + 1][..i] == rows[..i];
      var d := ImportRow(store, env, rows[i], i in faulty, now);
      counts := counts.Plus(d);
      i := i + 1;
    }
    assert rows[..|rows|] == rows;
  }

  // ---------------------------------------------------------------- properties

  /** A row lacking the employer's tax id, the position code or the location code is one
      error and changes nothing. */
  lemma MissingFieldIsError(db: Db, env: Lookups, f: VacancyFields, bad: bool, now: int)
    requires ValidDb(db) && (f.taxId == "" || f.posCode == "" || f.locCode == "")
    ensures Step(db, env, f, bad, now) == Outcome(db, Error)
  {
  }

  /** A row whose employer, job title or place does not exist is one error and changes
      nothing. */
  lemma UnknownReferenceIsError(db: Db, env: Lookups, f: VacancyFields, bad: bool, now: int)
    requires ValidDb(db)
    requires f.taxId !in env.employers || f.posCode !in env.titleOf || ResolveSettlement(env.geo, f.locCode).None?
    ensures Step(db, env, f, bad, now) == Outcome(db, Error)
  {
  }

  /** The values of a row: they exist exactly when the three references resolve; the
      place is the settlement, else the city district's settlement; the title is the job
      title's name and so is a blank description; a missing or malformed publication day
      gives "now"; the salary follows the salary rule. */
  lemma ValuesResolve(env: Lookups, f: VacancyFields, now: int)
    ensures Values(env, f, now).Some? <==>
              f.taxId != "" && f.posCode != "" && f.locCode != ""
              && f.taxId in env.employers && f.posCode in env.titleOf
              && ResolveSettlement(env.geo, f.locCode).Some?
    ensures Values(env, f, now).Some? ==>
              var v := Values(env, f, now).value;
              var name := env.titleOf[f.posCode];
              && v.employer == f.taxId
              && v.location == ResolveSettlement(env.geo, f.locCode).value
              && v.title == name && v.position == (f.posCode, name)
              && v.description == (if f.description == "" then name else f.description)
              && v.publishedAt == (if ParseDate(f.publishedAt).Some? then OnDay(ParseDate(f.publishedAt).value) else At(now))
              && (v.salaryMin, v.salaryMax) == NormalizeSalary(f.salaryMin, f.salaryMax)
              && v.source == Some(SourceCode)
  {
  }

  /** An accepted row leaves exactly one row with its `external_id`, holding its values;
      it counts as updated when such a row existed and as created otherwise. A refused
      row is one error and changes nothing. */
  lemma StepWrites(db: Db, env: Lookups, f: VacancyFields, bad: bool, now: int)
    requires ValidDb(db)
    ensures var r := Step(db, env, f, bad, now);
            if Accepted(env, f, bad, now) then
              var found := FindExternal(r.db.rows, f.externalId);
              && found.Some?
              && ValuesOf(r.db.rows[found.value]) == Values(env, f, now).value
              && r.counts == (if FindExternal(db.rows, f.externalId).Some? then Counts(0, 1, 0) else Counts(1, 0, 0))
            else r == Outcome(db, Error)
  {
    if Accepted(env, f, bad, now) {
      var v := Values(env, f, now).value;
      var r := Step(db, env, f, bad, now);
      var old_ := FindExternal(db.rows, f.externalId);
      var id := if old_.Some? then old_.value else db.nextId;
      var rec := if old_.Some? then Apply(db.rows[id], v) else NewRecord(f.externalId, v, now);
      if old_.Some? {
        assert r.db.rows[id] == UpdateSave(db.rows, rec, now);
      } else {
        assert r.db.rows[id] == SaveRule(rec, None, now);
        SaveFrame(rec, None, now);
      }
      assert r.db.rows[id].externalId == Some(f.externalId);
      assert FindExternal(r.db.rows, f.externalId) == Some(id);
    }
  }

  /** The row an accepted row leaves under its `external_id`, `save` included: it holds
      the row's values and `updated_at` is `now`; an existing row keeps its key, status,
      visibility, parent, `created_at` and stored generation; a new
      row gets the next key and the defaults (active, visible, no parent, generation 1,
      created now). Either way the closing time is empty exactly when the status is
      "active". */
  lemma AcceptedRowSaved(db: Db, env: Lookups, f: VacancyFields, bad: bool, now: int)
    requires ValidDb(db) && Accepted(env, f, bad, now)
    ensures var r := Step(db, env, f, bad, now);
            var found := FindExternal(r.db.rows, f.externalId);
            && found.Some?
            && var rec := r.db.rows[found.value];
            && ValuesOf(rec) == Values(env, f, now).value && rec.updatedAt == now
            && (rec.closedAt.None? <==> rec.status == Active)
            && var before := FindExternal(db.rows, f.externalId);
            if before.Some? then
              var o := db.rows[before.value];
              && found == before
              && rec.status == o.status && rec.isActive == o.isActive && rec.parent == o.parent
              && rec.createdAt == o.createdAt
              && rec.generation == o.generation
            else
              && found.value == db.nextId
              && rec.status == Active && rec.isActive && rec.parent.None? && rec.generation == 1
              && rec.createdAt == now
  {
    StepIsUpsert(db, env, f, bad, now);
    StepWrites(db, env, f, bad, now);
    UpsertRecord(db, f.externalId, Values(env, f, now).value, now);
  }

  /** The upsert, `save` included, keeps the unique constraint on `external_id` and leaves
      one row under the found key, or under the next key for a new row, holding the values
      with `updated_at` set to `now`; the other fields are kept from the existing row, or
      are the defaults of a new one; the closing time is as `save` makes it, and an
      existing row keeps its stored generation (see `UpdateSave`). */
  lemma UpsertRecord(db: Db, e: string, v: VacancyValues, now: int)
    requires ValidDb(db)
    ensures ValidDb(Upsert(db, e, v, now).db)
    ensures var rows' := Upsert(db, e, v, now).db.rows;
            var before := FindExternal(db.rows, e);
            var id := if before.Some? then before.value else db.nextId;
            && id in rows'
            && var rec := rows'[id];
            && ValuesOf(rec) == v && rec.updatedAt == now && rec.externalId == Some(e)
            && (rec.closedAt.None? <==> rec.status == Active)
            && if before.Some? then
                 var o := db.rows[id];
                 && rec.status == o.status && rec.isActive == o.isActive && rec.parent == o.parent
                 && rec.createdAt == o.createdAt
                 && rec.generation == o.generation
               else
                 && rec.status == Active && rec.isActive && rec.parent.None? && rec.generation == 1
                 && rec.createdAt == now
  {
    var before := FindExternal(db.rows, e);
    if before.Some? {
      var o := db.rows[before.value];
      var a := Apply(o, v);
      SaveClosedAt(a, ParentGeneration(db.rows, a), now);
    } else {
      var a := NewRecord(e, v, now);
      SaveFrame(a, None, now);
      SaveClosedAt(a, None, now);
    }
  }

  /** A step leaves the row holding any other `external_id` where and as it was. */
  lemma StepKeepsOther(db: Db, env: Lookups, f: VacancyFields, bad: bool, now: int, e: string)
    requires ValidDb(db) && (e != f.externalId || !Accepted(env, f, bad, now))
    ensures var r := Step(db, env, f, bad, now);
            FindExternal(r.db.rows, e) == FindExternal(db.rows, e)
            && (FindExternal(db.rows, e).Some? ==>
                  r.db.rows[FindExternal(db.rows, e).value] == db.rows[FindExternal(db.rows, e).value])
  {
    if Accepted(env, f, bad, now) {
      StepIsUpsert(db, env, f, bad, now);
      UpsertKeepsOther(db, f.externalId, Values(env, f, now).value, now, e);
    } else {
      assert Step(db, env, f, bad, now).db == db;
    }
  }

  lemma StepIsUpsert(db: Db, env: Lookups, f: VacancyFields, bad: bool, now: int)
    requires ValidDb(db) && Accepted(env, f, bad, now)
    ensures Step(db, env, f, bad, now) == Upsert(db, f.externalId, Values(env, f, now).value, now)
  {
  }

  lemma UpsertKeepsOther(db: Db, x: string, v: VacancyValues, now: int, e: string)
    requires ValidDb(db) && e != x
    ensures var rows' := Upsert(db, x, v, now).db.rows;
            FindExternal(rows', e) == FindExternal(db.rows, e)
            && (FindExternal(db.rows, e).Some? ==>
                  rows'[FindExternal(db.rows, e).value] == db.rows[FindExternal(db.rows, e).value])
  {
    var rows' := Upsert(db, x, v, now).db.rows;
    var old_ := FindExternal(db.rows, x);
    var id := if old_.Some? then old_.value else db.nextId;
    assert rows'.Keys == db.rows.Keys + {id};
    assert rows'[id].externalId == Some(x);
    assert forall k :: k in rows' && k != id ==> rows'[k] == db.rows[k];
    var o := FindExternal(db.rows, e);
    if o.Some? {
      FoundIsUnique(rows', e, o.value);
    }
  }

  /** Under the unique constraint, the row found for an `external_id` is the row that
      holds it. */
  lemma FoundIsUnique(rows: map<nat, VacancyRecord>, e: string, id: nat)
    requires UniqueExternalIds(rows) && id in rows && rows[id].externalId == Some(e)
    ensures FindExternal(rows, e) == Some(id)
  {
  }

  /** Every row is counted once: created, updated or error. */
  lemma {:induction false} CountsAddUp(db: Db, env: Lookups, rows: seq<VacancyFields>, faulty: set<nat>, now: int)
    requires ValidDb(db)
    ensures Load(db, env, rows, faulty, now).counts.Total() == |rows|
  {
    if rows != [] {
      var n := |rows| - 1;
      CountsAddUp(db, env, rows[..n], faulty, now);
      LoadSnoc(db, env, rows, faulty, now);
      var before := Load(db, env, rows[..n], faulty, now);
      StepCountsOne(before.db, env, rows[n], n in faulty, now);
    }
  }

  lemma StepCountsOne(db: Db, env: Lookups, f: VacancyFields, bad: bool, now: int)
    requires ValidDb(db)
    ensures Step(db, env, f, bad, now).counts.Total() == 1
  {
  }

  /** Rows sharing an `external_id` (the empty one included) end as one row holding the
      values of the last of them that was accepted. */
  lemma {:induction false} LastWriterWins(db: Db, env: Lookups, rows: seq<VacancyFields>, faulty: set<nat>, now: int, j: nat)
    requires ValidDb(db) && j < |rows| && Accepted(env, rows[j], j in faulty, now)
    requires forall i :: j < i < |rows| && rows[i].externalId == rows[j].externalId ==> !Accepted(env, rows[i], i in faulty, now)
    ensures var r := Load(db, env, rows, faulty, now).db;
            FindExternal(r.rows, rows[j].externalId).Some?
            && ValuesOf(r.rows[FindExternal(r.rows, rows[j].externalId).value]) == Values(env, rows[j], now).value
    decreases |rows|, 1
  {
    var n := |rows| - 1;
    if j < n {
      LaterRowKeeps(db, env, rows, faulty, now, j);
    } else {
      LoadSnoc(db, env, rows, faulty, now);
      StepWrites(Load(db, env, rows[..n], faulty, now).db, env, rows[n], n in faulty, now);
    }
  }

  lemma {:induction false} LaterRowKeeps(db: Db, env: Lookups, rows: seq<VacancyFields>, faulty: set<nat>, now: int, j: nat)
    requires ValidDb(db) && j < |rows| - 1 && Accepted(env, rows[j], j in faulty, now)
    requires forall i :: j < i < |rows| && rows[i].externalId == rows[j].externalId ==> !Accepted(env, rows[i], i in faulty, now)
    ensures var r := Load(db, env, rows, faulty, now).db;
            FindExternal(r.rows, rows[j].externalId).Some?
            && ValuesOf(r.rows[FindExternal(r.rows, rows[j].externalId).value]) == Values(env, rows[j], now).value
    decreases |rows|, 0
  {
    var n := |rows| - 1;
    var front := rows[..n];
    assert front[j] == rows[j];
    forall i | j < i < n && front[i].externalId == front[j].externalId
      ensures !Accepted(env, front[i], i in faulty, now)
    {
      assert front[i] == rows[i];
    }
    LastWriterWins(db, env, front, faulty, now, j);
    LoadSnoc(db, env, rows, faulty, now);
    StepKeepsOther(Load(db, env, front, faulty, now).db, env, rows[n], n in faulty, now, rows[j].externalId);
  }
}
