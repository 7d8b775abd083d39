/** The KVED loader (`load_kved`): the header keys of every row are normalised first;
    then each row is filed at the most specific level whose code column is not empty
    (class, group, division, section), provided its parent, named in the row's own parent
    column, already exists. */
module KvedLoader {
  import opened Common
  import opened KvedData

  // ---------------------------------------------------------------- header keys

  /** A header key stripped of surrounding white space, then of every line break. */
  function CleanKey(k: string): (r: string)
    ensures '\n' !in r && Stripped(r)
  {
    RemoveSpaceKeepsStripped(Strip(k), '\n');
    RemoveChar(Strip(k), '\n')
  }

  /** A cleaned header key is the key with a run of white space cut from each end and
      every line break removed; it has no white space at either end and no line break. */
  lemma CleanKeyMeaning(k: string)
    ensures Stripped(CleanKey(k)) && '\n' !in CleanKey(k)
    ensures exists i, j :: 0 <= i <= j <= |k| && AllSpace(k[..i]) && AllSpace(k[j..])
                           && CleanKey(k) == RemoveChar(k[i..j], '\n')
  {
    StripThenRemove(k, '\n');
  }

  /** The dictionary comprehension over one row's (key, value) pairs, in column order:
      empty keys are dropped, the others cleaned, and a later column overwrites an
      earlier one whose key cleans to the same text. */
  function NormalizeRow(pairs: seq<(string, string)>): map<string, string>
  {
    if pairs == [] then map[]
    else
      var n := |pairs| - 1;
      var m := NormalizeRow(pairs[..n]);
      if pairs[n].0 == "" then m else m[CleanKey(pairs[n].0) := pairs[n].1]
  }

  /** The cleaned keys of the non-empty header keys. */
  function CleanKeys(pairs: seq<(string, string)>): set<string>
  {
    set i | 0 <= i < |pairs| && pairs[i].0 != "" :: CleanKey(pairs[i].0)
  }

  lemma CleanKeysSnoc(pairs: seq<(string, string)>)
    requires pairs != []
    ensures var n := |pairs| - 1;
            CleanKeys(pairs) == CleanKeys(pairs[..n]) + if pairs[n].0 == "" then {} else {CleanKey(pairs[n].0)}
  {
    var n := |pairs| - 1;
    assert forall i :: 0 <= i < n ==> pairs[..n][i] == pairs[i];
  }

  /** A normalised row has exactly the cleaned non-empty keys, none with a line break or
      surrounding white space. */
  lemma {:induction false} NormalizedKeys(pairs: seq<(string, string)>)
    ensures NormalizeRow(pairs).Keys == CleanKeys(pairs)
    ensures forall k :: k in NormalizeRow(pairs) ==> '\n' !in k && Stripped(k)
  {
    if pairs != [] {
      var n := |pairs| - 1;
      NormalizedKeys(pairs[..n]);
      CleanKeysSnoc(pairs);
    }
  }

  /** The value under a cleaned key is that of the last column whose key cleans to it. */
  lemma {:induction false} NormalizedLastWins(pairs: seq<(string, string)>, j: nat)
    requires j < |pairs| && pairs[j].0 != ""
    requires forall i :: j < i < |pairs| && pairs[i].0 != "" ==> CleanKey(pairs[i].0) != CleanKey(pairs[j].0)
    ensures CleanKey(pairs[j].0) in NormalizeRow(pairs)
    ensures NormalizeRow(pairs)[CleanKey(pairs[j].0)] == pairs[j].1
  {
    var n := |pairs| - 1;
    if j < n {
      assert pairs[..n][j] == pairs[j];
      assert forall i :: j < i < n ==> pairs[..n][i] == pairs[i];
      NormalizedLastWins(pairs[..n], j);
    }
  }

  /** The first loop of `handle`: every row normalised, in file order. */
  method NormalizeRows(raw: seq<seq<(string, string)>>) returns (rows: seq<map<string, string>>)
    ensures |rows| == |raw| && forall i :: 0 <= i < |raw| ==> rows[i] == NormalizeRow(raw[i])
  {
    rows := [];
    var i := 0;
    while i < |raw|
      invariant 0 <= i <= |raw| && |rows| == i
      invariant forall j :: 0 <= j < i ==> rows[j] == NormalizeRow(raw[j])
    {
      rows := rows + [NormalizeRow(raw[i])];
      i := i + 1;
    }
  }

  // ---------------------------------------------------------------- rows

  /** The stripped cells of a normalised row. */
  datatype KvedRow = KvedRow(name: string, section: string, division: string, group: string, klass: string)

  /** `row.get(key, '')`. */
  function Get(m: map<string, string>, k: string): string
  {
    if k in m then m[k] else ""
  }

  function Fields(m: map<string, string>): KvedRow
  {
    KvedRow(Strip(Get(m, "Назва")), Strip(Get(m, "Код секції")), Strip(Get(m, "Код розділу")),
            Strip(Get(m, "Код групи")), Strip(Get(m, "Код класу")))
  }

  datatype Kind = ClassRow | GroupRow | DivisionRow | SectionRow | NoCode

  /** The most specific level whose code column is not empty. */
  function Classify(f: KvedRow): Kind
  {
    if f.klass != "" then ClassRow
    else if f.group != "" then GroupRow
    else if f.division != "" then DivisionRow
    else if f.section != "" then SectionRow
    else NoCode
  }

  /** The `stats` counters. */
  datatype Stats = Stats(sections: nat, divisions: nat, groups: nat, classes: nat, errors: nat)
  {
    function Plus(d: Stats): Stats
    {
      Stats(sections + d.sections, divisions + d.divisions, groups + d.groups, classes + d.classes,
            errors + d.errors)
    }

    function Total(): nat { sections + divisions + groups + classes + errors }
  }

  const Zero := Stats(0, 0, 0, 0, 0)
  const OneError := Zero.(errors := 1)

  datatype Outcome = Outcome(tables: Kved, stats: Stats)

  /** The work on a row of a given kind: `get_or_create` under its own code when it is a
      section or its parent exists; one error otherwise. */
  function FileKved(t: Kved, kind: Kind, f: KvedRow): Outcome
  {
    match kind
    case ClassRow =>
      if f.group in t.groups then
        Outcome(t.(classes := GetOrCreate(t.classes, f.klass, KvedClass(f.name, f.group))), Zero.(classes := 1))
      else Outcome(t, OneError)
    case GroupRow =>
      if f.division in t.divisions then
        Outcome(t.(groups := GetOrCreate(t.groups, f.group, Group(f.name, f.division))), Zero.(groups := 1))
      else Outcome(t, OneError)
    case DivisionRow =>
      if f.section in t.sections then
        Outcome(t.(divisions := GetOrCreate(t.divisions, f.division, Division(f.name, f.section))), Zero.(divisions := 1))
      else Outcome(t, OneError)
    case SectionRow =>
      Outcome(t.(sections := GetOrCreate(t.sections, f.section, f.name)), Zero.(sections := 1))
    case NoCode => Outcome(t, Zero)
  }

  /** Reference definition of one row, on its stripped cells; `bad` says its database
      work raises. */
  function Step(t: Kved, f: KvedRow, bad: bool): Outcome
  {
    var kind := Classify(f);
    if kind == NoCode then Outcome(t, Zero)
    else if bad then Outcome(t, OneError)
    else FileKved(t, kind, f)
  }

  function Load(t: Kved, rows: seq<KvedRow>, faulty: set<nat>): Outcome
  {
    if rows == [] then Outcome(t, Zero)
    else
      var n := |rows| - 1;
      var before := Load(t, rows[..n], faulty);
      var step := Step(before.tables, rows[n], n in faulty);
      Outcome(step.tables, before.stats.Plus(step.stats))
  }

  function FieldsOf(rows: seq<map<string, string>>): seq<KvedRow>
  {
    seq(|rows|, i requires 0 <= i < |rows| => Fields(rows[i]))
  }

  /** The stripped cells of every normalised row of a file. */
  function Cells(raw: seq<seq<(string, string)>>): seq<KvedRow>
  {
    seq(|raw|, i requires 0 <= i < |raw| => Fields(NormalizeRow(raw[i])))
  }

  // ---------------------------------------------------------------- the command

  method KvedRowStep(store: KvedStore, f: KvedRow, bad: bool) returns (d: Stats)
    modifies store
    ensures Outcome(store.Snapshot(), d) == Step(old(store.Snapshot()), f, bad)
  {
    d := Zero;
    if f.klass == "" && f.group == "" && f.division == "" && f.section == "" {
      return;
    }
    if bad {
      d := OneError;
      return;
    }
    if f.klass != "" {
      if f.group in store.groups {
        if f.klass !in store.classes {
          store.classes := store.classes[f.klass := KvedClass(f.name, f.group)];
        }
        d := d.(classes := 1);
      } else {
        d := OneError;
      }
    } else if f.group != "" {
      if f.division in store.divisions {
        if f.group !in store.groups {
          store.groups := store.groups[f.group := Group(f.name, f.division)];
        }
        d := d.(groups := 1);
      } else {
        d := OneError;
      }
    } else if f.division != "" {
      if f.section in store.sections {
        if f.division !in store.divisions {
          store.divisions := store.divisions[f.division := Division(f.name, f.section)];
        }
        d := d.(divisions := 1);
      } else {
        d := OneError;
      }
    } else {
      if f.section !in store.sections {
        store.sections := store.sections[f.section := f.name];
      }
      d := d.(sections := 1);
    }
  }

  /** The second loop of `handle`: every normalised row filed in turn. */
  method FileRows(store: KvedStore, rows: seq<map<string, string>>, faulty: set<nat>) returns (stats: Stats)
    modifies store
    ensures Outcome(store.Snapshot(), stats) == Load(old(store.Snapshot()), FieldsOf(rows), faulty)
  {
    ghost var cells := FieldsOf(rows);
    ghost var t0 := store.Snapshot();
    stats := Zero;
    var i := 0;
    while i < |rows|
      invariant 0 <= i <= |rows|
      invariant Outcome(store.Snapshot(), stats) == Load(t0, cells[..i], faulty)
    {
      var d := KvedRowStep(store, Fields(rows[i]), i in faulty);
      LoadSnoc(t0, cells, faulty, i);
      stats := stats.Plus(d);
      i := i + 1;
    }
    assert cells[..|rows|] == cells;
  }

  lemma LoadSnoc(t: Kved, rows: seq<KvedRow>, faulty: set<nat>, i: nat)
    requires i < |rows|
    ensures var before := Load(t, rows[..i], faulty);
            var step := Step(before.tables, rows[i], i in faulty);
            Load(t, rows[..i + 1], faulty) == Outcome(step.tables, before.stats.Plus(step.stats))
  {
    assert rows[..i + 1][..i] == rows[..i];
  }

  /** `load_kved`'s `handle` on the raw (key, value) rows of the file. */
  method LoadKved(store: KvedStore, raw: seq<seq<(string, string)>>, faulty: set<nat>) returns (stats: Stats)
    modifies store
    ensures Outcome(store.Snapshot(), stats) == Load(old(store.Snapshot()), Cells(raw), faulty)
  {
    var rows := NormalizeRows(raw);
    assert FieldsOf(rows) == Cells(raw);
    stats := FileRows(store, rows, faulty);
  }

  // ---------------------------------------------------------------- properties

  /** The kind is the most specific non-empty code column, in the order class, group,
      division, section. */
  lemma KindIsMostSpecific(f: KvedRow)
    ensures Classify(f) == ClassRow <==> f.klass != ""
    ensures Classify(f) == GroupRow <==> f.klass == "" && f.group != ""
    ensures Classify(f) == DivisionRow <==> f.klass == "" && f.group == "" && f.division != ""
    ensures Classify(f) == SectionRow <==> f.klass == "" && f.group == "" && f.division == "" && f.section != ""
    ensures Classify(f) == NoCode <==> f.klass == "" && f.group == "" && f.division == "" && f.section == ""
  {
  }

  /** A row with all four code columns empty changes no table and no counter, even when
      its database work would raise, as it does none. */
  lemma NoCodeRowIsIgnored(t: Kved, f: KvedRow, bad: bool)
    requires Classify(f) == NoCode
    ensures Step(t, f, bad) == Outcome(t, Zero)
  {
  }

  /** A row with a code that raises adds one error, changes no table, and the load goes on. */
  lemma FaultyRowIsOneError(t: Kved, f: KvedRow)
    requires Classify(f) != NoCode
    ensures Step(t, f, true) == Outcome(t, OneError)
  {
  }

  /** The tables only gain rows: an existing code keeps its name and parent. */
  predicate Grows(t: Kved, r: Kved)
  {
    Extends(t.sections, r.sections) && Extends(t.divisions, r.divisions)
    && Extends(t.groups, r.groups) && Extends(t.classes, r.classes)
  }

  /** Filing a class, group or division: with its parent, in the row's own parent column,
      present, the code is in its table and its level's counter goes up by one (also when
      the code was already there and is left unchanged); a new record holds the row's
      name and, as its parent, the code in the row's own parent column. Without that
      parent, nothing is created and the errors go up by one. A section needs no parent.
      Existing rows are never modified and every parent reference stays valid. */
  lemma FileKvedEffect(t: Kved, kind: Kind, f: KvedRow)
    requires kind == Classify(f) && kind != NoCode
    ensures var o := FileKved(t, kind, f);
      && Grows(t, o.tables) && (Consistent(t) ==> Consistent(o.tables))
      && o.stats.Total() == 1
      && (kind == ClassRow ==>
            if f.group in t.groups then
              && f.klass in o.tables.classes && o.stats == Zero.(classes := 1)
              && o.tables.classes[f.klass] == (if f.klass in t.classes then t.classes[f.klass] else KvedClass(f.name, f.group))
            else o == Outcome(t, OneError))
      && (kind == GroupRow ==>
            if f.division in t.divisions then
              && f.group in o.tables.groups && o.stats == Zero.(groups := 1)
              && o.tables.groups[f.group] == (if f.group in t.groups then t.groups[f.group] else Group(f.name, f.division))
            else o == Outcome(t, OneError))
      && (kind == DivisionRow ==>
            if f.section in t.sections then
              && f.division in o.tables.divisions && o.stats == Zero.(divisions := 1)
              && o.tables.divisions[f.division] ==
                   (if f.division in t.divisions then t.divisions[f.division] else Division(f.name, f.section))
            else o == Outcome(t, OneError))
      && (kind == SectionRow ==>
            && f.section in o.tables.sections && o.stats == Zero.(sections := 1)
            && o.tables.sections[f.section] == (if f.section in t.sections then t.sections[f.section] else f.name))
  {
  }

  lemma StepEffect(t: Kved, f: KvedRow, bad: bool)
    ensures Grows(t, Step(t, f, bad).tables)
    ensures Consistent(t) ==> Consistent(Step(t, f, bad).tables)
  {
    if Classify(f) != NoCode && !bad {
      FileKvedEffect(t, Classify(f), f);
    }
  }

  /** A row is counted once when it has a code and not at all otherwise. */
  lemma StepTotal(t: Kved, f: KvedRow, bad: bool)
    ensures Step(t, f, bad).stats.Total() == if Classify(f) == NoCode then 0 else 1
  {
  }

  lemma GrowsTransitive(a: Kved, b: Kved, c: Kved)
    requires Grows(a, b) && Grows(b, c)
    ensures Grows(a, c)
  {
  }

  /** The load never updates or deletes a row and keeps every parent reference valid. */
  lemma {:induction false} LoadGrowsConsistently(t: Kved, rows: seq<KvedRow>, faulty: set<nat>)
    ensures Grows(t, Load(t, rows, faulty).tables)
    ensures Consistent(t) ==> Consistent(Load(t, rows, faulty).tables)
  {
    if rows != [] {
      var n := |rows| - 1;
      LoadGrowsConsistently(t, rows[..n], faulty);
      var mid := Load(t, rows[..n], faulty).tables;
      StepEffect(mid, rows[n], n in faulty);
      GrowsTransitive(t, mid, Step(mid, rows[n], n in faulty).tables);
    }
  }

  /** The indices of the rows with at least one non-empty code column. */
  function CodedRows(rows: seq<KvedRow>): set<nat>
  {
    set i | 0 <= i < |rows| && Classify(rows[i]) != NoCode
  }

  lemma CodedRowsSnoc(rows: seq<KvedRow>)
    requires rows != []
    ensures var n := |rows| - 1;
            CodedRows(rows) == CodedRows(rows[..n]) + if Classify(rows[n]) == NoCode then {} else {n}
  {
    var n := |rows| - 1;
    assert forall i :: 0 <= i < n ==> rows[..n][i] == rows[i];
  }

  lemma PlusTotal(a: Stats, b: Stats)
    ensures a.Plus(b).Total() == a.Total() + b.Total()
  {
  }

  lemma LoadTotalSnoc(t: Kved, rows: seq<KvedRow>, faulty: set<nat>)
    requires rows != []
    ensures var n := |rows| - 1;
            Load(t, rows, faulty).stats.Total()
            == Load(t, rows[..n], faulty).stats.Total() + if Classify(rows[n]) == NoCode then 0 else 1
  {
    var n := |rows| - 1;
    var before := Load(t, rows[..n], faulty);
    var step := Step(before.tables, rows[n], n in faulty);
    assert Load(t, rows, faulty).stats == before.stats.Plus(step.stats);
    StepTotal(before.tables, rows[n], n in faulty);
    PlusTotal(before.stats, step.stats);
  }

  /** Every row with a code is counted exactly once, in its level's counter or in the
      errors; a row without a code is not counted. */
  lemma {:induction false} CountersAddUp(t: Kved, rows: seq<KvedRow>, faulty: set<nat>)
    ensures Load(t, rows, faulty).stats.Total() == |CodedRows(rows)|
  {
    if rows == [] {
      assert CodedRows(rows) == {};
    } else {
      var n := |rows| - 1;
      CountersAddUp(t, rows[..n], faulty);
      LoadTotalSnoc(t, rows, faulty);
      CodedRowsSnoc(rows);
      assert n !in CodedRows(rows[..n]);
    }
  }
}
