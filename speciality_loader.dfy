/** The speciality loader (`load_speciality`): every data row holds a knowledge field in
    its first column and a speciality in its second, each written "<code> <name>". A
    speciality is linked to the knowledge field named by the first two characters of its
    code. All rows run in one transaction: an error anywhere leaves both tables as they
    were. */
module SpecialityLoader {
  import opened Common
  import opened SpecialityModel

  // ---------------------------------------------------------------- cells

  /** A stripped cell split at its first space into (code, name); a cell without a space,
      the empty cell included, gives nothing. */
  function Cell(s: string): (r: Option<(string, string)>)
    ensures r.Some? ==> r.value.0 + " " + r.value.1 == Strip(s) && ' ' !in r.value.0
    ensures r.None? <==> ' ' !in Strip(s)
  {
    SplitFirst(Strip(s), ' ')
  }

  /** The knowledge-field cell of a row long enough to be processed. */
  function FieldCell(row: seq<string>): Option<(string, string)>
  {
    if |row| < 2 then None else Cell(row[0])
  }

  /** The speciality cell of a row long enough to be processed. */
  function SpecCell(row: seq<string>): Option<(string, string)>
  {
    if |row| < 2 then None else Cell(row[1])
  }

  /** The `count_kf` and `count_spec` counters. */
  datatype Counts = Counts(fields: nat, specialities: nat)

  /** The tables and counters so far, or the transaction rolled back. */
  datatype Progress = Running(tables: Tables, counts: Counts) | RolledBack

  /** The knowledge-field half of a row: `get_or_create` by code. */
  function FileField(t: Tables, c: Option<(string, string)>): Tables
  {
    if c.None? then t
    else t.(fields := GetOrCreate(t.fields, c.value.0, KnowledgeField(c.value.1, 0)))
  }

  /** The speciality half of a row: created at level one without a parent, under the
      knowledge field its code's first two characters name, if that field exists. */
  function FileSpec(t: Tables, c: Option<(string, string)>): Tables
  {
    if c.None? || Take(c.value.0, 2) !in t.fields then t
    else
      var code := c.value.0;
      t.(specialities := GetOrCreate(t.specialities, code, Speciality(Take(code, 2), c.value.1, None, 1, 0)))
  }

  /** Whether the speciality half of the row finds its knowledge field. */
  function SpecFound(t: Tables, c: Option<(string, string)>): bool
  {
    c.Some? && Take(c.value.0, 2) in t.fields
  }

  /** Whether the row reaches the database at all. */
  predicate Touches(row: seq<string>)
  {
    FieldCell(row).Some? || SpecCell(row).Some?
  }

  /** Reference definition of one row of `process_rows`; `bad` says its database work
      raises, which ends the transaction. The field half runs first, so the speciality
      of the same row can find it. */
  function Step(p: Progress, row: seq<string>, bad: bool): Progress
  {
    if p.RolledBack? then p
    else if bad && Touches(row) then RolledBack
    else
      var fc := FieldCell(row);
      var sc := SpecCell(row);
      var t1 := FileField(p.tables, fc);
      Running(FileSpec(t1, sc),
              Counts(p.counts.fields + (if fc.Some? then 1 else 0),
                     p.counts.specialities + (if SpecFound(t1, sc) then 1 else 0)))
  }

  function Process(t: Tables, rows: seq<seq<string>>, faulty: set<nat>): Progress
  {
    if rows == [] then Running(t, Counts(0, 0))
    else
      var n := |rows| - 1;
      Step(Process(t, rows[..n], faulty), rows[n], n in faulty)
  }

  /** What `handle` leaves behind: the committed tables, or the old ones after a rollback. */
  function Committed(t: Tables, rows: seq<seq<string>>, faulty: set<nat>): Tables
  {
    var p := Process(t, rows, faulty);
    if p.RolledBack? then t else p.tables
  }

  // ---------------------------------------------------------------- the command

  /** The knowledge-field half of a row in the store. */
  method FileFieldCell(store: SpecialityStore, cell: string)
    modifies store
    ensures store.Snapshot() == FileField(old(store.Snapshot()), Cell(cell))
  {
    var fieldRaw := Strip(cell);
    if fieldRaw != "" {
      var parts := SplitFirst(fieldRaw, ' ');
      if parts.Some? {
        var (code, name) := parts.value;
        if code !in store.fields {
          store.fields := store.fields[code := KnowledgeField(name, 0)];
        }
      }
    } else {
      assert Cell(cell).None?;
    }
  }

  /** The speciality half of a row in the store; `found` says whether it found its
      knowledge field. */
  method FileSpecCell(store: SpecialityStore, cell: string) returns (found: bool)
    modifies store
    ensures found == SpecFound(old(store.Snapshot()), Cell(cell))
    ensures store.Snapshot() == FileSpec(old(store.Snapshot()), Cell(cell))
  {
    found := false;
    var specRaw := Strip(cell);
    if specRaw != "" {
      var parts := SplitFirst(specRaw, ' ');
      if parts.Some? {
        var (code, name) := parts.value;
        var kf := Take(code, 2);
        if kf in store.fields {
          if code !in store.specialities {
            store.specialities := store.specialities[code := Speciality(kf, name, None, 1, 0)];
          }
          found := true;
        }
      }
    } else {
      assert Cell(cell).None?;
    }
  }

  /** One row in the store; `ok` is false when its database work raised, and then the
      store is left for the caller to roll back. */
  method ProcessRow(store: SpecialityStore, counts: Counts, row: seq<string>, bad: bool)
      returns (ok: bool, counts': Counts)
    modifies store
    ensures var p := Step(Running(old(store.Snapshot()), counts), row, bad);
            ok == p.Running? && (ok ==> store.Snapshot() == p.tables && counts' == p.counts)
  {
    counts' := counts;
    ok := true;
    if |row| < 2 {
      return;
    }
    if bad && Touches(row) {
      ok := false;
      return;
    }
    StepFiles(store.Snapshot(), counts, row, bad);
    FileFieldCell(store, row[0]);
    if Cell(row[0]).Some? {
      counts' := counts'.(fields := counts'.fields + 1);
    }
    var found := FileSpecCell(store, row[1]);
    if found {
      counts' := counts'.(specialities := counts'.specialities + 1);
    }
  }

  /** `handle` with `process_rows` inside `transaction.atomic()`; `rows` are the rows
      after the header. On an error the tables are restored and no counts are reported. */
  method LoadSpeciality(store: SpecialityStore, rows: seq<seq<string>>, faulty: set<nat>)
      returns (report: Option<Counts>)
    modifies store
    ensures store.Snapshot() == Committed(old(store.Snapshot()), rows, faulty)
    ensures var p := Process(old(store.Snapshot()), rows, faulty);
            report == if p.RolledBack? then None else Some(p.counts)
  {
    ghost var t0 := store.Snapshot();
    var savedFields, savedSpecialities := store.fields, store.specialities;
    var counts := Counts(0, 0);
    var i := 0;
    while i < |rows|
      invariant 0 <= i <= |rows|
      invariant Process(t0, rows[..i], faulty) == Running(store.Snapshot(), counts)
    {
      assert rows[..i + 1][..i] == rows[..i];
      var ok;
      ok, counts := ProcessRow(store, counts, rows[i], i in faulty);
      if !ok {
        RollbackStays(t0, rows, faulty, i + 1);
        store.fields, store.specialities := savedFields, savedSpecialities;
        return None;
      }
      i := i + 1;
    }
    assert rows[..|rows|] == rows;
    report := Some(counts);
  }

  // ---------------------------------------------------------------- properties

  /** Once rolled back, the run stays rolled back. */
  lemma {:induction false} RollbackStays(t: Tables, rows: seq<seq<string>>, faulty: set<nat>, k: nat)
    requires k <= |rows| && Process(t, rows[..k], faulty).RolledBack?
    ensures Process(t, rows, faulty).RolledBack?
  {
    if k < |rows| {
      var n := |rows| - 1;
      assert rows[..n][..k] == rows[..k];
      RollbackStays(t, rows[..n], faulty, k);
    } else {
      assert rows[..k] == rows;
    }
  }

  /** A processed row of two columns or more files its two halves in order. The ensures
      only spares callers unfolding `Step`. */
  lemma StepFiles(t: Tables, c: Counts, row: seq<string>, bad: bool)
    requires |row| >= 2 && !(bad && Touches(row))
    ensures var t1 := FileField(t, Cell(row[0]));
            Step(Running(t, c), row, bad)
            == Running(FileSpec(t1, Cell(row[1])),
                       Counts(c.fields + (if Cell(row[0]).Some? then 1 else 0),
                              c.specialities + (if SpecFound(t1, Cell(row[1])) then 1 else 0)))
  {
  }

  /** A row with fewer than two columns changes nothing and counts nothing. */
  lemma ShortRowSkipped(t: Tables, c: Counts, row: seq<string>, bad: bool)
    requires |row| < 2
    ensures Step(Running(t, c), row, bad) == Running(t, c)
  {
  }

  /** A cell without a space, non-empty or not, is ignored: a knowledge-field cell without
      one creates and counts no field, and the row does only its speciality half; a
      speciality cell without one creates and counts no speciality, and the row does only
      its field half. When neither cell has a space the row changes nothing. */
  lemma CellWithoutSpaceIgnored(t: Tables, c: Counts, row: seq<string>, bad: bool)
    requires |row| >= 2
    ensures ' ' !in Strip(row[0]) ==>
              Step(Running(t, c), row, bad)
              == if bad && SpecCell(row).Some? then RolledBack
                 else Running(FileSpec(t, SpecCell(row)),
                              Counts(c.fields, c.specialities + (if SpecFound(t, SpecCell(row)) then 1 else 0)))
    ensures ' ' !in Strip(row[1]) ==>
              Step(Running(t, c), row, bad)
              == if bad && FieldCell(row).Some? then RolledBack
                 else Running(FileField(t, FieldCell(row)),
                              Counts(c.fields + (if FieldCell(row).Some? then 1 else 0), c.specialities))
    ensures ' ' !in Strip(row[0]) && ' ' !in Strip(row[1]) ==> Step(Running(t, c), row, bad) == Running(t, c)
  {
  }

  /** A speciality whose two-character prefix names no knowledge field, even after the
      row's own field half, is not created and not counted; the run goes on. */
  lemma MissingFieldSkipsSpeciality(t: Tables, c: Counts, row: seq<string>, bad: bool)
    requires SpecCell(row).Some?
    requires Take(SpecCell(row).value.0, 2) !in FileField(t, FieldCell(row)).fields
    requires !(bad && Touches(row))
    ensures var p := Step(Running(t, c), row, bad);
            p.Running? && p.tables.specialities == t.specialities
            && p.counts.specialities == c.specialities
  {
  }

  /** The field in the first column is created before the second column is read: a
      speciality whose prefix is that field's code is filed under it in the same row. */
  lemma SameRowFieldServesSpeciality(t: Tables, c: Counts, row: seq<string>, bad: bool)
    requires FieldCell(row).Some? && SpecCell(row).Some?
    requires Take(SpecCell(row).value.0, 2) == FieldCell(row).value.0
    requires !(bad && Touches(row))
    ensures var p := Step(Running(t, c), row, bad);
            p.Running? && SpecCell(row).value.0 in p.tables.specialities
            && p.counts.specialities == c.specialities + 1
  {
  }

  /** Every speciality row sits at level one without a parent, under the knowledge
      field its code's first two characters name. */
  predicate Linked(t: Tables)
  {
    forall code :: code in t.specialities ==>
      var s := t.specialities[code];
      s.field == Take(code, 2) && s.field in t.fields && s.level == 1 && s.parent.None?
  }

  /** Both tables only gain rows. */
  predicate Grows(t: Tables, t': Tables)
  {
    Extends(t.fields, t'.fields) && Extends(t.specialities, t'.specialities)
  }

  lemma StepKeepsLinked(p: Progress, row: seq<string>, bad: bool)
    requires p.Running? && Linked(p.tables)
    ensures var q := Step(p, row, bad);
            q.Running? ==> Linked(q.tables) && Grows(p.tables, q.tables)
  {
  }

  /** A committed run only adds rows and keeps every speciality linked as created. */
  lemma {:induction false} CommittedKeepsLinked(t: Tables, rows: seq<seq<string>>, faulty: set<nat>)
    requires Linked(t)
    ensures Linked(Committed(t, rows, faulty)) && Grows(t, Committed(t, rows, faulty))
  {
    ProcessKeepsLinked(t, rows, faulty);
  }

  lemma {:induction false} ProcessKeepsLinked(t: Tables, rows: seq<seq<string>>, faulty: set<nat>)
    requires Linked(t)
    ensures var p := Process(t, rows, faulty);
            p.Running? ==> Linked(p.tables) && Grows(t, p.tables)
  {
    if rows != [] {
      var n := |rows| - 1;
      ProcessKeepsLinked(t, rows[..n], faulty);
      var mid := Process(t, rows[..n], faulty);
      if mid.Running? {
        StepKeepsLinked(mid, rows[n], n in faulty);
      }
    }
  }

  /** All or nothing: if any row's database work raises, the tables end exactly as they
      began. */
  lemma {:induction false} AllOrNothing(t: Tables, rows: seq<seq<string>>, faulty: set<nat>, j: nat)
    requires j < |rows| && j in faulty && Touches(rows[j])
    ensures Committed(t, rows, faulty) == t
  {
    var k := j + 1;
    assert rows[..k][..j] == rows[..j];
    assert rows[..k][j] == rows[j];
    RollbackStays(t, rows, faulty, k);
  }

  /** Without an error, every knowledge field of the file is present afterwards. */
  lemma {:induction false} FieldsPresent(t: Tables, rows: seq<seq<string>>, faulty: set<nat>, j: nat)
    requires j < |rows| && FieldCell(rows[j]).Some?
    requires Process(t, rows, faulty).Running?
    ensures FieldCell(rows[j]).value.0 in Committed(t, rows, faulty).fields
  {
    var n := |rows| - 1;
    var mid := Process(t, rows[..n], faulty);
    if mid.Running? && j < n {
      assert rows[..n][j] == rows[j];
      FieldsPresent(t, rows[..n], faulty, j);
      FieldsKept(mid, rows[n], n in faulty);
    }
  }

  lemma FieldsKept(p: Progress, row: seq<string>, bad: bool)
    requires p.Running?
    ensures var q := Step(p, row, bad);
            q.Running? ==> p.tables.fields.Keys <= q.tables.fields.Keys
  {
  }

  /** The loader itself does not check the declared code formats: on any tables, the row
      "ab X" / "ab7 Y" files a field coded "ab" and a speciality coded "ab7", neither of
      which the model's validators accept. */
  lemma FormatsNotEnforced(t: Tables, c: Counts)
    ensures var p := Step(Running(t, c), ["ab X", "ab7 Y"], false);
            p.Running? && "ab" in p.tables.fields && !ValidFieldCode("ab")
            && "ab7" in p.tables.specialities && !ValidSpecialityCode("ab7")
  {
    var row := ["ab X", "ab7 Y"];
    CellOf(row[0], "ab", "X");
    CellOf(row[1], "ab7", "Y");
    assert Take("ab7", 2) == "ab";
    SameRowFieldServesSpeciality(t, c, row, false);
    StepFiles(t, c, row, false);
    assert !AllDigits("ab") && !AllDigits("ab7");
  }

  /** The cell of a stripped text with a single space. */
  lemma CellOf(s: string, code: string, name: string)
    requires s == code + " " + name && ' ' !in code && ' ' !in name
    requires Stripped(s)
    ensures Cell(s) == Some((code, name))
  {
    SplitFirstAt(s, ' ', |code|);
    assert s[..|code|] == code && s[|code| + 1..] == name;
  }
}
