/** The job-title loader (`load_job_titles`): each data row of the detailed file becomes
    the JobTitle of its (code, name) pair, linked to the finest KP node whose code equals
    the row's code: a Position, else a Group, else a Subclass, else nothing. */
module JobTitleLoader {
  import opened Common
  import opened PositionData

  /** The cells of a row the loader reads, cleaned. */
  datatype TitleRow = TitleRow(code: string, zkpptr: string, etkd: string, dkhp: string, name: string)

  /** The `count` and `errors` counters. */
  datatype Counts = Counts(count: nat, errors: nat)

  datatype Outcome = Outcome(tables: Tables, counts: Counts)

  /** The header of the first column, skipped wherever it appears. */
  const HeaderCode: string := "КОД КП"

  /** A cell stripped of surrounding white space, then of every no-break space. */
  function CleanCell(s: string): (r: string)
    ensures NBSP !in r && Stripped(r)
    ensures Stripped(s) && NBSP !in s ==> r == s
  {
    RemoveSpaceKeepsStripped(Strip(s), NBSP);
    RemoveChar(Strip(s), NBSP)
  }

  /** A cleaned cell is the cell with a run of white space cut from each end and every
      no-break space removed; it has no white space at either end and no no-break space. */
  lemma CleanCellMeaning(s: string)
    ensures Stripped(CleanCell(s)) && NBSP !in CleanCell(s)
    ensures exists i, j :: 0 <= i <= j <= |s| && AllSpace(s[..i]) && AllSpace(s[j..])
                           && CleanCell(s) == RemoveChar(s[i..j], NBSP)
  {
    StripThenRemove(s, NBSP);
  }

  /** The row the loader acts on, or None when it skips the row: fewer than five cells, an
      empty code, the header code, or an empty name. The code is stripped once more after
      the no-break spaces are gone. */
  function ParseRow(cells: seq<string>): Option<TitleRow>
  {
    if |cells| < 5 then None
    else
      var code := Strip(CleanCell(cells[0]));
      var name := CleanCell(cells[4]);
      if code == "" || code == HeaderCode || name == "" then None
      else Some(TitleRow(code, CleanCell(cells[1]), CleanCell(cells[2]), CleanCell(cells[3]), name))
  }

  /** Some Position carries exactly this code. */
  predicate HasPosition(t: Tables, code: string)
  {
    exists p :: p in t.positions && p.code == code
  }

  /** The job title a parsed row writes: the link goes to a Position of that code when
      one exists, else to the Group of that code, else to the Subclass of that code. */
  function TitleOf(t: Tables, r: TitleRow): JobTitle
  {
    var position := if HasPosition(t, r.code) then Some(r.code) else None;
    var group := if position.None? && r.code in t.groups then Some(r.code) else None;
    var subclass := if position.None? && group.None? && r.code in t.subclasses then Some(r.code) else None;
    JobTitle(r.zkpptr, r.etkd, r.dkhp, position, group, subclass)
  }

  /** Reference definition of one data row; `bad` says the `update_or_create` raises. */
  function TitleStep(t: Tables, cells: seq<string>, bad: bool): Outcome
  {
    var p := ParseRow(cells);
    if p.None? then Outcome(t, Counts(0, 0))
    else if bad then Outcome(t, Counts(0, 1))
    else
      var r := p.value;
      Outcome(t.(jobTitles := t.jobTitles[(r.code, r.name) := TitleOf(t, r)]), Counts(1, 0))
  }

  function Load(t: Tables, rows: seq<seq<string>>, faulty: set<nat>): Outcome
  {
    if rows == [] then Outcome(t, Counts(0, 0))
    else
      var n := |rows| - 1;
      var before := Load(t, rows[..n], faulty);
      var step := TitleStep(before.tables, rows[n], n in faulty);
      Outcome(step.tables, Counts(before.counts.count + step.counts.count,
                                  before.counts.errors + step.counts.errors))
  }

  /** The rows after the header line. */
  function DataRows(lines: seq<seq<string>>): seq<seq<string>>
  {
    if lines == [] then [] else lines[1..]
  }

  // ---------------------------------------------------------------- the command

  method TitleRowStep(store: PositionStore, cells: seq<string>, bad: bool) returns (d: Counts)
    modifies store
    ensures Outcome(store.Snapshot(), d) == TitleStep(old(store.Snapshot()), cells, bad)
  {
    d := Counts(0, 0);
    if |cells| < 5 {
      return;
    }
    var code := CleanCell(cells[0]);
    code := Strip(code);
    if code == "" || code == HeaderCode {
      return;
    }
    var zkpptr := CleanCell(cells[1]);
    var etkd := CleanCell(cells[2]);
    var dkhp := CleanCell(cells[3]);
    var name := CleanCell(cells[4]);
    if name == "" {
      return;
    }
    var position: Option<string> := None;
    var group: Option<string> := None;
    var subclass: Option<string> := None;
    if exists p :: p in store.positions && p.code == code {
      position := Some(code);
    }
    if position.None? && code in store.groups {
      group := Some(code);
    }
    if position.None? && group.None? && code in store.subclasses {
      subclass := Some(code);
    }
    if bad {
      d := Counts(0, 1);
      return;
    }
    store.jobTitles := store.jobTitles[(code, name) := JobTitle(zkpptr, etkd, dkhp, position, group, subclass)];
    d := Counts(1, 0);
  }

  /** `load_job_titles`'s `handle` on the lines of the file, header first; `faulty` holds
      the indices, among the data rows, of the rows whose write raises. */
  method LoadJobTitles(store: PositionStore, lines: seq<seq<string>>, faulty: set<nat>) returns (count: nat, errors: nat)
    modifies store
    ensures Outcome(store.Snapshot(), Counts(count, errors)) == Load(old(store.Snapshot()), DataRows(lines), faulty)
  {
    ghost var t0 := store.Snapshot();
    var rows := if |lines| == 0 then [] else lines[1..];
    count, errors := 0, 0;
    var i := 0;
    while i < |rows|
      invariant 0 <= i <= |rows|
      invariant Outcome(store.Snapshot(), Counts(count, errors)) == Load(t0, rows[..i], faulty)
    {
      var d := TitleRowStep(store, rows[i], i in faulty);
      assert rows[..i + 1][..i] == rows[..i];
      count, errors := count + d.count, errors + d.errors;
      i := i + 1;
    }
    assert rows[..|rows|] == rows;
  }

  // ---------------------------------------------------------------- properties

  /** Every job title links to at most one KP node, and the link it has is the finest one
      whose code exists: a Group only when no Position has the code, a Subclass only when
      neither a Position nor a Group has it, nothing only when none has it. */
  lemma LinkIsFinestMatch(t: Tables, r: TitleRow)
    ensures var j := TitleOf(t, r);
            && (j.position.Some? ==> j.group.None? && j.subclass.None?)
            && (j.group.Some? ==> j.subclass.None?)
            && (j.position == Some(r.code) <==> HasPosition(t, r.code))
            && (j.group == Some(r.code) <==> !HasPosition(t, r.code) && r.code in t.groups)
            && (j.subclass == Some(r.code) <==> !HasPosition(t, r.code) && r.code !in t.groups && r.code in t.subclasses)
            && (j.position.None? && j.group.None? && j.subclass.None? <==>
                !HasPosition(t, r.code) && r.code !in t.groups && r.code !in t.subclasses)
  {
  }

  /** A parsed row's code and name are non-empty, stripped and free of no-break spaces,
      and the code is not the header. */
  lemma ParsedRowIsClean(cells: seq<string>)
    requires ParseRow(cells).Some?
    ensures var r := ParseRow(cells).value;
            && Clean(r.code) && Clean(r.name) && r.code != HeaderCode
            && NBSP !in r.zkpptr && NBSP !in r.etkd && NBSP !in r.dkhp
  {
    var c := CleanCell(cells[0]);
    assert Strip(c) == c;
  }

  predicate Clean(s: string) { s != "" && Stripped(s) && NBSP !in s }

  /** Every job-title key is a non-empty, stripped, no-break-space-free (code, name). */
  predicate CleanKeys(t: Tables)
  {
    forall k :: k in t.jobTitles ==> Clean(k.0) && Clean(k.1)
  }

  /** The KP tables are read and never written by this command. */
  predicate OnlyTitlesChange(t: Tables, r: Tables)
  {
    r == t.(jobTitles := r.jobTitles)
  }

  /** The (code, name) keys the data rows ask for, among the rows that do not raise. */
  function KeysOf(rows: seq<seq<string>>, faulty: set<nat>): set<(string, string)>
  {
    if rows == [] then {}
    else
      var n := |rows| - 1;
      var p := ParseRow(rows[n]);
      KeysOf(rows[..n], faulty) + if p.Some? && n !in faulty then {(p.value.code, p.value.name)} else {}
  }

  /** One data row writes exactly the title of its own (code, name), or nothing. The
      first ensures only spares callers unfolding `TitleStep`. */
  lemma TitleStepWrites(t: Tables, cells: seq<string>, bad: bool)
    ensures var p := ParseRow(cells);
            TitleStep(t, cells, bad).tables ==
              if p.Some? && !bad then t.(jobTitles := t.jobTitles[(p.value.code, p.value.name) := TitleOf(t, p.value)])
              else t
    ensures ParseRow(cells).Some? ==> Clean(ParseRow(cells).value.code) && Clean(ParseRow(cells).value.name)
  {
    if ParseRow(cells).Some? {
      ParsedRowIsClean(cells);
    }
  }

  /** The loader only upserts: it adds exactly the keys of the rows that do not raise,
      keeps every other title, leaves the KP tables alone and keeps the keys clean. */
  lemma {:induction false} LoadUpserts(t: Tables, rows: seq<seq<string>>, faulty: set<nat>)
    ensures var r := Load(t, rows, faulty).tables;
            && OnlyTitlesChange(t, r)
            && r.jobTitles.Keys == t.jobTitles.Keys + KeysOf(rows, faulty)
            && (forall k :: k in t.jobTitles && k !in KeysOf(rows, faulty) ==> r.jobTitles[k] == t.jobTitles[k])
            && (CleanKeys(t) ==> CleanKeys(r))
  {
    LoadOnlyTitles(t, rows, faulty);
    LoadKeys(t, rows, faulty);
    LoadKeepsUnasked(t, rows, faulty);
    if CleanKeys(t) {
      LoadKeepsClean(t, rows, faulty);
    }
  }

  lemma {:induction false} LoadKeys(t: Tables, rows: seq<seq<string>>, faulty: set<nat>)
    ensures Load(t, rows, faulty).tables.jobTitles.Keys == t.jobTitles.Keys + KeysOf(rows, faulty)
  {
    if rows != [] {
      var n := |rows| - 1;
      LoadKeys(t, rows[..n], faulty);
      TitleStepWrites(Load(t, rows[..n], faulty).tables, rows[n], n in faulty);
    }
  }

  lemma {:induction false} LoadKeepsUnasked(t: Tables, rows: seq<seq<string>>, faulty: set<nat>)
    ensures var r := Load(t, rows, faulty).tables;
            forall k :: k in t.jobTitles && k !in KeysOf(rows, faulty) ==> k in r.jobTitles && r.jobTitles[k] == t.jobTitles[k]
  {
    if rows != [] {
      var n := |rows| - 1;
      LoadKeepsUnasked(t, rows[..n], faulty);
      TitleStepWrites(Load(t, rows[..n], faulty).tables, rows[n], n in faulty);
    }
  }

  lemma {:induction false} LoadKeepsClean(t: Tables, rows: seq<seq<string>>, faulty: set<nat>)
    requires CleanKeys(t)
    ensures CleanKeys(Load(t, rows, faulty).tables)
  {
    if rows != [] {
      var n := |rows| - 1;
      LoadKeepsClean(t, rows[..n], faulty);
      TitleStepWrites(Load(t, rows[..n], faulty).tables, rows[n], n in faulty);
    }
  }

  /** The last writer wins: when data row `j` does not raise and no later row that does
      not raise has the same (code, name), the title of that pair is the one row `j`
      builds. As the KP tables do not change, its link is computed from the tables the
      command started with. */
  lemma {:induction false} LastWriterWins(t: Tables, rows: seq<seq<string>>, faulty: set<nat>, j: nat)
    requires j < |rows| && j !in faulty && ParseRow(rows[j]).Some?
    requires forall i :: j < i < |rows| && i !in faulty ==> KeyOf(rows[i]) != KeyOf(rows[j])
    ensures KeyOf(rows[j]).value in Load(t, rows, faulty).tables.jobTitles
    ensures Load(t, rows, faulty).tables.jobTitles[KeyOf(rows[j]).value] == TitleOf(t, ParseRow(rows[j]).value)
    decreases |rows|, 1
  {
    if j < |rows| - 1 {
      LaterRowKeeps(t, rows, faulty, j);
    } else {
      var n := |rows| - 1;
      LoadLast(t, rows, faulty);
      LoadOnlyTitles(t, rows[..n], faulty);
      StepWritesOwnKey(Load(t, rows[..n], faulty).tables, rows[n], t);
    }
  }

  lemma {:induction false} LaterRowKeeps(t: Tables, rows: seq<seq<string>>, faulty: set<nat>, j: nat)
    requires j < |rows| - 1 && j !in faulty && ParseRow(rows[j]).Some?
    requires forall i :: j < i < |rows| && i !in faulty ==> KeyOf(rows[i]) != KeyOf(rows[j])
    ensures KeyOf(rows[j]).value in Load(t, rows, faulty).tables.jobTitles
    ensures Load(t, rows, faulty).tables.jobTitles[KeyOf(rows[j]).value] == TitleOf(t, ParseRow(rows[j]).value)
    decreases |rows|, 0
  {
    var n := |rows| - 1;
    var front := rows[..n];
    assert front[j] == rows[j];
    forall i | j < i < n && i !in faulty ensures KeyOf(front[i]) != KeyOf(front[j]) {
      assert front[i] == rows[i];
    }
    LastWriterWins(t, front, faulty, j);
    LoadLast(t, rows, faulty);
    StepKeepsOtherKey(Load(t, front, faulty).tables, rows[n], n in faulty, KeyOf(rows[j]).value);
  }

  lemma LoadLast(t: Tables, rows: seq<seq<string>>, faulty: set<nat>)
    requires rows != []
    ensures var n := |rows| - 1;
            Load(t, rows, faulty).tables == TitleStep(Load(t, rows[..n], faulty).tables, rows[n], n in faulty).tables
  {
  }

  lemma {:induction false} LoadOnlyTitles(t: Tables, rows: seq<seq<string>>, faulty: set<nat>)
    ensures OnlyTitlesChange(t, Load(t, rows, faulty).tables)
  {
    if rows != [] {
      LoadOnlyTitles(t, rows[..|rows| - 1], faulty);
    }
  }

  lemma StepKeepsOtherKey(t: Tables, cells: seq<string>, bad: bool, k: (string, string))
    requires k in t.jobTitles && (bad || KeyOf(cells) != Some(k))
    ensures k in TitleStep(t, cells, bad).tables.jobTitles
    ensures TitleStep(t, cells, bad).tables.jobTitles[k] == t.jobTitles[k]
  {
  }

  lemma StepWritesOwnKey(t: Tables, cells: seq<string>, t0: Tables)
    requires ParseRow(cells).Some? && OnlyTitlesChange(t0, t)
    ensures KeyOf(cells).value in TitleStep(t, cells, false).tables.jobTitles
    ensures TitleStep(t, cells, false).tables.jobTitles[KeyOf(cells).value] == TitleOf(t0, ParseRow(cells).value)
  {
  }

  /** The (code, name) a row writes, or None when it is skipped. The ensures only spare
      callers unfolding the body. */
  function KeyOf(cells: seq<string>): (k: Option<(string, string)>)
    ensures k.Some? <==> ParseRow(cells).Some?
    ensures k.Some? ==> k.value == (ParseRow(cells).value.code, ParseRow(cells).value.name)
  {
    var p := ParseRow(cells);
    if p.Some? then Some((p.value.code, p.value.name)) else None
  }

  /** The number of data rows the loader acts on: ones it does not skip. */
  function ParsedCount(rows: seq<seq<string>>): nat
  {
    if rows == [] then 0
    else ParsedCount(rows[..|rows| - 1]) + if ParseRow(rows[|rows| - 1]).Some? then 1 else 0
  }

  /** The number of data rows the loader acts on whose write raises. */
  function FaultyCount(rows: seq<seq<string>>, faulty: set<nat>): nat
  {
    if rows == [] then 0
    else
      var n := |rows| - 1;
      FaultyCount(rows[..n], faulty) + if ParseRow(rows[n]).Some? && n in faulty then 1 else 0
  }

  /** Every row that is not skipped is counted exactly once, as a record or as an error,
      and the errors are exactly the rows that are not skipped and raise. */
  lemma {:induction false} CountsAddUp(t: Tables, rows: seq<seq<string>>, faulty: set<nat>)
    ensures var c := Load(t, rows, faulty).counts;
            c.count + c.errors == ParsedCount(rows) && c.errors == FaultyCount(rows, faulty)
  {
    if rows != [] {
      CountsAddUp(t, rows[..|rows| - 1], faulty);
    }
  }
}
