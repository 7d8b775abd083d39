/** The KP loader (`load_kp`): two passes over the rows of the classification file.
    Pass one files every dot-free code as a Section, Subsection, Class or Subclass under a
    parent found by its code prefix; pass two files every dotted code as a Position under
    the Group named by its text before the dot, first turning a Subclass of that code
    into a Group (and deleting the Subclass) when no Group exists yet. */
module KpLoader {
  import opened Common
  import opened KpCodes
  import opened PositionData

  /** One row of the file: its `Код` and `Група професій` cells, '' when absent. */
  datatype KpRow = KpRow(code: string, name: string)

  /** The `stats` counters of the command. */
  datatype Stats = Stats(sections: int, subsections: int, classes: int, subclasses: int,
                         groups: int, positions: int, errors: int)
  {
    function Plus(d: Stats): Stats
    {
      Stats(sections + d.sections, subsections + d.subsections, classes + d.classes,
            subclasses + d.subclasses, groups + d.groups, positions + d.positions, errors + d.errors)
    }
  }

  const Zero := Stats(0, 0, 0, 0, 0, 0, 0)
  const OneError := Zero.(errors := 1)

  /** The tables after some rows, and what the counters gained meanwhile. */
  datatype Outcome = Outcome(tables: Tables, stats: Stats)

  /** Python truthiness of an optional code: present and not empty. */
  predicate Present(p: Option<string>) { p.Some? && p.value != "" }

  // ---------------------------------------------------------------- pass one

  /** The level pass one acts on for a row, or None when it passes over the row: an
      empty code or name, a dotted code, a code without digits, or a group-level code
      (five digits or more), for which no branch exists. */
  function Pass1Level(row: KpRow): Option<Level>
  {
    var code := Strip(row.code);
    var name := Strip(row.name);
    var level := GetCodeLevel(code);
    if code == "" || name == "" || '.' in code || level.None? then None
    else if level.value == PositionLevel || level.value == GroupLevel then None
    else level
  }

  /** Reference definition of one row of pass one; `bad` says the row's database work raises. */
  function Pass1Step(t: Tables, row: KpRow, bad: bool): Outcome
  {
    var level := Pass1Level(row);
    if level.None? then Outcome(t, Zero)
    else if bad then Outcome(t, OneError)
    else FileUpper(t, level.value, Strip(row.code), Strip(row.name))
  }

  /** Pass one's work on a row of the given level, on its stripped code and name. */
  function FileUpper(t: Tables, level: Level, code: string, name: string): Outcome
  {
    match level
    case SectionLevel =>
      Outcome(t.(sections := GetOrCreate(t.sections, code, name)), Zero.(sections := 1))
    case SubsectionLevel => FileSubsection(t, code, name)
    case ClassLevel => FileClass(t, code, name)
    case SubclassLevel => FileSubclass(t, code, name)
    case _ => Outcome(t, Zero)
  }

  function FileSubsection(t: Tables, code: string, name: string): Outcome
  {
    var p := GetParentCode(code, SubsectionLevel);
    if Present(p) && p.value in t.sections then
      Outcome(t.(subsections := GetOrCreate(t.subsections, code, Subsection(name, p.value))),
              Zero.(subsections := 1))
    else Outcome(t, OneError)
  }

  /** A class goes under its two-digit subsection when that exists, else straight under
      its one-digit section. */
  function FileClass(t: Tables, code: string, name: string): Outcome
  {
    var p := GetParentCode(code, ClassLevel);
    if Present(p) && p.value in t.subsections then
      var k := KpClass(name, Some(p.value), t.subsections[p.value].section);
      Outcome(t.(classes := GetOrCreate(t.classes, code, k)), Zero.(classes := 1))
    else
      var s := if Present(p) then GetParentCode(p.value, SubsectionLevel) else None;
      if Present(s) && s.value in t.sections then
        Outcome(t.(classes := GetOrCreate(t.classes, code, KpClass(name, None, s.value))),
                Zero.(classes := 1))
      else Outcome(t, OneError)
  }

  function FileSubclass(t: Tables, code: string, name: string): Outcome
  {
    var p := GetParentCode(code, SubclassLevel);
    if Present(p) && p.value in t.classes then
      Outcome(t.(subclasses := GetOrCreate(t.subclasses, code, Subclass(name, p.value))),
              Zero.(subclasses := 1))
    else Outcome(t, OneError)
  }

  /** Pass one over `rows`, in file order; row `i` raises when `i` is in `faulty`. */
  function Pass1(t: Tables, rows: seq<KpRow>, faulty: set<nat>): Outcome
  {
    if rows == [] then Outcome(t, Zero)
    else
      var n := |rows| - 1;
      var before := Pass1(t, rows[..n], faulty);
      var step := Pass1Step(before.tables, rows[n], n in faulty);
      Outcome(step.tables, before.stats.Plus(step.stats))
  }

  // ---------------------------------------------------------------- pass two

  /** A row pass two files as a position: non-empty code and name, and a dot in the code. */
  predicate PositionRow(row: KpRow)
  {
    Strip(row.code) != "" && Strip(row.name) != "" && '.' in Strip(row.code)
  }

  /** The row's code names `c` as its group: `c` is its text before the first dot. */
  predicate AsksFor(row: KpRow, c: string)
  {
    '.' in Strip(row.code) && BeforeFirst(Strip(row.code), '.') == c
  }

  /** Reference definition of one row of pass two. Every dotted code is at the position
      level, so the source's level test never skips a row here. */
  function Pass2Step(t: Tables, row: KpRow, bad: bool): Outcome
  {
    if !PositionRow(row) then Outcome(t, Zero)
    else FilePosition(t, Strip(row.code), Strip(row.name), bad)
  }

  /** Pass two's work on a dotted code: file the position under the group named by the
      text before the dot, promoting a subclass of that code to a group when needed.
      `bad` says the write of the position raises; the row's work before it is not
      undone, so a promotion stays done and its counters stay moved. */
  function FilePosition(t: Tables, code: string, name: string, bad: bool): Outcome
  {
    var p := GetParentCode(code, PositionLevel);
    if !Present(p) then Outcome(t, OneError)
    else if p.value in t.groups then
      if bad then Outcome(t, OneError)
      else Outcome(AddPosition(t, Position(code, name, p.value)), Zero.(positions := 1))
    else if p.value in t.subclasses then
      var promoted := Promote(t, p.value);
      if bad then Outcome(promoted, Zero.(groups := 1, subclasses := -1, errors := 1))
      else Outcome(AddPosition(promoted, Position(code, name, p.value)), Zero.(groups := 1, subclasses := -1, positions := 1))
    else Outcome(t, OneError)
  }

  /** The Subclass `g` replaced by a Group of the same code, name and class. */
  function Promote(t: Tables, g: string): Tables
    requires g in t.subclasses
  {
    var sc := t.subclasses[g];
    t.(groups := t.groups[g := Group(sc.name, Some(sc.classCode))],
       subclasses := t.subclasses - {g})
  }

  function AddPosition(t: Tables, position: Position): Tables
  {
    t.(positions := t.positions + {position})
  }

  function Pass2(t: Tables, rows: seq<KpRow>, faulty: set<nat>): Outcome
  {
    if rows == [] then Outcome(t, Zero)
    else
      var n := |rows| - 1;
      var before := Pass2(t, rows[..n], faulty);
      var step := Pass2Step(before.tables, rows[n], n in faulty);
      Outcome(step.tables, before.stats.Plus(step.stats))
  }

  /** The whole command: pass one, then pass two over the same rows, one set of counters. */
  function Run(t: Tables, rows: seq<KpRow>, faulty: set<nat>): Outcome
  {
    var first := Pass1(t, rows, faulty);
    var second := Pass2(first.tables, rows, faulty);
    Outcome(second.tables, first.stats.Plus(second.stats))
  }

  // ---------------------------------------------------------------- the command

  method Pass1Row(store: PositionStore, row: KpRow, bad: bool) returns (d: Stats)
    modifies store
    ensures Outcome(store.Snapshot(), d) == Pass1Step(old(store.Snapshot()), row, bad)
  {
    d := Zero;
    var code := Strip(row.code);
    var name := Strip(row.name);
    if code == "" || name == "" || '.' in code {
      return;
    }
    var level := GetCodeLevel(code);
    if level.None? || level.value == PositionLevel || level.value == GroupLevel {
      return;
    }
    if bad {
      d := OneError;
      return;
    }
    match level.value {
      case SectionLevel =>
        if code !in store.sections {
          store.sections := store.sections[code := name];
        }
        d := d.(sections := 1);
      case SubsectionLevel =>
        var p := GetParentCode(code, SubsectionLevel);
        if Present(p) && p.value in store.sections {
          if code !in store.subsections {
            store.subsections := store.subsections[code := Subsection(name, p.value)];
          }
          d := d.(subsections := 1);
        } else {
          d := OneError;
        }
      case ClassLevel =>
        var p := GetParentCode(code, ClassLevel);
        var subsection: Option<string> := None;
        var section: Option<string> := None;
        if Present(p) {
          if p.value in store.subsections {
            subsection := p;
          } else {
            var s := GetParentCode(p.value, SubsectionLevel);
            if Present(s) && s.value in store.sections {
              section := s;
            }
          }
        }
        if subsection.Some? {
          if code !in store.classes {
            var k := KpClass(name, subsection, store.subsections[subsection.value].section);
            store.classes := store.classes[code := k];
          }
          d := d.(classes := 1);
        } else if section.Some? {
          if code !in store.classes {
            store.classes := store.classes[code := KpClass(name, None, section.value)];
          }
          d := d.(classes := 1);
        } else {
          d := OneError;
        }
      case SubclassLevel =>
        var p := GetParentCode(code, SubclassLevel);
        if Present(p) && p.value in store.classes {
          if code !in store.subclasses {
            store.subclasses := store.subclasses[code := Subclass(name, p.value)];
          }
          d := d.(subclasses := 1);
        } else {
          d := OneError;
        }
    }
  }

  method Pass2Row(store: PositionStore, row: KpRow, bad: bool) returns (d: Stats)
    modifies store
    ensures Outcome(store.Snapshot(), d) == Pass2Step(old(store.Snapshot()), row, bad)
  {
    d := Zero;
    var code := Strip(row.code);
    var name := Strip(row.name);
    if code == "" || name == "" || '.' !in code {
      return;
    }
    if GetCodeLevel(code) != Some(PositionLevel) {
      return;
    }
    var p := GetParentCode(code, PositionLevel);
    if !Present(p) {
      d := OneError;
      return;
    }
    var parent := p.value;
    var hasGroup := parent in store.groups;
    if !hasGroup && parent in store.subclasses {
      var sc := store.subclasses[parent];
      store.groups := store.groups[parent := Group(sc.name, Some(sc.classCode))];
      d := d.(groups := 1, subclasses := -1);
      store.subclasses := store.subclasses - {parent};
      hasGroup := true;
    }
    if hasGroup && bad {
      d := d.(errors := 1);
    } else if hasGroup {
      store.positions := store.positions + {Position(code, name, parent)};
      d := d.(positions := d.positions + 1);
    } else {
      d := OneError;
    }
  }

  /** `load_kp`'s `handle` on rows already read from the file. */
  method LoadKp(store: PositionStore, rows: seq<KpRow>, faulty: set<nat>) returns (stats: Stats)
    modifies store
    ensures Outcome(store.Snapshot(), stats) == Run(old(store.Snapshot()), rows, faulty)
  {
    var s1 := RunPass1(store, rows, faulty);
    var s2 := RunPass2(store, rows, faulty);
    stats := s1.Plus(s2);
  }

  method RunPass1(store: PositionStore, rows: seq<KpRow>, faulty: set<nat>) returns (stats: Stats)
    modifies store
    ensures Outcome(store.Snapshot(), stats) == Pass1(old(store.Snapshot()), rows, faulty)
  {
    ghost var t0 := store.Snapshot();
    stats := Zero;
    var i := 0;
    while i < |rows|
      invariant 0 <= i <= |rows|
      invariant Outcome(store.Snapshot(), stats) == Pass1(t0, rows[..i], faulty)
    {
      var d := Pass1Row(store, rows[i], i in faulty);
      Pass1Snoc(t0, rows, faulty, i);
      stats := stats.Plus(d);
      i := i + 1;
    }
    assert rows[..|rows|] == rows;
  }

  method RunPass2(store: PositionStore, rows: seq<KpRow>, faulty: set<nat>) returns (stats: Stats)
    modifies store
    ensures Outcome(store.Snapshot(), stats) == Pass2(old(store.Snapshot()), rows, faulty)
  {
    ghost var t0 := store.Snapshot();
    stats := Zero;
    var i := 0;
    while i < |rows|
      invariant 0 <= i <= |rows|
      invariant Outcome(store.Snapshot(), stats) == Pass2(t0, rows[..i], faulty)
    {
      var d := Pass2Row(store, rows[i], i in faulty);
      Pass2Snoc(t0, rows, faulty, i);
      stats := stats.Plus(d);
      i := i + 1;
    }
    assert rows[..|rows|] == rows;
  }

  lemma Pass1Snoc(t: Tables, rows: seq<KpRow>, faulty: set<nat>, i: nat)
    requires i < |rows|
    ensures var before := Pass1(t, rows[..i], faulty);
            var step := Pass1Step(before.tables, rows[i], i in faulty);
            Pass1(t, rows[..i + 1], faulty) == Outcome(step.tables, before.stats.Plus(step.stats))
  {
    assert rows[..i + 1][..i] == rows[..i];
  }

  lemma Pass2Snoc(t: Tables, rows: seq<KpRow>, faulty: set<nat>, i: nat)
    requires i < |rows|
    ensures var before := Pass2(t, rows[..i], faulty);
            var step := Pass2Step(before.tables, rows[i], i in faulty);
            Pass2(t, rows[..i + 1], faulty) == Outcome(step.tables, before.stats.Plus(step.stats))
  {
    assert rows[..i + 1][..i] == rows[..i];
  }

  // ---------------------------------------------------------------- properties of one row

  /** A subsection or subclass whose derived parent is missing creates nothing and counts
      exactly one error. */
  lemma MissingParentIsOneError(t: Tables, row: KpRow)
    requires Pass1Level(row) == Some(SubsectionLevel) || Pass1Level(row) == Some(SubclassLevel)
    requires var level := Pass1Level(row).value;
             var p := GetParentCode(Strip(row.code), level);
             !Present(p) || p.value !in (if level == SubsectionLevel then t.sections.Keys else t.classes.Keys)
    ensures Pass1Step(t, row, false) == Outcome(t, OneError)
  {
  }

  /** A class row joins the subsection named by the first two digits of its code, and
      that subsection's section, when the subsection exists; otherwise it joins the
      section named by the first digit, with no subsection; with neither, it is one
      error. The code is filed as written, other characters included. */
  lemma ClassRowAttachment(t: Tables, row: KpRow)
    requires Pass1Level(row) == Some(ClassLevel)
    ensures var c := Strip(row.code);
            var d := DigitsOnly(c);
            var r := Pass1Step(t, row, false);
            |d| >= 2 &&
            if d[..2] in t.subsections then
              r.stats == Zero.(classes := 1) &&
              r.tables.classes[c] == (if c in t.classes then t.classes[c]
                                      else KpClass(Strip(row.name), Some(d[..2]), t.subsections[d[..2]].section))
            else if d[..1] in t.sections then
              r.stats == Zero.(classes := 1) &&
              r.tables.classes[c] == (if c in t.classes then t.classes[c]
                                      else KpClass(Strip(row.name), None, d[..1]))
            else r == Outcome(t, OneError)
  {
    var c := Strip(row.code);
    var d := DigitsOnly(c);
    var p := d[..2];
    DigitsAreStripped(p);
    assert DigitsOnly(p) == p;
    assert p[..1] == d[..1];
    assert GetParentCode(c, ClassLevel) == Some(p);
  }

  /** The codes of a dot-free level's table. */
  function LevelKeys(t: Tables, level: Level): set<string>
  {
    match level
    case SectionLevel => t.sections.Keys
    case SubsectionLevel => t.subsections.Keys
    case ClassLevel => t.classes.Keys
    case SubclassLevel => t.subclasses.Keys
    case _ => {}
  }

  /** The counter a successful row of a dot-free level adds to. */
  function LevelCount(level: Level): Stats
  {
    match level
    case SectionLevel => Zero.(sections := 1)
    case SubsectionLevel => Zero.(subsections := 1)
    case ClassLevel => Zero.(classes := 1)
    case SubclassLevel => Zero.(subclasses := 1)
    case _ => Zero
  }

  /** Pass one finds the parent of a dot-free code: always for a section; for a
      subsection and a subclass when the one- or three-digit prefix names a section or a
      class; for a class when the two-digit prefix names a subsection or, failing that,
      the one-digit prefix names a section. */
  predicate ParentFound(t: Tables, level: Level, code: string)
  {
    var p := GetParentCode(code, level);
    match level
    case SectionLevel => true
    case SubsectionLevel => Present(p) && p.value in t.sections
    case ClassLevel =>
      Present(p) && (p.value in t.subsections
                     || (Present(GetParentCode(p.value, SubsectionLevel))
                         && GetParentCode(p.value, SubsectionLevel).value in t.sections))
    case SubclassLevel => Present(p) && p.value in t.classes
    case _ => false
  }

  /** A code already in its table keeps its name and parent: pass one changes no table
      for it. Yet the row is counted as usual: its level's counter goes up by one when its
      parent is found (always, for a section), and it is one error when it is not. */
  lemma ExistingCodeKeptButCounted(t: Tables, row: KpRow)
    requires Pass1Level(row).Some? && Strip(row.code) in LevelKeys(t, Pass1Level(row).value)
    ensures var level := Pass1Level(row).value;
            var r := Pass1Step(t, row, false);
            r.tables == t
            && r.stats == if ParentFound(t, level, Strip(row.code)) then LevelCount(level) else OneError
  {
  }

  /** A row whose work raises in pass one counts one error and changes no table, as each
      such row does a single write. In pass two a row that raises counts one error and
      files no position; it changes no table unless it promoted a Subclass first (see
      FaultAfterPromotionKeepsGroup). */
  lemma FaultyRowIsOneError(t: Tables, row: KpRow)
    ensures Pass1Step(t, row, true).tables == t
    ensures Pass1Level(row).Some? ==> Pass1Step(t, row, true).stats == OneError
    ensures Pass2Step(t, row, true).tables.positions == t.positions
    ensures PositionRow(row) ==> Pass2Step(t, row, true).stats.errors == 1 && Pass2Step(t, row, true).stats.positions == 0
    ensures PositionRow(row) && !(BeforeFirst(Strip(row.code), '.') in t.subclasses.Keys - t.groups.Keys)
            ==> Pass2Step(t, row, true) == Outcome(t, OneError)
  {
    if PositionRow(row) {
      PositionParentIsPrefix(row.code);
    }
  }

  /** A position row whose write raises after its Subclass was promoted leaves the new
      Group in place and the Subclass deleted: the counters move by groups +1,
      subclasses -1 and errors +1, and no position is filed. */
  lemma FaultAfterPromotionKeepsGroup(t: Tables, row: KpRow, c: string)
    requires PositionRow(row) && AsksFor(row, c) && c != ""
    requires c !in t.groups && c in t.subclasses
    ensures Pass2Step(t, row, true) == Outcome(Promote(t, c), Zero.(groups := 1, subclasses := -1, errors := 1))
  {
    PositionParentIsPrefix(row.code);
  }

  /** A position row whose group exists adds its Position under that group, counts one
      position and changes nothing else. */
  lemma PositionUnderExistingGroup(t: Tables, row: KpRow, c: string)
    requires PositionRow(row) && AsksFor(row, c) && c != "" && c in t.groups
    ensures Pass2Step(t, row, false)
            == Outcome(t.(positions := t.positions + {Position(Strip(row.code), Strip(row.name), c)}), Zero.(positions := 1))
  {
    PositionParentIsPrefix(row.code);
  }

  /** A position row whose code has nothing before the dot, or names neither a Group nor a
      Subclass, is one error and changes nothing, whether or not its work would raise. */
  lemma OrphanPositionIsOneError(t: Tables, row: KpRow, bad: bool)
    requires PositionRow(row)
    requires var c := BeforeFirst(Strip(row.code), '.');
             c == "" || (c !in t.groups && c !in t.subclasses)
    ensures Pass2Step(t, row, bad) == Outcome(t, OneError)
  {
    PositionParentIsPrefix(row.code);
  }

  /** Pass one leaves position and group codes, and rows with a dot in the code, the empty
      code or the empty name, to pass two: they change nothing and count nothing, even when
      their database work would raise. */
  lemma Pass1SkipsLowerCodes(t: Tables, row: KpRow, bad: bool)
    requires var level := GetCodeLevel(Strip(row.code));
             level == Some(PositionLevel) || level == Some(GroupLevel) || level.None?
             || '.' in Strip(row.code) || Strip(row.name) == ""
    ensures Pass1Step(t, row, bad) == Outcome(t, Zero)
  {
  }

  /** Pass two on a position whose parent code has a Subclass but no Group: a Group of that
      code gets the Subclass's name and class, the Subclass is gone, and the counters
      move by groups +1, subclasses -1, positions +1. */
  lemma PromotionStep(t: Tables, row: KpRow, c: string)
    requires PositionRow(row) && AsksFor(row, c) && c != ""
    requires c !in t.groups && c in t.subclasses
    ensures var r := Pass2Step(t, row, false);
            && r.tables == t.(groups := t.groups[c := Group(t.subclasses[c].name, Some(t.subclasses[c].classCode))],
                              subclasses := t.subclasses - {c},
                              positions := t.positions + {Position(Strip(row.code), Strip(row.name), c)})
            && r.stats == Zero.(groups := 1, subclasses := -1, positions := 1)
  {
    PositionParentIsPrefix(row.code);
  }

  // ---------------------------------------------------------------- properties of the passes

  /** What pass one may do to the tables: insert rows into the four upper tables and
      nothing else. */
  predicate Pass1Grows(t: Tables, r: Tables)
  {
    && Extends(t.sections, r.sections) && Extends(t.subsections, r.subsections)
    && Extends(t.classes, r.classes) && Extends(t.subclasses, r.subclasses)
    && r.groups == t.groups && r.positions == t.positions && r.jobTitles == t.jobTitles
  }

  /** Pass one never updates or deletes: every row already present keeps its name and
      parent, and groups, positions and job titles are untouched. */
  lemma {:induction false} Pass1OnlyAdds(t: Tables, rows: seq<KpRow>, faulty: set<nat>)
    ensures Pass1Grows(t, Pass1(t, rows, faulty).tables)
  {
    if rows != [] {
      var n := |rows| - 1;
      Pass1OnlyAdds(t, rows[..n], faulty);
      var mid := Pass1(t, rows[..n], faulty).tables;
      Pass1StepGrows(mid, rows[n], n in faulty);
      Pass1GrowsTransitive(t, mid, Pass1(t, rows, faulty).tables);
    }
  }

  lemma Pass1GrowsTransitive(a: Tables, b: Tables, c: Tables)
    requires Pass1Grows(a, b) && Pass1Grows(b, c)
    ensures Pass1Grows(a, c)
  {
  }

  lemma Pass1StepGrows(t: Tables, row: KpRow, bad: bool)
    ensures Pass1Grows(t, Pass1Step(t, row, bad).tables)
  {
    var level := Pass1Level(row);
    if level.Some? && !bad {
      FileUpperGrows(t, level.value, Strip(row.code), Strip(row.name));
    }
  }

  lemma FileUpperGrows(t: Tables, level: Level, code: string, name: string)
    ensures Pass1Grows(t, FileUpper(t, level, code, name).tables)
  {
    match level
    case SectionLevel =>
    case SubsectionLevel => SubsectionGrows(t, code, name);
    case ClassLevel => ClassGrows(t, code, name);
    case SubclassLevel => SubclassGrows(t, code, name);
    case _ =>
  }

  lemma SubsectionGrows(t: Tables, code: string, name: string)
    ensures Pass1Grows(t, FileSubsection(t, code, name).tables)
  {
  }

  lemma ClassGrows(t: Tables, code: string, name: string)
    ensures Pass1Grows(t, FileClass(t, code, name).tables)
  {
    var p := GetParentCode(code, ClassLevel);
    if Present(p) && p.value in t.subsections {
      AddClassGrows(t, code, KpClass(name, Some(p.value), t.subsections[p.value].section));
    } else {
      var s := if Present(p) then GetParentCode(p.value, SubsectionLevel) else None;
      if Present(s) && s.value in t.sections {
        AddClassGrows(t, code, KpClass(name, None, s.value));
      }
    }
  }

  lemma AddClassGrows(t: Tables, code: string, k: KpClass)
    ensures Pass1Grows(t, t.(classes := GetOrCreate(t.classes, code, k)))
  {
  }

  lemma SubclassGrows(t: Tables, code: string, name: string)
    ensures Pass1Grows(t, FileSubclass(t, code, name).tables)
  {
  }

  lemma Pass1StepConsistent(t: Tables, row: KpRow, bad: bool)
    requires Consistent(t)
    ensures Consistent(Pass1Step(t, row, bad).tables)
  {
    var level := Pass1Level(row);
    if level.Some? && !bad {
      FileUpperConsistent(t, level.value, Strip(row.code), Strip(row.name));
    }
  }

  lemma FileUpperConsistent(t: Tables, level: Level, code: string, name: string)
    requires Consistent(t)
    ensures Consistent(FileUpper(t, level, code, name).tables)
  {
    match level
    case SectionLevel => SectionConsistent(t, code, name);
    case SubsectionLevel => SubsectionConsistent(t, code, name);
    case ClassLevel => ClassConsistent(t, code, name);
    case SubclassLevel => SubclassConsistent(t, code, name);
    case _ =>
  }

  lemma SectionConsistent(t: Tables, code: string, name: string)
    requires Consistent(t)
    ensures Consistent(t.(sections := GetOrCreate(t.sections, code, name)))
  {
    var r := t.(sections := GetOrCreate(t.sections, code, name));
    forall c | c in r.classes ensures ClassLinked(r, r.classes[c]) {
      assert ClassLinked(t, t.classes[c]);
    }
  }

  lemma SubsectionConsistent(t: Tables, code: string, name: string)
    requires Consistent(t)
    ensures Consistent(FileSubsection(t, code, name).tables)
  {
    var r := FileSubsection(t, code, name).tables;
    SubsectionGrows(t, code, name);
    forall c | c in r.classes ensures ClassLinked(r, r.classes[c]) {
      assert ClassLinked(t, t.classes[c]);
    }
  }

  lemma ClassConsistent(t: Tables, code: string, name: string)
    requires Consistent(t)
    ensures Consistent(FileClass(t, code, name).tables)
  {
    var p := GetParentCode(code, ClassLevel);
    if Present(p) && p.value in t.subsections {
      AddClassConsistent(t, code, KpClass(name, Some(p.value), t.subsections[p.value].section));
    } else {
      var s := if Present(p) then GetParentCode(p.value, SubsectionLevel) else None;
      if Present(s) && s.value in t.sections {
        AddClassConsistent(t, code, KpClass(name, None, s.value));
      }
    }
  }

  lemma AddClassConsistent(t: Tables, code: string, k: KpClass)
    requires Consistent(t) && ClassLinked(t, k)
    ensures Consistent(t.(classes := GetOrCreate(t.classes, code, k)))
  {
    var r := t.(classes := GetOrCreate(t.classes, code, k));
    forall c | c in r.classes ensures ClassLinked(r, r.classes[c]) {
      if c in t.classes {
        assert ClassLinked(t, t.classes[c]);
      }
    }
  }

  lemma SubclassConsistent(t: Tables, code: string, name: string)
    requires Consistent(t)
    ensures Consistent(FileSubclass(t, code, name).tables)
  {
    var r := FileSubclass(t, code, name).tables;
    SubclassGrows(t, code, name);
    forall c | c in r.classes ensures ClassLinked(r, r.classes[c]) {
      assert ClassLinked(t, t.classes[c]);
    }
  }

  /** Pass one keeps every parent reference pointing at an existing row. */
  lemma {:induction false} Pass1Consistent(t: Tables, rows: seq<KpRow>, faulty: set<nat>)
    requires Consistent(t)
    ensures Consistent(Pass1(t, rows, faulty).tables)
  {
    if rows != [] {
      var n := |rows| - 1;
      Pass1Consistent(t, rows[..n], faulty);
      Pass1StepConsistent(Pass1(t, rows[..n], faulty).tables, rows[n], n in faulty);
    }
  }

  /** What pass two may do: add groups and positions, and delete a subclass only when it
      becomes a group of the same code that did not exist before. */
  predicate Pass2Grows(t: Tables, r: Tables)
  {
    && r.sections == t.sections && r.subsections == t.subsections && r.classes == t.classes
    && Extends(t.groups, r.groups) && t.positions <= r.positions && r.jobTitles == t.jobTitles
    && r.subclasses.Keys <= t.subclasses.Keys
    && (forall c :: c in r.subclasses ==> r.subclasses[c] == t.subclasses[c])
    && (forall c :: c in t.subclasses && c !in r.subclasses ==> c in r.groups && c !in t.groups)
  }

  lemma Pass2GrowsTransitive(a: Tables, b: Tables, c: Tables)
    requires Pass2Grows(a, b) && Pass2Grows(b, c)
    ensures Pass2Grows(a, c)
  {
  }

  lemma FilePositionGrows(t: Tables, code: string, name: string, bad: bool)
    ensures Pass2Grows(t, FilePosition(t, code, name, bad).tables)
  {
    var p := GetParentCode(code, PositionLevel);
    if Present(p) && p.value !in t.groups && p.value in t.subclasses {
      PromoteGrows(t, p.value, Position(code, name, p.value));
    }
  }

  lemma PromoteGrows(t: Tables, g: string, position: Position)
    requires g in t.subclasses && g !in t.groups
    ensures Pass2Grows(t, Promote(t, g))
    ensures Pass2Grows(t, AddPosition(Promote(t, g), position))
  {
  }

  lemma Pass2StepGrows(t: Tables, row: KpRow, bad: bool)
    ensures Pass2Grows(t, Pass2Step(t, row, bad).tables)
  {
    if PositionRow(row) {
      FilePositionGrows(t, Strip(row.code), Strip(row.name), bad);
    }
  }

  lemma {:induction false} Pass2OnlyPromotes(t: Tables, rows: seq<KpRow>, faulty: set<nat>)
    ensures Pass2Grows(t, Pass2(t, rows, faulty).tables)
  {
    if rows != [] {
      var n := |rows| - 1;
      Pass2OnlyPromotes(t, rows[..n], faulty);
      var mid := Pass2(t, rows[..n], faulty).tables;
      Pass2StepGrows(mid, rows[n], n in faulty);
      Pass2GrowsTransitive(t, mid, Pass2(t, rows, faulty).tables);
    }
  }

  lemma FilePositionConsistent(t: Tables, code: string, name: string, bad: bool)
    requires Consistent(t) && PositionsUnderPrefix(t) && Stripped(code)
    ensures Consistent(FilePosition(t, code, name, bad).tables)
    ensures PositionsUnderPrefix(FilePosition(t, code, name, bad).tables)
  {
    var p := GetParentCode(code, PositionLevel);
    if Present(p) {
      var position := Position(code, name, p.value);
      assert '.' in code && p.value == BeforeFirst(code, '.');
      if p.value in t.groups {
        AddPositionConsistent(t, position);
      } else if p.value in t.subclasses {
        PromoteConsistent(t, p.value, position);
      }
    }
  }

  lemma AddPositionConsistent(t: Tables, position: Position)
    requires Consistent(t) && PositionsUnderPrefix(t) && position.group in t.groups
    requires '.' in position.code && position.group == BeforeFirst(position.code, '.')
    ensures Consistent(t.(positions := t.positions + {position}))
    ensures PositionsUnderPrefix(t.(positions := t.positions + {position}))
  {
    var r := t.(positions := t.positions + {position});
    forall c | c in r.classes ensures ClassLinked(r, r.classes[c]) {
      assert ClassLinked(t, t.classes[c]);
    }
  }

  lemma PromoteConsistent(t: Tables, g: string, position: Position)
    requires Consistent(t) && PositionsUnderPrefix(t) && g in t.subclasses && position.group == g
    requires '.' in position.code && position.group == BeforeFirst(position.code, '.')
    ensures Consistent(Promote(t, g)) && PositionsUnderPrefix(Promote(t, g))
    ensures Consistent(AddPosition(Promote(t, g), position)) && PositionsUnderPrefix(AddPosition(Promote(t, g), position))
  {
    var r := Promote(t, g);
    forall c | c in r.classes ensures ClassLinked(r, r.classes[c]) {
      assert ClassLinked(t, t.classes[c]);
    }
    AddPositionConsistent(r, position);
  }

  lemma Pass2StepConsistent(t: Tables, row: KpRow, bad: bool)
    requires Consistent(t) && PositionsUnderPrefix(t)
    ensures Consistent(Pass2Step(t, row, bad).tables) && PositionsUnderPrefix(Pass2Step(t, row, bad).tables)
  {
    if PositionRow(row) {
      FilePositionConsistent(t, Strip(row.code), Strip(row.name), bad);
    }
  }

  /** Pass two keeps every reference valid, and every position sits in the group named by
      its code's text before the first dot. */
  lemma {:induction false} Pass2Consistent(t: Tables, rows: seq<KpRow>, faulty: set<nat>)
    requires Consistent(t) && PositionsUnderPrefix(t)
    ensures Consistent(Pass2(t, rows, faulty).tables) && PositionsUnderPrefix(Pass2(t, rows, faulty).tables)
  {
    if rows != [] {
      var n := |rows| - 1;
      Pass2Consistent(t, rows[..n], faulty);
      Pass2StepConsistent(Pass2(t, rows[..n], faulty).tables, rows[n], n in faulty);
    }
  }

  /** The whole command keeps the tables referentially consistent. */
  lemma RunConsistent(t: Tables, rows: seq<KpRow>, faulty: set<nat>)
    requires Consistent(t) && PositionsUnderPrefix(t)
    ensures Consistent(Run(t, rows, faulty).tables) && PositionsUnderPrefix(Run(t, rows, faulty).tables)
  {
    Pass1Consistent(t, rows, faulty);
    Pass1OnlyAdds(t, rows, faulty);
    Pass2Consistent(Pass1(t, rows, faulty).tables, rows, faulty);
  }

  lemma Pass2StepKeeps(t: Tables, row: KpRow, bad: bool, c: string)
    requires c in t.subclasses && !AsksFor(row, c)
    ensures c in Pass2Step(t, row, bad).tables.subclasses
    ensures Pass2Step(t, row, bad).tables.subclasses[c] == t.subclasses[c]
  {
    if PositionRow(row) {
      var code := Strip(row.code);
      assert Strip(code) == code;
      FilePositionKeeps(t, code, Strip(row.name), bad, c);
    }
  }

  lemma FilePositionKeeps(t: Tables, code: string, name: string, bad: bool, c: string)
    requires c in t.subclasses && Strip(code) == code && !('.' in code && BeforeFirst(code, '.') == c)
    ensures c in FilePosition(t, code, name, bad).tables.subclasses
    ensures FilePosition(t, code, name, bad).tables.subclasses[c] == t.subclasses[c]
  {
    var p := GetParentCode(code, PositionLevel);
    if Present(p) && p.value !in t.groups && p.value in t.subclasses {
      assert p.value != c;
    }
  }

  /** A subclass that no dotted code names as its group survives pass two unchanged: a
      four-digit code without positions stays a Subclass. */
  lemma {:induction false} Pass2KeepsSubclassWithoutPositions(t: Tables, rows: seq<KpRow>, faulty: set<nat>, c: string)
    requires c in t.subclasses
    requires forall i :: 0 <= i < |rows| ==> !AsksFor(rows[i], c)
    ensures c in Pass2(t, rows, faulty).tables.subclasses
    ensures Pass2(t, rows, faulty).tables.subclasses[c] == t.subclasses[c]
  {
    if rows != [] {
      var n := |rows| - 1;
      assert forall i :: 0 <= i < n ==> rows[..n][i] == rows[i];
      Pass2KeepsSubclassWithoutPositions(t, rows[..n], faulty, c);
      Pass2StepKeeps(Pass2(t, rows[..n], faulty).tables, rows[n], n in faulty, c);
    }
  }

  /** Where a code `c` stands while pass two runs: still a Subclass with no Group, or
      promoted to a Group with the Subclass's name and class and its Subclass deleted. */
  predicate Unpromoted(t: Tables, c: string, sc: Subclass)
  {
    c in t.subclasses && t.subclasses[c] == sc && c !in t.groups
  }

  predicate Promoted(t: Tables, c: string, sc: Subclass)
  {
    c !in t.subclasses && c in t.groups && t.groups[c] == Group(sc.name, Some(sc.classCode))
  }

  lemma Pass2StepProgress(t: Tables, row: KpRow, bad: bool, c: string, sc: Subclass)
    requires Unpromoted(t, c, sc) || Promoted(t, c, sc)
    ensures var r := Pass2Step(t, row, bad).tables;
            Unpromoted(r, c, sc) || Promoted(r, c, sc)
    ensures Promoted(t, c, sc) ==> Promoted(Pass2Step(t, row, bad).tables, c, sc)
  {
    Pass2StepGrows(t, row, bad);
  }

  lemma {:induction false} PromotionProgress(t: Tables, rows: seq<KpRow>, faulty: set<nat>, c: string, sc: Subclass)
    requires Unpromoted(t, c, sc) || Promoted(t, c, sc)
    ensures Unpromoted(Pass2(t, rows, faulty).tables, c, sc) || Promoted(Pass2(t, rows, faulty).tables, c, sc)
    ensures Promoted(t, c, sc) ==> Promoted(Pass2(t, rows, faulty).tables, c, sc)
  {
    if rows != [] {
      var n := |rows| - 1;
      PromotionProgress(t, rows[..n], faulty, c, sc);
      Pass2StepProgress(Pass2(t, rows[..n], faulty).tables, rows[n], n in faulty, c, sc);
    }
  }

  lemma Pass2StepPromotes(t: Tables, row: KpRow, bad: bool, c: string, sc: Subclass)
    requires Unpromoted(t, c, sc) || Promoted(t, c, sc)
    requires PositionRow(row) && AsksFor(row, c) && c != ""
    ensures Promoted(Pass2Step(t, row, bad).tables, c, sc)
  {
    var code := Strip(row.code);
    assert Strip(code) == code;
    assert Promoted(FilePosition(t, code, Strip(row.name), bad).tables, c, sc);
  }

  /** A Subclass named as the group of a position row is a Group with the Subclass's name
      and class once pass two ends, and the Subclass is gone; this holds even when the
      row's position write raises, as the promotion comes first. */
  lemma {:induction false} Pass2PromotesAskedSubclass(t: Tables, rows: seq<KpRow>, faulty: set<nat>, j: nat, c: string)
    requires c in t.subclasses && c !in t.groups && c != ""
    requires j < |rows| && PositionRow(rows[j]) && AsksFor(rows[j], c)
    ensures Promoted(Pass2(t, rows, faulty).tables, c, t.subclasses[c])
  {
    var sc := t.subclasses[c];
    var n := |rows| - 1;
    var mid := Pass2(t, rows[..n], faulty).tables;
    PromotionProgress(t, rows[..n], faulty, c, sc);
    if j == n {
      Pass2StepPromotes(mid, rows[n], n in faulty, c, sc);
    } else {
      assert rows[..n][j] == rows[j];
      Pass2PromotesAskedSubclass(t, rows[..n], faulty, j, c);
      Pass2StepProgress(mid, rows[n], n in faulty, c, sc);
    }
  }

  lemma Pass1StepFilesSubclass(t: Tables, row: KpRow, c: string)
    requires Strip(row.code) == c && Strip(row.name) != "" && AllDigits(c) && |c| == 4
    requires c[..3] in t.classes
    ensures c in Pass1Step(t, row, false).tables.subclasses
  {
    LevelOfDigitCode(c);
    ParentIsOneLevelUp(c, SubclassLevel);
    assert Pass1Level(row) == Some(SubclassLevel);
    assert c in FileSubclass(t, c, Strip(row.name)).tables.subclasses;
  }

  /** A pass-one row for subclass `c` whose parent class already exists leaves `c` in the
      Subclass table once pass one ends. */
  lemma {:induction false} Pass1FilesSubclass(t: Tables, rows: seq<KpRow>, faulty: set<nat>, i: nat, c: string)
    requires i < |rows| && i !in faulty
    requires Strip(rows[i].code) == c && Strip(rows[i].name) != "" && AllDigits(c) && |c| == 4
    requires c[..3] in t.classes
    ensures c in Pass1(t, rows, faulty).tables.subclasses
  {
    var n := |rows| - 1;
    Pass1OnlyAdds(t, rows[..n], faulty);
    var mid := Pass1(t, rows[..n], faulty).tables;
    Pass1StepGrows(mid, rows[n], n in faulty);
    if i == n {
      Pass1StepFilesSubclass(mid, rows[n], c);
    } else {
      assert rows[..n][i] == rows[i];
      Pass1FilesSubclass(t, rows[..n], faulty, i, c);
    }
  }

  /** Running the command twice on the same file. In the first run a subclass row `c` and
      a position row under `c` turn `c` into a Group and delete the Subclass; in the second
      run pass one files `c` as a Subclass again and pass two finds the Group already there,
      so both a Subclass and a Group of code `c` remain. A rerun is therefore not
      idempotent. */
  lemma RerunLeavesSubclassAndGroup(t0: Tables, rows: seq<KpRow>, i: nat, j: nat, c: string)
    requires i < |rows| && Strip(rows[i].code) == c && Strip(rows[i].name) != ""
    requires AllDigits(c) && |c| == 4 && c[..3] in t0.classes && c !in t0.groups
    requires j < |rows| && PositionRow(rows[j]) && AsksFor(rows[j], c)
    ensures var t1 := Run(t0, rows, {}).tables;
            c in t1.groups && c !in t1.subclasses
    ensures var t2 := Run(Run(t0, rows, {}).tables, rows, {}).tables;
            c in t2.groups && c in t2.subclasses
  {
    var p1 := Pass1(t0, rows, {}).tables;
    Pass1FilesSubclass(t0, rows, {}, i, c);
    Pass1OnlyAdds(t0, rows, {});
    Pass2PromotesAskedSubclass(p1, rows, {}, j, c);
    var t1 := Run(t0, rows, {}).tables;
    Pass2OnlyPromotes(p1, rows, {});
    var q1 := Pass1(t1, rows, {}).tables;
    Pass1FilesSubclass(t1, rows, {}, i, c);
    Pass1OnlyAdds(t1, rows, {});
    Pass2OnlyPromotes(q1, rows, {});
  }
}
