/** The CATOTTG loader (`load_catottg`): five passes over all rows, root level first. Pass
    `k` handles only the rows whose category belongs to it and files each under the code
    of its own level, when the row's parent-level code names an existing row one level up. */
module CatottgLoader {
  import opened Common
  import opened LocationData

  /** A row of the codifier: the five level columns, the category and the name. */
  datatype CatRow = CatRow(level1: string, level2: string, level3: string, level4: string,
                           extra: string, category: string, name: string)

  /** The five passes, by index into `CategoriesOrder`. */
  type PassIndex = k: nat | k < 5

  /** The categories handled by each pass, root to leaf: regions and special-status
      cities, districts, communities, settlements, city districts. */
  const CategoriesOrder: seq<seq<string>> := [["O", "K"], ["P"], ["H"], ["M", "T", "C", "X"], ["B"]]

  predicate InPass(k: PassIndex, r: CatRow) { r.category in CategoriesOrder[k] }

  /** The column holding a row's own code at the level of pass `k`. */
  function CodeOf(k: PassIndex, r: CatRow): string
  {
    match k
    case 0 => r.level1
    case 1 => r.level2
    case 2 => r.level3
    case 3 => r.level4
    case _ => r.extra
  }

  /** The codes of the table pass `k` fills. */
  function KeysAt(g: Geo, k: PassIndex): set<string>
  {
    match k
    case 0 => g.regions.Keys
    case 1 => g.districts.Keys
    case 2 => g.communities.Keys
    case 3 => g.settlements.Keys
    case _ => g.cityDistricts.Keys
  }

  /** A row of pass `k` finds its parent: regions need none, the other levels need the
      code in the column one level up to name a row of the table one level up. */
  predicate ParentFound(g: Geo, k: PassIndex, r: CatRow)
  {
    k == 0 || CodeOf(k - 1, r) in KeysAt(g, k - 1)
  }

  /** Pass `k`'s work on one of its rows: `get_or_create` under its own code when the
      parent exists, nothing otherwise. */
  function File(g: Geo, k: PassIndex, r: CatRow): Geo
  {
    match k
    case 0 => g.(regions := GetOrCreate(g.regions, r.level1, Region(r.name, r.category)))
    case 1 =>
      if r.level1 in g.regions then g.(districts := GetOrCreate(g.districts, r.level2, District(r.name, r.level1)))
      else g
    case 2 =>
      if r.level2 in g.districts then g.(communities := GetOrCreate(g.communities, r.level3, Community(r.name, r.level2)))
      else g
    case 3 =>
      if r.level3 in g.communities then
        g.(settlements := GetOrCreate(g.settlements, r.level4, Settlement(r.name, r.category, r.level3)))
      else g
    case _ =>
      if r.level4 in g.settlements then
        g.(cityDistricts := GetOrCreate(g.cityDistricts, r.extra, CityDistrict(r.name, r.level4)))
      else g
  }

  datatype Outcome = Outcome(tables: Geo, count: nat)

  /** Reference definition of one row in pass `k`; `bad` says its database work raises. A
      row of the pass is counted whether or not its parent exists; a row that raises is not. */
  function Step(g: Geo, k: PassIndex, r: CatRow, bad: bool): Outcome
  {
    if !InPass(k, r) || bad then Outcome(g, 0) else Outcome(File(g, k, r), 1)
  }

  function Pass(g: Geo, k: PassIndex, rows: seq<CatRow>, faulty: set<nat>): Outcome
  {
    if rows == [] then Outcome(g, 0)
    else
      var n := |rows| - 1;
      var before := Pass(g, k, rows[..n], faulty);
      var step := Step(before.tables, k, rows[n], n in faulty);
      Outcome(step.tables, before.count + step.count)
  }

  /** The tables after the first `k` passes. */
  function Passes(g: Geo, rows: seq<CatRow>, faulty: set<nat>, k: nat): Geo
    requires k <= 5
  {
    if k == 0 then g else Pass(Passes(g, rows, faulty, k - 1), k - 1, rows, faulty).tables
  }

  /** The count pass `k` reports. */
  function PassCount(g: Geo, rows: seq<CatRow>, faulty: set<nat>, k: PassIndex): nat
  {
    Pass(Passes(g, rows, faulty, k), k, rows, faulty).count
  }

  function Sum(s: seq<nat>): nat
  {
    if s == [] then 0 else Sum(s[..|s| - 1]) + s[|s| - 1]
  }

  // ---------------------------------------------------------------- the command

  method FileRow(store: GeoStore, k: PassIndex, r: CatRow, bad: bool) returns (counted: nat)
    modifies store
    ensures Outcome(store.Snapshot(), counted) == Step(old(store.Snapshot()), k, r, bad)
  {
    counted := 0;
    if r.category !in CategoriesOrder[k] {
      return;
    }
    if bad {
      return;
    }
    PassOfCategory(k, r);
    var cat := r.category;
    if cat == "O" || cat == "K" {
      if r.level1 !in store.regions {
        store.regions := store.regions[r.level1 := Region(r.name, cat)];
      }
    } else if cat == "P" {
      if r.level1 in store.regions && r.level2 !in store.districts {
        store.districts := store.districts[r.level2 := District(r.name, r.level1)];
      }
    } else if cat == "H" {
      if r.level2 in store.districts && r.level3 !in store.communities {
        store.communities := store.communities[r.level3 := Community(r.name, r.level2)];
      }
    } else if cat == "M" || cat == "T" || cat == "C" || cat == "X" {
      if r.level3 in store.communities && r.level4 !in store.settlements {
        store.settlements := store.settlements[r.level4 := Settlement(r.name, cat, r.level3)];
      }
    } else if cat == "B" {
      if r.level4 in store.settlements && r.extra !in store.cityDistricts {
        store.cityDistricts := store.cityDistricts[r.extra := CityDistrict(r.name, r.level4)];
      }
    }
    counted := 1;
  }

  method RunPass(store: GeoStore, k: PassIndex, rows: seq<CatRow>, faulty: set<nat>) returns (count: nat)
    modifies store
    ensures Outcome(store.Snapshot(), count) == Pass(old(store.Snapshot()), k, rows, faulty)
  {
    ghost var g0 := store.Snapshot();
    count := 0;
    var i := 0;
    while i < |rows|
      invariant 0 <= i <= |rows|
      invariant Outcome(store.Snapshot(), count) == Pass(g0, k, rows[..i], faulty)
    {
      var c := FileRow(store, k, rows[i], i in faulty);
      assert rows[..i + 1][..i] == rows[..i];
      count := count + c;
      i := i + 1;
    }
    assert rows[..|rows|] == rows;
  }

  /** `load_catottg`'s `handle` on rows already read: the per-pass counts and their total. */
  method LoadCatottg(store: GeoStore, rows: seq<CatRow>, faulty: set<nat>) returns (counts: seq<nat>, total: nat)
    modifies store
    ensures store.Snapshot() == Passes(old(store.Snapshot()), rows, faulty, 5)
    ensures |counts| == 5 && forall k: PassIndex :: counts[k] == PassCount(old(store.Snapshot()), rows, faulty, k)
    ensures total == Sum(counts)
  {
    ghost var g0 := store.Snapshot();
    counts, total := [], 0;
    var k := 0;
    while k < 5
      invariant 0 <= k <= 5 && |counts| == k
      invariant store.Snapshot() == Passes(g0, rows, faulty, k)
      invariant forall j: PassIndex :: j < k ==> counts[j] == PassCount(g0, rows, faulty, j)
      invariant total == Sum(counts)
    {
      var c := RunPass(store, k, rows, faulty);
      assert (counts + [c])[..k] == counts;
      counts := counts + [c];
      total := total + c;
      k := k + 1;
    }
  }

  // ---------------------------------------------------------------- one row

  /** The category of a row of pass `k` tells which pass it is. */
  lemma PassOfCategory(k: PassIndex, r: CatRow)
    requires InPass(k, r)
    ensures (r.category == "O" || r.category == "K") <==> k == 0
    ensures r.category == "P" <==> k == 1
    ensures r.category == "H" <==> k == 2
    ensures (r.category == "M" || r.category == "T" || r.category == "C" || r.category == "X") <==> k == 3
    ensures r.category == "B" <==> k == 4
  {
  }

  /** Only pass `k` touches the table of level `k`: every other table is left as it was, and
      level `k` only gains rows. */
  predicate OnlyLevelGrows(g: Geo, h: Geo, k: PassIndex)
  {
    && (if k == 0 then Extends(g.regions, h.regions) else h.regions == g.regions)
    && (if k == 1 then Extends(g.districts, h.districts) else h.districts == g.districts)
    && (if k == 2 then Extends(g.communities, h.communities) else h.communities == g.communities)
    && (if k == 3 then Extends(g.settlements, h.settlements) else h.settlements == g.settlements)
    && (if k == 4 then Extends(g.cityDistricts, h.cityDistricts) else h.cityDistricts == g.cityDistricts)
  }

  /** Filing a row adds its own code to its level exactly when its parent exists, leaves
      existing rows alone and keeps every parent reference valid. A record it creates holds
      the row's name and, below the regions, the code in the row's column one level up as
      its parent. */
  lemma FileEffect(g: Geo, k: PassIndex, r: CatRow)
    ensures OnlyLevelGrows(g, File(g, k, r), k)
    ensures KeysAt(File(g, k, r), k) == KeysAt(g, k) + (if ParentFound(g, k, r) then {CodeOf(k, r)} else {})
    ensures Consistent(g) ==> Consistent(File(g, k, r))
    ensures CodeOf(k, r) !in KeysAt(g, k) && ParentFound(g, k, r) ==> FiledAsRow(File(g, k, r), k, r)
  {
    FileGrows(g, k, r);
    FileKeys(g, k, r);
    if Consistent(g) {
      FileConsistent(g, k, r);
    }
    if CodeOf(k, r) !in KeysAt(g, k) && ParentFound(g, k, r) {
      FileRecord(g, k, r);
    }
  }

  /** The record of level `k` under the row's own code is the one the row describes: its
      name, its category where the level keeps one, and the code one level up. */
  predicate FiledAsRow(g: Geo, k: PassIndex, r: CatRow)
  {
    match k
    case 0 => r.level1 in g.regions && g.regions[r.level1] == Region(r.name, r.category)
    case 1 => r.level2 in g.districts && g.districts[r.level2] == District(r.name, r.level1)
    case 2 => r.level3 in g.communities && g.communities[r.level3] == Community(r.name, r.level2)
    case 3 => r.level4 in g.settlements && g.settlements[r.level4] == Settlement(r.name, r.category, r.level3)
    case _ => r.extra in g.cityDistricts && g.cityDistricts[r.extra] == CityDistrict(r.name, r.level4)
  }

  lemma FileRecord(g: Geo, k: PassIndex, r: CatRow)
    requires CodeOf(k, r) !in KeysAt(g, k) && ParentFound(g, k, r)
    ensures FiledAsRow(File(g, k, r), k, r)
  {
    match k
    case 0 =>
    case 1 =>
    case 2 =>
    case 3 =>
    case _ =>
  }

  lemma FileGrows(g: Geo, k: PassIndex, r: CatRow)
    ensures OnlyLevelGrows(g, File(g, k, r), k)
  {
    match k
    case 0 =>
    case 1 =>
    case 2 =>
    case 3 =>
    case _ =>
  }

  lemma FileKeys(g: Geo, k: PassIndex, r: CatRow)
    ensures KeysAt(File(g, k, r), k) == KeysAt(g, k) + (if ParentFound(g, k, r) then {CodeOf(k, r)} else {})
  {
    match k
    case 0 =>
    case 1 =>
    case 2 =>
    case 3 =>
    case _ =>
  }

  lemma FileConsistent(g: Geo, k: PassIndex, r: CatRow)
    requires Consistent(g)
    ensures Consistent(File(g, k, r))
  {
    match k
    case 0 =>
    case 1 =>
    case 2 =>
    case 3 =>
    case _ =>
  }

  /** A region row creates the region under its first-level code with the row's own
      category and name, with no parent lookup. */
  lemma RegionRow(g: Geo, r: CatRow)
    requires r.category == "O" || r.category == "K"
    requires r.level1 !in g.regions
    ensures Step(g, 0, r, false).tables.regions == g.regions[r.level1 := Region(r.name, r.category)]
  {
  }

  /** A row whose parent is missing creates nothing, yet its pass still counts it. */
  lemma MissingParentStillCounted(g: Geo, k: PassIndex, r: CatRow)
    requires InPass(k, r) && !ParentFound(g, k, r)
    ensures Step(g, k, r, false) == Outcome(g, 1)
  {
  }

  // ---------------------------------------------------------------- one pass

  lemma OnlyLevelGrowsTransitive(a: Geo, b: Geo, c: Geo, k: PassIndex)
    requires OnlyLevelGrows(a, b, k) && OnlyLevelGrows(b, c, k)
    ensures OnlyLevelGrows(a, c, k)
  {
  }

  /** The rows that are not in `faulty`, as a set: what no order of the file can change. */
  function OkRows(rows: seq<CatRow>, faulty: set<nat>): set<CatRow>
  {
    set i | 0 <= i < |rows| && i !in faulty :: rows[i]
  }

  /** The codes pass `k` adds, given the rows that do not raise and the codes one level up. */
  function NewKeys(ok: set<CatRow>, k: PassIndex, g: Geo): set<string>
  {
    set r | r in ok && InPass(k, r) && ParentFound(g, k, r) :: CodeOf(k, r)
  }

  lemma OkRowsSnoc(rows: seq<CatRow>, faulty: set<nat>)
    requires rows != []
    ensures var n := |rows| - 1;
            OkRows(rows, faulty) == OkRows(rows[..n], faulty) + (if n in faulty then {} else {rows[n]})
  {
    var n := |rows| - 1;
    forall x | x in OkRows(rows, faulty)
      ensures x in OkRows(rows[..n], faulty) + (if n in faulty then {} else {rows[n]})
    {
      var i :| 0 <= i < |rows| && i !in faulty && rows[i] == x;
      if i < n {
        assert rows[..n][i] == x;
      }
    }
    forall x | x in OkRows(rows[..n], faulty) ensures x in OkRows(rows, faulty) {
      var i :| 0 <= i < n && i !in faulty && rows[..n][i] == x;
      assert rows[i] == x;
    }
  }

  /** The parent level of pass `k` is fixed while pass `k` runs. */
  lemma SameParents(g: Geo, h: Geo, k: PassIndex, r: CatRow)
    requires OnlyLevelGrows(g, h, k)
    ensures ParentFound(g, k, r) == ParentFound(h, k, r)
  {
  }

  lemma {:induction false} PassGrows(g: Geo, k: PassIndex, rows: seq<CatRow>, faulty: set<nat>)
    ensures OnlyLevelGrows(g, Pass(g, k, rows, faulty).tables, k)
  {
    if rows != [] {
      var n := |rows| - 1;
      PassGrows(g, k, rows[..n], faulty);
      var mid := Pass(g, k, rows[..n], faulty).tables;
      FileEffect(mid, k, rows[n]);
      OnlyLevelGrowsTransitive(g, mid, Step(mid, k, rows[n], n in faulty).tables, k);
    }
  }

  lemma NewKeysAdd(ok: set<CatRow>, extra: set<CatRow>, k: PassIndex, g: Geo, r: CatRow)
    requires extra == {} || extra == {r}
    ensures NewKeys(ok + extra, k, g) ==
            NewKeys(ok, k, g) + (if extra == {r} && InPass(k, r) && ParentFound(g, k, r) then {CodeOf(k, r)} else {})
  {
  }

  /** Pass `k` fills its own level with exactly the row codes of its categories whose
      parent exists, among the rows that do not raise, and touches nothing else. The
      result depends on the set of those rows only, not on their order. */
  lemma {:induction false} PassKeys(g: Geo, k: PassIndex, rows: seq<CatRow>, faulty: set<nat>)
    ensures OnlyLevelGrows(g, Pass(g, k, rows, faulty).tables, k)
    ensures KeysAt(Pass(g, k, rows, faulty).tables, k) == KeysAt(g, k) + NewKeys(OkRows(rows, faulty), k, g)
  {
    PassGrows(g, k, rows, faulty);
    if rows == [] {
      assert OkRows(rows, faulty) == {};
    } else {
      var n := |rows| - 1;
      PassKeys(g, k, rows[..n], faulty);
      var mid := Pass(g, k, rows[..n], faulty).tables;
      var r := rows[n];
      assert Pass(g, k, rows, faulty).tables == Step(mid, k, r, n in faulty).tables;
      StepKeys(mid, k, r, n in faulty);
      SameParents(g, mid, k, r);
      OkRowsSnoc(rows, faulty);
      NewKeysAdd(OkRows(rows[..n], faulty), if n in faulty then {} else {r}, k, g, r);
    }
  }

  lemma StepKeys(g: Geo, k: PassIndex, r: CatRow, bad: bool)
    ensures KeysAt(Step(g, k, r, bad).tables, k) ==
            KeysAt(g, k) + (if InPass(k, r) && !bad && ParentFound(g, k, r) then {CodeOf(k, r)} else {})
  {
    FileEffect(g, k, r);
  }

  /** Every pass keeps the parent references valid. */
  lemma {:induction false} PassConsistent(g: Geo, k: PassIndex, rows: seq<CatRow>, faulty: set<nat>)
    requires Consistent(g)
    ensures Consistent(Pass(g, k, rows, faulty).tables)
  {
    if rows != [] {
      var n := |rows| - 1;
      PassConsistent(g, k, rows[..n], faulty);
      FileEffect(Pass(g, k, rows[..n], faulty).tables, k, rows[n]);
    }
  }

  /** The indices of the rows pass `k` counts. */
  function CountedRows(rows: seq<CatRow>, faulty: set<nat>, k: PassIndex): set<nat>
  {
    set i | 0 <= i < |rows| && i !in faulty && InPass(k, rows[i])
  }

  /** A pass counts exactly its rows that do not raise, whether their parent exists or not. */
  lemma {:induction false} PassCountsRows(g: Geo, k: PassIndex, rows: seq<CatRow>, faulty: set<nat>)
    ensures Pass(g, k, rows, faulty).count == |CountedRows(rows, faulty, k)|
  {
    if rows == [] {
      assert CountedRows(rows, faulty, k) == {};
    } else {
      PassCountsRows(g, k, rows[..|rows| - 1], faulty);
      PassCountSnoc(g, k, rows, faulty);
      CountedRowsSnoc(rows, faulty, k);
    }
  }

  lemma CountedRowsSnoc(rows: seq<CatRow>, faulty: set<nat>, k: PassIndex)
    requires rows != []
    ensures var n := |rows| - 1;
            && n !in CountedRows(rows[..n], faulty, k)
            && CountedRows(rows, faulty, k)
               == CountedRows(rows[..n], faulty, k) + if n !in faulty && InPass(k, rows[n]) then {n} else {}
  {
    var n := |rows| - 1;
    assert forall i :: 0 <= i < n ==> rows[..n][i] == rows[i];
  }

  lemma PassCountSnoc(g: Geo, k: PassIndex, rows: seq<CatRow>, faulty: set<nat>)
    requires rows != []
    ensures var n := |rows| - 1;
            Pass(g, k, rows, faulty).count
              == Pass(g, k, rows[..n], faulty).count + if n !in faulty && InPass(k, rows[n]) then 1 else 0
  {
  }

  // ---------------------------------------------------------------- the whole run

  /** The codes of level `k` after a run, in closed form: the codes already there, plus
      the row codes of that level's categories whose parent code is among the closed-form
      codes one level up. Only the set of rows that do not raise enters. */
  function ClosedKeys(g: Geo, ok: set<CatRow>, k: PassIndex): set<string>
  {
    KeysAt(g, k) + set r | r in ok && InPass(k, r) && (k == 0 || CodeOf(k - 1, r) in ClosedKeys(g, ok, k - 1)) :: CodeOf(k, r)
  }

  /** Passes from `k` on leave the tables of the levels below `k` alone, and the table of
      level `k` only gains rows. */
  lemma {:induction false} LaterPassesKeep(g: Geo, rows: seq<CatRow>, faulty: set<nat>, j: PassIndex, k: nat)
    requires j < k <= 5
    ensures KeysAt(Passes(g, rows, faulty, k), j) == KeysAt(Passes(g, rows, faulty, j + 1), j)
  {
    if k > j + 1 {
      LaterPassesKeep(g, rows, faulty, j, k - 1);
      PassKeys(Passes(g, rows, faulty, k - 1), k - 1, rows, faulty);
    }
  }

  /** After the run, every level holds exactly its closed-form codes. As the closed form
      sees only the set of rows that do not raise, any reordering or duplication of the
      file's rows yields the same codes at every level: a child finds its parent wherever
      the parent's row stands in the file. */
  lemma {:induction false} RunKeys(g: Geo, rows: seq<CatRow>, faulty: set<nat>, k: PassIndex)
    ensures KeysAt(Passes(g, rows, faulty, 5), k) == ClosedKeys(g, OkRows(rows, faulty), k)
  {
    var ok := OkRows(rows, faulty);
    var before := Passes(g, rows, faulty, k);
    PassKeys(before, k, rows, faulty);
    LaterPassesKeep(g, rows, faulty, k, 5);
    UntouchedBeforePass(g, rows, faulty, k, k);
    if k > 0 {
      RunKeys(g, rows, faulty, k - 1);
      LaterPassesKeep(g, rows, faulty, k - 1, k);
      LaterPassesKeep(g, rows, faulty, k - 1, 5);
    }
  }

  /** Passes before `k` leave the table of level `k` as it was. */
  lemma {:induction false} UntouchedBeforePass(g: Geo, rows: seq<CatRow>, faulty: set<nat>, k: PassIndex, m: nat)
    requires m <= k
    ensures KeysAt(Passes(g, rows, faulty, m), k) == KeysAt(g, k)
  {
    if m > 0 {
      UntouchedBeforePass(g, rows, faulty, k, m - 1);
      PassKeys(Passes(g, rows, faulty, m - 1), m - 1, rows, faulty);
    }
  }

  /** Order independence: two files whose rows that do not raise form the same set end
      with the same codes at every level. */
  lemma OrderIndependent(g: Geo, rows1: seq<CatRow>, faulty1: set<nat>, rows2: seq<CatRow>, faulty2: set<nat>, k: PassIndex)
    requires OkRows(rows1, faulty1) == OkRows(rows2, faulty2)
    ensures KeysAt(Passes(g, rows1, faulty1, 5), k) == KeysAt(Passes(g, rows2, faulty2, 5), k)
  {
    RunKeys(g, rows1, faulty1, k);
    RunKeys(g, rows2, faulty2, k);
  }

  /** The run keeps every parent reference valid. */
  lemma {:induction false} RunConsistent(g: Geo, rows: seq<CatRow>, faulty: set<nat>, k: nat)
    requires k <= 5 && Consistent(g)
    ensures Consistent(Passes(g, rows, faulty, k))
  {
    if k > 0 {
      RunConsistent(g, rows, faulty, k - 1);
      PassConsistent(Passes(g, rows, faulty, k - 1), k - 1, rows, faulty);
    }
  }

  /** A pass that finds nothing new to add leaves the tables exactly as they were. */
  lemma PassNoop(g: Geo, k: PassIndex, rows: seq<CatRow>, faulty: set<nat>)
    requires NewKeys(OkRows(rows, faulty), k, g) <= KeysAt(g, k)
    ensures Pass(g, k, rows, faulty).tables == g
  {
    PassKeys(g, k, rows, faulty);
    var h := Pass(g, k, rows, faulty).tables;
    match k
    case 0 => ExtendsSameKeys(g.regions, h.regions);
    case 1 => ExtendsSameKeys(g.districts, h.districts);
    case 2 => ExtendsSameKeys(g.communities, h.communities);
    case 3 => ExtendsSameKeys(g.settlements, h.settlements);
    case 4 => ExtendsSameKeys(g.cityDistricts, h.cityDistricts);
  }

  lemma {:induction false} RerunPasses(g: Geo, rows2: seq<CatRow>, faulty2: set<nat>, m: nat)
    requires m <= 5
    requires forall k: PassIndex :: NewKeys(OkRows(rows2, faulty2), k, g) <= KeysAt(g, k)
    ensures Passes(g, rows2, faulty2, m) == g
  {
    if m > 0 {
      RerunPasses(g, rows2, faulty2, m - 1);
      PassNoop(g, m - 1, rows2, faulty2);
    }
  }

  /** A rerun adds no records and changes none: running the command again over the same
      rows, or over any subset of the rows that did not raise the first time, leaves every
      table exactly as the first run left it. */
  lemma RerunChangesNothing(g: Geo, rows: seq<CatRow>, faulty: set<nat>, rows2: seq<CatRow>, faulty2: set<nat>)
    requires OkRows(rows2, faulty2) <= OkRows(rows, faulty)
    ensures var g1 := Passes(g, rows, faulty, 5);
            Passes(g1, rows2, faulty2, 5) == g1
  {
    var g1 := Passes(g, rows, faulty, 5);
    var ok := OkRows(rows, faulty);
    forall k: PassIndex ensures NewKeys(OkRows(rows2, faulty2), k, g1) <= KeysAt(g1, k) {
      RunKeys(g, rows, faulty, k);
      if k > 0 {
        RunKeys(g, rows, faulty, k - 1);
      }
    }
    RerunPasses(g1, rows2, faulty2, 5);
  }
}
