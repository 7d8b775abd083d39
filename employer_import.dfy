/** The `import_employers` command: every employer of the file is written with
    `update_or_create` keyed by its tax id, all of them owned by one user; the KVED class
    and the place are looked up but optional. */
module EmployerImport {
  import opened Common
  import opened LocationData

  /** One row of the employer table (keyed by `tax_id`); the owner is a user's key, the
      KVED class and the settlement are held by code. */
  datatype Employer = Employer(
    name: string, owner: nat, kved: Option<string>, location: Option<string>, address: string,
    brandName: string, employerType: string, isVerified: bool)

  /** The email used when no `--owner` is given. */
  const DefaultOwner := "admin@admin.admin"

  /** `options.get('owner') or 'admin@admin.admin'`: an absent or empty option gives the
      default. The ensures only spare callers unfolding the body. */
  function OwnerEmail(option: Option<string>): (r: string)
    ensures option.None? || option.value == "" ==> r == DefaultOwner
    ensures option.Some? && option.value != "" ==> r == option.value
  {
    if option.None? || option.value == "" then DefaultOwner else option.value
  }

  /** The stripped cells of one row. */
  datatype EmployerFields = EmployerFields(
    taxId: string, name: string, kvedCode: string, settlementCode: string, address: string)

  /** The `defaults` a row writes. */
  datatype EmployerValues = EmployerValues(
    name: string, owner: nat, kved: Option<string>, location: Option<string>, address: string)

  /** The values of a row: the KVED class if its code is given and exists, the place by
      settlement, else by city district, if its code is given and resolves. */
  function Values(kvedClasses: set<string>, geo: Geo, owner: nat, f: EmployerFields): EmployerValues
  {
    var kved := if f.kvedCode != "" && f.kvedCode in kvedClasses then Some(f.kvedCode) else None;
    var location := if f.settlementCode != "" then ResolveSettlement(geo, f.settlementCode) else None;
    EmployerValues(f.name, owner, kved, location, f.address)
  }

  function ValuesOf(e: Employer): EmployerValues
  {
    EmployerValues(e.name, e.owner, e.kved, e.location, e.address)
  }

  /** The row `update_or_create` writes: the defaults set on the existing row, or a new
      row with the model's own defaults for the other fields. */
  function Written(existing: Option<Employer>, v: EmployerValues): (e: Employer)
    ensures ValuesOf(e) == v
    ensures existing.Some? ==> e.(name := existing.value.name, owner := existing.value.owner, kved := existing.value.kved,
                                  location := existing.value.location, address := existing.value.address) == existing.value
  {
    if existing.Some? then
      existing.value.(name := v.name, owner := v.owner, kved := v.kved, location := v.location, address := v.address)
    else Employer(v.name, v.owner, v.kved, v.location, v.address, "", "LEGAL", false)
  }

  /** The `created_count`, `updated_count` and `error_count` counters. */
  datatype Counts = Counts(created: nat, updated: nat, errors: nat)
  {
    function Plus(d: Counts): Counts
    {
      Counts(created + d.created, updated + d.updated, errors + d.errors)
    }

    function Total(): nat { created + updated + errors }
  }

  const Error := Counts(0, 0, 1)

  datatype Outcome = Outcome(employers: map<string, Employer>, counts: Counts)

  /** Reference definition of one row; `bad` says the write raises. A row without a tax
      id or a name is an error; an unknown KVED code or place is not. */
  function Step(t: map<string, Employer>, kvedClasses: set<string>, geo: Geo, owner: nat, f: EmployerFields, bad: bool): Outcome
  {
    if f.taxId == "" || f.name == "" || bad then Outcome(t, Error)
    else
      var existing := if f.taxId in t then Some(t[f.taxId]) else None;
      Outcome(t[f.taxId := Written(existing, Values(kvedClasses, geo, owner, f))],
              if existing.Some? then Counts(0, 1, 0) else Counts(1, 0, 0))
  }

  function Load(t: map<string, Employer>, kvedClasses: set<string>, geo: Geo, owner: nat,
                rows: seq<EmployerFields>, faulty: set<nat>): Outcome
  {
    if rows == [] then Outcome(t, Counts(0, 0, 0))
    else
      var n := |rows| - 1;
      var before := Load(t, kvedClasses, geo, owner, rows[..n], faulty);
      var step := Step(before.employers, kvedClasses, geo, owner, rows[n], n in faulty);
      Outcome(step.employers, before.counts.Plus(step.counts))
  }

  /** What `handle` does after the file has been found: nothing at all when the owner's
      email matches no user, the row loop otherwise. */
  function Handle(t: map<string, Employer>, users: map<string, nat>, option: Option<string>,
                  kvedClasses: set<string>, geo: Geo, rows: seq<EmployerFields>, faulty: set<nat>): (r: Option<Outcome>)
  {
    var email := OwnerEmail(option);
    if email !in users then None
    else Some(Load(t, kvedClasses, geo, users[email], rows, faulty))
  }

  // ---------------------------------------------------------------- the command

  /** The employer table. */
  class EmployerStore {
    var employers: map<string, Employer>

    constructor ()
      ensures employers == map[]
    {
      employers := map[];
    }
  }

  method ImportRow(store: EmployerStore, kvedClasses: set<string>, geo: Geo, owner: nat, f: EmployerFields, bad: bool)
      returns (d: Counts)
    modifies store
    ensures Outcome(store.employers, d) == Step(old(store.employers), kvedClasses, geo, owner, f, bad)
  {
    if f.taxId == "" || f.name == "" {
      return Error;
    }
    var kved := None;
    if f.kvedCode != "" && f.kvedCode in kvedClasses {
      kved := Some(f.kvedCode);
    }
    var location := None;
    if f.settlementCode != "" {
      if f.settlementCode in geo.settlements {
        location := Some(f.settlementCode);
      } else if f.settlementCode in geo.cityDistricts {
        location := Some(geo.cityDistricts[f.settlementCode].settlement);
      }
    }
    if bad {
      return Error;
    }
    var v := EmployerValues(f.name, owner, kved, location, f.address);
    if f.taxId in store.employers {
      store.employers := store.employers[f.taxId := Written(Some(store.employers[f.taxId]), v)];
      d := Counts(0, 1, 0);
    } else {
      store.employers := store.employers[f.taxId := Written(None, v)];
      d := Counts(1, 0, 0);
    }
  }

  /** `handle` after the file has been found; `report` is none when the owner is missing. */
  method ImportEmployers(store: EmployerStore, users: map<string, nat>, option: Option<string>,
                         kvedClasses: set<string>, geo: Geo, rows: seq<EmployerFields>, faulty: set<nat>)
      returns (report: Option<Counts>)
    modifies store
    ensures var r := Handle(old(store.employers), users, option, kvedClasses, geo, rows, faulty);
            if r.None? then report.None? && store.employers == old(store.employers)
            else report == Some(r.value.counts) && store.employers == r.value.employers
  {
    var email := OwnerEmail(option);
    if email !in users {
      return None;
    }
    var owner := users[email];
    ghost var t0 := store.employers;
    var counts := Counts(0, 0, 0);
    var i := 0;
    while i < |rows|
      invariant 0 <= i <= |rows|
      invariant Outcome(store.employers, counts) == Load(t0, kvedClasses, geo, owner, rows[..i], faulty)
    {
      assert rows[..i + 1][..i] == rows[..i];
      var d := ImportRow(store, kvedClasses, geo, owner, rows[i], i in faulty);
      counts := counts.Plus(d);
      i := i + 1;
    }
    assert rows[..|rows|] == rows;
    report := Some(counts);
  }

  // ---------------------------------------------------------------- properties

  /** A missing owner stops the command before any row. */
  lemma MissingOwnerStops(t: map<string, Employer>, users: map<string, nat>, option: Option<string>,
                          kvedClasses: set<string>, geo: Geo, rows: seq<EmployerFields>, faulty: set<nat>)
    requires OwnerEmail(option) !in users
    ensures Handle(t, users, option, kvedClasses, geo, rows, faulty).None?
  {
  }

  /** A row without a tax id or a name is one error and changes nothing. */
  lemma MissingFieldIsError(t: map<string, Employer>, kvedClasses: set<string>, geo: Geo, owner: nat, f: EmployerFields, bad: bool)
    requires f.taxId == "" || f.name == ""
    ensures Step(t, kvedClasses, geo, owner, f, bad) == Outcome(t, Error)
  {
  }

  /** A row with a tax id and a name is written under its tax id, whether or not its KVED
      code and place resolve: an unknown or blank KVED code gives none, the place is the
      settlement, else the city district's settlement, else none. It counts as updated
      exactly when the tax id was already there. */
  lemma RowIsWritten(t: map<string, Employer>, kvedClasses: set<string>, geo: Geo, owner: nat, f: EmployerFields)
    requires f.taxId != "" && f.name != ""
    ensures var r := Step(t, kvedClasses, geo, owner, f, false);
            && f.taxId in r.employers
            && r.employers[f.taxId].name == f.name && r.employers[f.taxId].owner == owner
            && r.employers[f.taxId].address == f.address
            && (r.employers[f.taxId].kved.Some? <==> f.kvedCode != "" && f.kvedCode in kvedClasses)
            && (r.employers[f.taxId].kved.Some? ==> r.employers[f.taxId].kved.value == f.kvedCode)
            && r.employers[f.taxId].location == (if f.settlementCode == "" then None else ResolveSettlement(geo, f.settlementCode))
            && r.counts == (if f.taxId in t then Counts(0, 1, 0) else Counts(1, 0, 0))
            && r.employers.Keys == t.Keys + {f.taxId}
            && (forall k :: k in t && k != f.taxId ==> r.employers[k] == t[k])
  {
  }

  /** Every employer the run writes has the run's owner; all others are as they were. */
  lemma {:induction false} OneOwner(t: map<string, Employer>, kvedClasses: set<string>, geo: Geo, owner: nat,
                                    rows: seq<EmployerFields>, faulty: set<nat>)
    ensures var r := Load(t, kvedClasses, geo, owner, rows, faulty).employers;
            t.Keys <= r.Keys
            && forall k :: k in r ==> r[k].owner == owner || (k in t && r[k] == t[k])
  {
    if rows != [] {
      var n := |rows| - 1;
      OneOwner(t, kvedClasses, geo, owner, rows[..n], faulty);
    }
  }

  /** Every row is counted once: created, updated or error. */
  lemma {:induction false} CountsAddUp(t: map<string, Employer>, kvedClasses: set<string>, geo: Geo, owner: nat,
                                       rows: seq<EmployerFields>, faulty: set<nat>)
    ensures Load(t, kvedClasses, geo, owner, rows, faulty).counts.Total() == |rows|
  {
    if rows != [] {
      var n := |rows| - 1;
      CountsAddUp(t, kvedClasses, geo, owner, rows[..n], faulty);
    }
  }

  /** The employer under a tax id holds the values of the last row with that tax id that
      was written. */
  lemma {:induction false} LastWriterWins(t: map<string, Employer>, kvedClasses: set<string>, geo: Geo, owner: nat,
                                          rows: seq<EmployerFields>, faulty: set<nat>, j: nat)
    requires j < |rows| && rows[j].taxId != "" && rows[j].name != "" && j !in faulty
    requires forall i :: j < i < |rows| && rows[i].taxId == rows[j].taxId ==> rows[i].name == "" || i in faulty
    ensures var r := Load(t, kvedClasses, geo, owner, rows, faulty).employers;
            rows[j].taxId in r && ValuesOf(r[rows[j].taxId]) == Values(kvedClasses, geo, owner, rows[j])
  {
    var n := |rows| - 1;
    var before := Load(t, kvedClasses, geo, owner, rows[..n], faulty).employers;
    if j < n {
      assert rows[..n][j] == rows[j];
      forall i | j < i < n && rows[..n][i].taxId == rows[..n][j].taxId
        ensures rows[..n][i].name == "" || i in faulty
      {
        assert rows[..n][i] == rows[i];
      }
      LastWriterWins(t, kvedClasses, geo, owner, rows[..n], faulty, j);
      StepKeeps(before, kvedClasses, geo, owner, rows[n], n in faulty, rows[j].taxId);
    } else {
      StepWritesValues(before, kvedClasses, geo, owner, rows[n]);
    }
  }

  lemma StepKeeps(t: map<string, Employer>, kvedClasses: set<string>, geo: Geo, owner: nat, f: EmployerFields, bad: bool, k: string)
    requires k in t && (k != f.taxId || f.name == "" || bad)
    ensures var r := Step(t, kvedClasses, geo, owner, f, bad).employers;
            k in r && r[k] == t[k]
  {
  }

  lemma StepWritesValues(t: map<string, Employer>, kvedClasses: set<string>, geo: Geo, owner: nat, f: EmployerFields)
    requires f.taxId != "" && f.name != ""
    ensures var r := Step(t, kvedClasses, geo, owner, f, false).employers;
            f.taxId in r && ValuesOf(r[f.taxId]) == Values(kvedClasses, geo, owner, f)
  {
  }
}
