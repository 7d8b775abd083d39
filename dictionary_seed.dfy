/** The `load_dictionaries` command: four small reference tables are filled with
    `get_or_create(name=…, defaults={'order': idx})` from fixed lists, so a name already
    present keeps its row and a new one gets its position in the list as its order. */
module DictionarySeed {
  import opened Common

  /** One dictionary table (`EmploymentType`, `EducationLevel`, `Degree` or `Tag`): the
      unique name of each row and its `order`. */
  class DictionaryTable {
    var entries: map<string, int>

    constructor ()
      ensures entries == map[]
    {
      entries := map[];
    }
  }

  /** Reference definition of one seeding loop over `names`. */
  function Seeded(m: map<string, int>, names: seq<string>): (r: map<string, int>)
    ensures forall i :: 0 <= i < |names| ==> names[i] in r
  {
    if names == [] then m
    else
      var n := |names| - 1;
      GetOrCreate(Seeded(m, names[..n]), names[n], n)
  }

  /** The names the loop reports as created, in order. */
  function CreatedNames(m: map<string, int>, names: seq<string>): seq<string>
  {
    if names == [] then []
    else
      var n := |names| - 1;
      var before := CreatedNames(m, names[..n]);
      if names[n] in Seeded(m, names[..n]) then before else before + [names[n]]
  }

  /** The loop `for idx, name in enumerate(names)`; `created` lists the names the
      command reports. */
  method Seed(table: DictionaryTable, names: seq<string>) returns (created: seq<string>)
    modifies table
    ensures table.entries == Seeded(old(table.entries), names)
    ensures created == CreatedNames(old(table.entries), names)
  {
    ghost var t0 := table.entries;
    created := [];
    var idx := 0;
    while idx < |names|
      invariant 0 <= idx <= |names|
      invariant table.entries == Seeded(t0, names[..idx])
      invariant created == CreatedNames(t0, names[..idx])
    {
      assert names[..idx + 1][..idx] == names[..idx];
      var name := names[idx];
      if name !in table.entries {
        table.entries := table.entries[name := idx];
        created := created + [name];
      }
      idx := idx + 1;
    }
    assert names[..|names|] == names;
  }

  // ---------------------------------------------------------------- the lists

  const EmploymentTypes: seq<string> := [
    "Повна зайнятість",
    "Часткова зайнятість",
    "Дистанційна робота",
    "Гібридний формат",
    "Проєктна робота / Freelance",
    "Стажування"]

  const EducationLevels: seq<string> := [
    "Загальна середня",
    "Професійно-технічна",
    "Неповна вища",
    "Базова вища",
    "Вища освіта"]

  const Degrees: seq<string> := [
    "Кваліфікований робітник",
    "Молодший бакалавр",
    "Фаховий молодший бакалавр",
    "Молодший спеціаліст",
    "Бакалавр",
    "Спеціаліст",
    "Магістр",
    "Кандидат наук",
    "Доктор наук"]

  const Tags: seq<string> := [
    "Державна служба",
    "Вакансія з житлом",
    "Для ветеранів",
    "Перша робота / Без досвіду",
    "Робота для студентів",
    "Для осіб з інвалідністю",
    "Бронювання працівників"]

  /** `handle`: the four tables seeded in turn from their lists. */
  method LoadDictionaries(employment: DictionaryTable, education: DictionaryTable,
                          degrees: DictionaryTable, tags: DictionaryTable)
    requires employment != education && employment != degrees && employment != tags
    requires education != degrees && education != tags && degrees != tags
    modifies employment, education, degrees, tags
    ensures employment.entries == Seeded(old(employment.entries), EmploymentTypes)
    ensures education.entries == Seeded(old(education.entries), EducationLevels)
    ensures degrees.entries == Seeded(old(degrees.entries), Degrees)
    ensures tags.entries == Seeded(old(tags.entries), Tags)
  {
    var _ := Seed(employment, EmploymentTypes);
    var _ := Seed(education, EducationLevels);
    var _ := Seed(degrees, Degrees);
    var _ := Seed(tags, Tags);
  }

  // ---------------------------------------------------------------- properties

  /** After seeding every listed name is present, and no row that was there changes. */
  lemma {:induction false} SeededKeepsAndAdds(m: map<string, int>, names: seq<string>)
    ensures Seeded(m, names).Keys == m.Keys + set i | 0 <= i < |names| :: names[i]
    ensures Extends(m, Seeded(m, names))
  {
    if names != [] {
      var n := |names| - 1;
      SeededKeepsAndAdds(m, names[..n]);
      assert (set i | 0 <= i < |names| :: names[i]) == (set i | 0 <= i < n :: names[..n][i]) + {names[n]};
    }
  }

  /** A name that was not in the table gets the position of its first occurrence in the
      list as its order. */
  lemma {:induction false} NewNameGetsItsIndex(m: map<string, int>, names: seq<string>, i: nat)
    requires i < |names| && names[i] !in m && names[i] !in names[..i]
    ensures Seeded(m, names)[names[i]] == i
  {
    var n := |names| - 1;
    SeededKeepsAndAdds(m, names[..n]);
    if i < n {
      assert names[..n][i] == names[i] && names[..n][..i] == names[..i];
      NewNameGetsItsIndex(m, names[..n], i);
    } else {
      assert forall k | 0 <= k < n :: names[..n][k] == names[..i][k];
    }
  }

  /** A name is reported as created exactly when it is listed and was not in the table. */
  lemma {:induction false} CreatedExactlyNew(m: map<string, int>, names: seq<string>, x: string)
    ensures x in CreatedNames(m, names) <==> x in names && x !in m
  {
    if names != [] {
      var n := |names| - 1;
      CreatedExactlyNew(m, names[..n], x);
      SeededKeepsAndAdds(m, names[..n]);
      assert names == names[..n] + [names[n]];
      assert x in names[..n] <==> x in (set i | 0 <= i < n :: names[..n][i]);
    }
  }

  /** When every listed name is already present, nothing is reported as created. */
  lemma {:induction false} NothingCreatedWhenPresent(m: map<string, int>, names: seq<string>)
    requires forall i :: 0 <= i < |names| ==> names[i] in m
    ensures CreatedNames(m, names) == []
  {
    if names != [] {
      var n := |names| - 1;
      NothingCreatedWhenPresent(m, names[..n]);
      SeededKeepsAndAdds(m, names[..n]);
    }
  }

  /** Running the command a second time changes nothing and creates nothing. */
  lemma SecondRunChangesNothing(m: map<string, int>, names: seq<string>)
    ensures Seeded(Seeded(m, names), names) == Seeded(m, names)
    ensures CreatedNames(Seeded(m, names), names) == []
  {
    var s := Seeded(m, names);
    SeededKeepsAndAdds(m, names);
    SeededKeepsAndAdds(s, names);
    ExtendsSameKeys(s, Seeded(s, names));
    NothingCreatedWhenPresent(s, names);
  }

  /** No list repeats a name, so on empty tables every entry's order is its position. */
  lemma {:induction false} FreshTablesGetListOrder()
    ensures forall i :: 0 <= i < |EmploymentTypes| ==> Seeded(map[], EmploymentTypes)[EmploymentTypes[i]] == i
    ensures forall i :: 0 <= i < |EducationLevels| ==> Seeded(map[], EducationLevels)[EducationLevels[i]] == i
    ensures forall i :: 0 <= i < |Degrees| ==> Seeded(map[], Degrees)[Degrees[i]] == i
    ensures forall i :: 0 <= i < |Tags| ==> Seeded(map[], Tags)[Tags[i]] == i
  {
    forall i | 0 <= i < |EmploymentTypes| ensures Seeded(map[], EmploymentTypes)[EmploymentTypes[i]] == i {
      NoRepeats(EmploymentTypes, i);
      NewNameGetsItsIndex(map[], EmploymentTypes, i);
    }
    forall i | 0 <= i < |EducationLevels| ensures Seeded(map[], EducationLevels)[EducationLevels[i]] == i {
      NoRepeats(EducationLevels, i);
      NewNameGetsItsIndex(map[], EducationLevels, i);
    }
    forall i | 0 <= i < |Degrees| ensures Seeded(map[], Degrees)[Degrees[i]] == i {
      NoRepeats(Degrees, i);
      NewNameGetsItsIndex(map[], Degrees, i);
    }
    forall i | 0 <= i < |Tags| ensures Seeded(map[], Tags)[Tags[i]] == i {
      NoRepeats(Tags, i);
      NewNameGetsItsIndex(map[], Tags, i);
    }
  }

  lemma NoRepeats(names: seq<string>, i: nat)
    requires names in [EmploymentTypes, EducationLevels, Degrees, Tags] && i < |names|
    ensures names[i] !in names[..i]
  {
  }
}
