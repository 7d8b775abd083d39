/** The tables of the `kved` application: the four levels of the KVED-2010 classification
    of economic activities, each keyed by its unique code, a parent held as its code. */
module KvedData {

  datatype Division = Division(name: string, section: string)
  datatype Group = Group(name: string, division: string)
  datatype KvedClass = KvedClass(name: string, group: string)

  datatype Kved = Kved(
    sections: map<string, string>,
    divisions: map<string, Division>,
    groups: map<string, Group>,
    classes: map<string, KvedClass>)

  /** Every parent code names an existing row one level up. */
  predicate Consistent(t: Kved)
  {
    && (forall c :: c in t.divisions ==> t.divisions[c].section in t.sections)
    && (forall c :: c in t.groups ==> t.groups[c].division in t.divisions)
    && (forall c :: c in t.classes ==> t.classes[c].group in t.groups)
  }

  /** The database of the `kved` application. */
  class KvedStore {
    var sections: map<string, string>
    var divisions: map<string, Division>
    var groups: map<string, Group>
    var classes: map<string, KvedClass>

    function Snapshot(): Kved
      reads this
    {
      Kved(sections, divisions, groups, classes)
    }

    constructor ()
      ensures Snapshot() == Kved(map[], map[], map[], map[])
    {
      sections, divisions, groups, classes := map[], map[], map[], map[];
    }
  }
}
