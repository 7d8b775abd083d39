/** The tables of the `position` application: the six levels of the Classification of
    Professions and the detailed job titles. Every table except Position and JobTitle is
    keyed by its unique code; a foreign key is held as the code of the row it names. */
module PositionData {
  import opened Common

  datatype Subsection = Subsection(name: string, section: string)
  /** A class hangs under a subsection when there is one, and always under a section. */
  datatype KpClass = KpClass(name: string, subsection: Option<string>, section: string)
  datatype Subclass = Subclass(name: string, classCode: string)
  datatype Group = Group(name: string, classCode: Option<string>)
  /** Position codes are not unique: a position is identified by code, name and group. */
  datatype Position = Position(code: string, name: string, group: string)
  /** A job title is one row per (code, name) pair, linked to at most one KP node. */
  datatype JobTitle = JobTitle(zkpptr: string, etkd: string, dkhp: string,
                               position: Option<string>, group: Option<string>, subclass: Option<string>)

  datatype Tables = Tables(
    sections: map<string, string>,
    subsections: map<string, Subsection>,
    classes: map<string, KpClass>,
    subclasses: map<string, Subclass>,
    groups: map<string, Group>,
    positions: set<Position>,
    jobTitles: map<(string, string), JobTitle>)

  /** Every foreign key between the KP tables names an existing row, and a class filed
      under a subsection carries that subsection's section. */
  predicate Consistent(t: Tables)
  {
    && (forall c :: c in t.subsections ==> t.subsections[c].section in t.sections)
    && (forall c :: c in t.classes ==> ClassLinked(t, t.classes[c]))
    && (forall c :: c in t.subclasses ==> t.subclasses[c].classCode in t.classes)
    && (forall c :: c in t.groups ==> (t.groups[c].classCode.Some? ==> t.groups[c].classCode.value in t.classes))
    && (forall p :: p in t.positions ==> p.group in t.groups)
  }

  predicate ClassLinked(t: Tables, k: KpClass)
  {
    && k.section in t.sections
    && (k.subsection.Some? ==>
          k.subsection.value in t.subsections && t.subsections[k.subsection.value].section == k.section)
  }

  /** Every position sits in the group named by its code's text before the first dot. */
  predicate PositionsUnderPrefix(t: Tables)
  {
    forall p :: p in t.positions ==> '.' in p.code && p.group == BeforeFirst(p.code, '.')
  }

  /** The database of the `position` application, table by table. */
  class PositionStore {
    var sections: map<string, string>
    var subsections: map<string, Subsection>
    var classes: map<string, KpClass>
    var subclasses: map<string, Subclass>
    var groups: map<string, Group>
    var positions: set<Position>
    var jobTitles: map<(string, string), JobTitle>

    function Snapshot(): Tables
      reads this
    {
      Tables(sections, subsections, classes, subclasses, groups, positions, jobTitles)
    }

    constructor ()
      ensures Snapshot() == Tables(map[], map[], map[], map[], map[], {}, map[])
    {
      sections, subsections, classes, subclasses := map[], map[], map[], map[];
      groups, positions, jobTitles := map[], {}, map[];
    }
  }
}
