/** The tables of the `speciality` application: knowledge fields (two-digit codes) and the
    specialities under them, with the full-path display and the declared code formats. */
module SpecialityModel {
  import opened Common

  datatype KnowledgeField = KnowledgeField(name: string, order: int)

  /** A speciality; `field` and `parent` hold the codes of the rows they reference. */
  datatype Speciality = Speciality(field: string, name: string, parent: Option<string>, level: int, order: int)

  datatype Tables = Tables(fields: map<string, KnowledgeField>, specialities: map<string, Speciality>)

  /** The database of the `speciality` application. */
  class SpecialityStore {
    var fields: map<string, KnowledgeField>
    var specialities: map<string, Speciality>

    function Snapshot(): Tables
      reads this
    {
      Tables(fields, specialities)
    }

    constructor ()
      ensures Snapshot() == Tables(map[], map[])
    {
      fields, specialities := map[], map[];
    }
  }

  // ---------------------------------------------------------------- full path

  const PathSeparator := " / "

  /** `get_full_path`: the knowledge field's name, the parent's name when there is a
      parent, and the speciality's own name, joined by " / ". */
  function FullPath(fieldName: string, parentName: Option<string>, name: string): string
  {
    var parts := [fieldName, name];
    var parts' := if parentName.Some? then parts[..1] + [parentName.value] + parts[1..] else parts;
    Join(parts', PathSeparator)
  }

  /** The two shapes of the path. */
  lemma FullPathShapes(fieldName: string, parentName: Option<string>, name: string)
    ensures parentName.None? ==> FullPath(fieldName, parentName, name) == fieldName + " / " + name
    ensures parentName.Some? ==>
              FullPath(fieldName, parentName, name) == fieldName + " / " + parentName.value + " / " + name
  {
    if parentName.Some? {
      var p := parentName.value;
      assert [fieldName, name][..1] + [p] + [fieldName, name][1..] == [fieldName, p, name];
      assert [fieldName, p, name][1..] == [p, name];
      assert [p, name][1..] == [name];
      assert Join([p, name], PathSeparator) == p + PathSeparator + name;
    } else {
      assert [fieldName, name][1..] == [name];
      assert Join([name], PathSeparator) == name;
    }
  }

  /** The path always begins with the knowledge field's name and ends with the
      speciality's own name, each set off by the separator. */
  lemma FullPathEnds(fieldName: string, parentName: Option<string>, name: string)
    ensures var r := FullPath(fieldName, parentName, name);
            fieldName + " / " <= r
            && |r| >= |name| + 3 && r[|r| - |name| - 3..] == " / " + name
  {
    FullPathShapes(fieldName, parentName, name);
    var r := FullPath(fieldName, parentName, name);
    var mid := if parentName.Some? then fieldName + " / " + parentName.value else fieldName;
    assert r == mid + (" / " + name);
    assert r == fieldName + " / " + (if parentName.Some? then parentName.value + " / " + name else name);
  }

  // ---------------------------------------------------------------- validators

  /** A pattern anchored with `^…$` as Python's `re` reads it: `$` also matches just
      before a final line break. */
  predicate AnchoredMatch(s: string, body: string -> bool)
  {
    body(s) || (s != [] && s[|s| - 1] == '\n' && body(s[..|s| - 1]))
  }

  /** The validator of `KnowledgeField.code`: exactly two digits. */
  predicate ValidFieldCode(s: string)
  {
    AnchoredMatch(s, d => |d| == 2 && AllDigits(d))
  }

  /** The validator of `Speciality.code`: three to ten digits. */
  predicate ValidSpecialityCode(s: string)
  {
    AnchoredMatch(s, d => 3 <= |d| <= 10 && AllDigits(d))
  }

  /** A valid speciality code begins with two digits that form a valid knowledge-field
      code, so the two-character prefix the loader links by is well formed. */
  lemma {:induction false} ValidSpecialityPrefix(s: string)
    requires ValidSpecialityCode(s)
    ensures ValidFieldCode(Take(s, 2))
  {
    var p := Take(s, 2);
    assert |p| == 2;
    assert forall i :: 0 <= i < 2 ==> p[i] == s[i];
  }

  /** The formats accept one final line break, as Python's `$` does: for any text without
      a line break, the text followed by one line break is valid exactly when the text
      itself is. */
  lemma {:induction false} TrailingLineBreakAccepted(s: string)
    requires '\n' !in s
    ensures ValidFieldCode(s + "\n") <==> |s| == 2 && AllDigits(s)
    ensures ValidSpecialityCode(s + "\n") <==> 3 <= |s| <= 10 && AllDigits(s)
    ensures ValidFieldCode(s) <==> |s| == 2 && AllDigits(s)
    ensures ValidSpecialityCode(s) <==> 3 <= |s| <= 10 && AllDigits(s)
  {
    var t := s + "\n";
    assert t[..|t| - 1] == s;
    assert !IsDigit(t[|t| - 1]);
    assert s != [] ==> s[|s| - 1] in s;
  }
}
