/** The code-shape rules of the Classification of Professions (KP) loader: the level a
    code stands for, read from its shape alone, and the code of its parent level. */
module KpCodes {
  import opened Common

  /** The six levels of the KP hierarchy, root first. */
  datatype Level = SectionLevel | SubsectionLevel | ClassLevel | SubclassLevel | GroupLevel | PositionLevel

  /** The level a dot-free code of `n` digits stands for. */
  function LevelOfDigitCount(n: nat): Option<Level>
  {
    if n == 1 then Some(SectionLevel)
    else if n == 2 then Some(SubsectionLevel)
    else if n == 3 then Some(ClassLevel)
    else if n == 4 then Some(SubclassLevel)
    else if n > 4 then Some(GroupLevel)
    else None
  }

  /** `get_code_level`: a code with a dot is a position; otherwise the number of digit
      characters decides, and a code without digits has no level. */
  function GetCodeLevel(code: string): Option<Level>
  {
    var s := Strip(code);
    if '.' in s then Some(PositionLevel)
    else LevelOfDigitCount(|DigitsOnly(s)|)
  }

  /** `get_parent_code`: the text before the first dot for a position, the first three, two
      or one digits for a subclass, class or subsection, and nothing for the other levels. */
  function GetParentCode(code: string, level: Level): (r: Option<string>)
  {
    var s := Strip(code);
    var d := DigitsOnly(s);
    match level
    case PositionLevel => if '.' in s then Some(BeforeFirst(s, '.')) else None
    case SubclassLevel => if |d| >= 3 then Some(d[..3]) else None
    case ClassLevel => if |d| >= 2 then Some(d[..2]) else None
    case SubsectionLevel => if |d| >= 1 then Some(d[..1]) else None
    case _ => None
  }

  /** Number of digits of a code at each dot-free level below the section. */
  function Width(level: Level): nat
  {
    match level
    case SectionLevel => 1
    case SubsectionLevel => 2
    case ClassLevel => 3
    case SubclassLevel => 4
    case _ => 0
  }

  /** The level directly above a subsection, class or subclass. */
  function Above(level: Level): Level
  {
    match level
    case SubsectionLevel => SectionLevel
    case ClassLevel => SubsectionLevel
    case SubclassLevel => ClassLevel
    case _ => level
  }

  /** The level of a dot-free code depends on nothing but how many digits it has. */
  lemma LevelDependsOnlyOnDigitCount(a: string, b: string)
    requires '.' !in Strip(a) && '.' !in Strip(b)
    requires |DigitsOnly(Strip(a))| == |DigitsOnly(Strip(b))|
    ensures GetCodeLevel(a) == GetCodeLevel(b)
  {
  }

  /** Only a dot-free code without a single digit has no level. */
  lemma NoLevelIffNoDigits(code: string)
    ensures GetCodeLevel(code) == None <==> '.' !in Strip(code) && DigitsOnly(Strip(code)) == []
  {
  }

  /** A code made of digits alone has exactly the level its digit count names. */
  lemma {:induction false} LevelOfDigitCode(c: string)
    requires AllDigits(c)
    ensures GetCodeLevel(c) == LevelOfDigitCount(|c|)
  {
    DigitsAreStripped(c);
  }

  lemma DigitsAreStripped(c: string)
    requires AllDigits(c)
    ensures Strip(c) == c
  {
    if c != [] {
      assert IsDigit(c[0]) && IsDigit(c[|c| - 1]);
    }
  }

  /** For an all-digit code at the subsection, class or subclass level, the parent code is
      its first one, two or three digits, and that parent code is at the level directly
      above. */
  lemma {:induction false} ParentIsOneLevelUp(c: string, level: Level)
    requires AllDigits(c)
    requires level == SubsectionLevel || level == ClassLevel || level == SubclassLevel
    requires GetCodeLevel(c) == Some(level)
    ensures |c| == Width(level)
    ensures GetParentCode(c, level) == Some(c[..Width(level) - 1])
    ensures GetCodeLevel(c[..Width(level) - 1]) == Some(Above(level))
  {
    LevelOfDigitCode(c);
    DigitsAreStripped(c);
    var p := c[..Width(level) - 1];
    assert AllDigits(p);
    LevelOfDigitCode(p);
  }

  /** A position's parent code is the stripped code's text before its first dot; the
      section and group levels have no parent code. */
  lemma PositionParentIsPrefix(code: string)
    requires '.' in Strip(code)
    ensures GetCodeLevel(code) == Some(PositionLevel)
    ensures GetParentCode(code, PositionLevel) == Some(BeforeFirst(Strip(code), '.'))
    ensures GetParentCode(code, SectionLevel) == None && GetParentCode(code, GroupLevel) == None
  {
  }
}
