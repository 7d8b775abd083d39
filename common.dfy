/** Values and string helpers shared by every loader: an optional value and the
    handful of Python `str` operations the commands apply to CSV cells. */
module Common {

  datatype Option<+T> = None | Some(value: T)

  /** Python's `str.isspace()`: ASCII white space, the information separators
      U+001C..U+001F, NEXT LINE, NO-BREAK SPACE and the Unicode space separators. */
  predicate IsSpace(c: char)
  {
    c == ' ' || c == '\t' || c == '\n' || c == '\r' || c == '\U{0B}' || c == '\U{0C}'
    || ('\U{1C}' <= c <= '\U{1F}') || c == '\U{85}' || c == '\U{A0}' || c == '\U{1680}'
    || ('\U{2000}' <= c <= '\U{200A}') || c == '\U{2028}' || c == '\U{2029}'
    || c == '\U{202F}' || c == '\U{205F}' || c == '\U{3000}'
  }

  /** The no-break space that the job-title file carries inside its cells. */
  const NBSP: char := '\U{A0}'

  predicate IsDigit(c: char) { '0' <= c <= '9' }

  predicate AllDigits(s: string) { forall i :: 0 <= i < |s| ==> IsDigit(s[i]) }

  /** A string with no white space at either end. */
  predicate Stripped(s: string)
  {
    s == [] || (!IsSpace(s[0]) && !IsSpace(s[|s| - 1]))
  }

  /** `s` without its leading white space. */
  function TrimStart(s: string): (r: string)
    ensures |r| <= |s| && (r != [] ==> !IsSpace(r[0]))
    ensures r != [] ==> r[|r| - 1] == s[|s| - 1]
    ensures s != [] && !IsSpace(s[0]) ==> r == s
  {
    if s != [] && IsSpace(s[0]) then TrimStart(s[1..]) else s
  }

  /** `s` without its trailing white space. */
  function TrimEnd(s: string): (r: string)
    ensures |r| <= |s| && (r != [] ==> !IsSpace(r[|r| - 1]))
    ensures r != [] ==> r[0] == s[0]
    ensures s != [] && !IsSpace(s[|s| - 1]) ==> r == s
  {
    if s != [] && IsSpace(s[|s| - 1]) then TrimEnd(s[..|s| - 1]) else s
  }

  /** Python's `str.strip()` without arguments. */
  function Strip(s: string): (r: string)
    ensures Stripped(r) && |r| <= |s|
    ensures Stripped(s) ==> r == s
  {
    TrimEnd(TrimStart(s))
  }

  predicate AllSpace(s: string) { forall i :: 0 <= i < |s| ==> IsSpace(s[i]) }

  /** What `strip()` returns: the input with a run of white space cut from each end and
      nothing else changed, and no white space left at either end. */
  lemma {:induction false} StripIsInfix(s: string)
    ensures Stripped(Strip(s))
    ensures exists i, j :: 0 <= i <= j <= |s| && AllSpace(s[..i]) && AllSpace(s[j..]) && Strip(s) == s[i..j]
  {
    TrimStartIsSuffix(s);
    var u := TrimStart(s);
    var i := |s| - |u|;
    TrimEndIsPrefix(u);
    var j := i + |TrimEnd(u)|;
    assert s[i..j] == u[..|TrimEnd(u)|];
    assert s[j..] == u[|TrimEnd(u)|..];
  }

  lemma {:induction false} TrimStartIsSuffix(s: string)
    ensures |TrimStart(s)| <= |s|
    ensures TrimStart(s) == s[|s| - |TrimStart(s)|..] && AllSpace(s[..|s| - |TrimStart(s)|])
  {
    if s != [] && IsSpace(s[0]) {
      TrimStartIsSuffix(s[1..]);
      var k := |s| - |TrimStart(s)|;
      assert s[1..][..k - 1] == s[1..k];
      assert forall i :: 1 <= i < k ==> s[..k][i] == s[1..k][i - 1];
    }
  }

  lemma {:induction false} TrimEndIsPrefix(s: string)
    ensures |TrimEnd(s)| <= |s|
    ensures TrimEnd(s) == s[..|TrimEnd(s)|] && AllSpace(s[|TrimEnd(s)|..])
  {
    if s != [] && IsSpace(s[|s| - 1]) {
      var n := |s| - 1;
      TrimEndIsPrefix(s[..n]);
      var k := |TrimEnd(s)|;
      assert s[..n][..k] == s[..k];
      assert s[k..] == s[..n][k..] + [s[n]];
    }
  }

  /** Stripping leaves nothing exactly when every character is white space. */
  lemma {:induction false} StripEmptyIff(s: string)
    ensures Strip(s) == [] <==> forall i :: 0 <= i < |s| ==> IsSpace(s[i])
  {
    TrimStartAllSpace(s);
    TrimEndAllSpace(TrimStart(s));
  }

  lemma {:induction false} TrimStartAllSpace(s: string)
    ensures TrimStart(s) == [] <==> forall i :: 0 <= i < |s| ==> IsSpace(s[i])
  {
    if s != [] && IsSpace(s[0]) {
      TrimStartAllSpace(s[1..]);
      assert forall i :: 1 <= i < |s| ==> s[i] == s[1..][i - 1];
    }
  }

  lemma {:induction false} TrimEndAllSpace(s: string)
    requires s != [] ==> !IsSpace(s[0])
    ensures TrimEnd(s) == [] <==> s == []
  {
    if s != [] && IsSpace(s[|s| - 1]) {
      TrimEndAllSpace(s[..|s| - 1]);
    }
  }

  /** The digit characters of `s`, in order (Python's `''.join(c for c in s if c.isdigit())`). */
  function DigitsOnly(s: string): (r: string)
    ensures |r| <= |s| && AllDigits(r)
    ensures AllDigits(s) ==> r == s
  {
    if s == [] then []
    else (if IsDigit(s[0]) then [s[0]] else []) + DigitsOnly(s[1..])
  }

  /** `DigitsOnly` keeps exactly the digits, in order: it maps a concatenation to the
      concatenation of the parts' digits (and a single character to itself when it is a
      digit, to nothing otherwise, by its definition). */
  lemma {:induction false} DigitsOnlyAppend(a: string, b: string)
    ensures DigitsOnly(a + b) == DigitsOnly(a) + DigitsOnly(b)
  {
    if a != [] {
      assert (a + b)[1..] == a[1..] + b;
      DigitsOnlyAppend(a[1..], b);
    } else {
      assert a + b == b;
    }
  }

  /** One more character at the end adds itself to the digits when it is a digit. */
  lemma DigitsOnlySnoc(s: string, x: char)
    ensures DigitsOnly(s + [x]) == DigitsOnly(s) + (if IsDigit(x) then [x] else [])
  {
    DigitsOnlyAppend(s, [x]);
    assert [x][1..] == [];
  }

  /** The position of the first `c` in `s`. */
  function IndexOf(s: string, c: char): (i: nat)
    requires c in s
    ensures i < |s| && s[i] == c && c !in s[..i]
  {
    if s[0] == c then 0
    else
      var j := IndexOf(s[1..], c);
      assert s[..1 + j] == [s[0]] + s[1..][..j];
      1 + j
  }

  /** Python's `s.split(c)[0]`: the text before the first `c`, or all of `s`. */
  function BeforeFirst(s: string, c: char): (r: string)
    ensures c !in r && r <= s
    ensures c in s ==> |r| < |s| && s[|r|] == c
    ensures c !in s ==> r == s
  {
    if c in s then s[..IndexOf(s, c)] else s
  }

  /** Python's `s.split(c, 1)` when it yields two parts: the text before and after the first `c`. */
  function SplitFirst(s: string, c: char): (r: Option<(string, string)>)
    ensures r.Some? <==> c in s
    ensures r.Some? ==> r.value.0 + [c] + r.value.1 == s && c !in r.value.0
  {
    if c in s then
      var i := IndexOf(s, c);
      assert s == s[..i] + [c] + s[i + 1..];
      Some((s[..i], s[i + 1..]))
    else None
  }

  /** The split falls at the first occurrence of the separator. */
  lemma SplitFirstAt(s: string, c: char, i: nat)
    requires i < |s| && s[i] == c && c !in s[..i]
    ensures SplitFirst(s, c) == Some((s[..i], s[i + 1..]))
  {
    var j := IndexOf(s, c);
    assert forall k :: 0 <= k < i ==> s[..i][k] == s[k];
    assert forall k :: 0 <= k < j ==> s[..j][k] == s[k];
  }

  /** Python's slice `s[:n]`. */
  function Take(s: string, n: nat): (r: string)
    ensures r <= s && |r| == if n <= |s| then n else |s|
  {
    if n <= |s| then s[..n] else s
  }

  /** Python's `s.replace(c, '')`. */
  function RemoveChar(s: string, c: char): (r: string)
    ensures c !in r && |r| <= |s|
    ensures forall x :: x != c ==> (x in r <==> x in s)
    ensures c !in s ==> r == s
  {
    if s == [] then []
    else if s[0] == c then RemoveChar(s[1..], c)
    else [s[0]] + RemoveChar(s[1..], c)
  }

  /** `replace(c, '')` keeps every other character, in order and as often as it occurs:
      one more character at the end is dropped when it is `c` and kept otherwise. */
  lemma {:induction false} RemoveCharSnoc(s: string, x: char, c: char)
    ensures RemoveChar(s + [x], c) == RemoveChar(s, c) + (if x == c then [] else [x])
  {
    if s != [] {
      assert (s + [x])[1..] == s[1..] + [x];
      RemoveCharSnoc(s[1..], x, c);
    } else {
      assert ([] + [x])[1..] == [];
    }
  }

  lemma RemoveCharAppend(s: string, x: char, c: char)
    requires x != c
    ensures RemoveChar(s + [x], c) == RemoveChar(s, c) + [x]
  {
    RemoveCharSnoc(s, x, c);
  }

  /** A cell cleaned by `strip()` and then `replace(c, '')`, `c` being white space: the
      input with a run of white space cut from each end and every `c` removed, with no
      white space left at either end. */
  lemma StripThenRemove(s: string, c: char)
    requires IsSpace(c)
    ensures Stripped(RemoveChar(Strip(s), c)) && c !in RemoveChar(Strip(s), c)
    ensures exists i, j :: 0 <= i <= j <= |s| && AllSpace(s[..i]) && AllSpace(s[j..])
                           && RemoveChar(Strip(s), c) == RemoveChar(s[i..j], c)
  {
    StripIsInfix(s);
    RemoveSpaceKeepsStripped(Strip(s), c);
  }

  /** Removing a character that is itself white space keeps a stripped string stripped:
      its first and last characters are not white space, so they are not removed. */
  lemma RemoveSpaceKeepsStripped(s: string, c: char)
    requires Stripped(s) && IsSpace(c)
    ensures Stripped(RemoveChar(s, c))
  {
    if s != [] {
      var n := |s| - 1;
      assert s == s[..n] + [s[n]];
      RemoveCharAppend(s[..n], s[n], c);
      if n > 0 {
        assert s[..n] == [s[0]] + s[1..n];
      }
    }
  }

  /** Python's `sep.join(parts)`. */
  function Join(parts: seq<string>, sep: string): string
  {
    if |parts| == 0 then ""
    else if |parts| == 1 then parts[0]
    else parts[0] + sep + Join(parts[1..], sep)
  }

  /** Django's `get_or_create` on a table keyed by `k`: an existing row is returned
      untouched, otherwise `v` is inserted. */
  function GetOrCreate<K, V(==)>(m: map<K, V>, k: K, v: V): (r: map<K, V>)
    ensures r.Keys == m.Keys + {k}
    ensures r[k] == if k in m then m[k] else v
    ensures Extends(m, r)
  {
    if k in m then m else m[k := v]
  }

  /** Every row of `m` is still in `m'`, unchanged. */
  predicate Extends<K, V(==)>(m: map<K, V>, m': map<K, V>)
  {
    forall k :: k in m ==> k in m' && m'[k] == m[k]
  }

  /** A map that only gained rows and has no new key is the same map. */
  lemma ExtendsSameKeys<K, V>(m: map<K, V>, m': map<K, V>)
    requires Extends(m, m') && m'.Keys == m.Keys
    ensures m' == m
  {
  }
}
