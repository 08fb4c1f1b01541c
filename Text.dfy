/**
  The string operations the service applies before every table lookup:
  Python's `str.lower()`, `str.upper()` and `str.strip()` (no argument).
  `strip` removes every character for which `str.isspace()` holds;
  case mapping is modelled on ASCII letters.
*/
module Text {

  /** The characters for which Python's `str.isspace()` holds. */
  predicate IsSpace(c: char) {
    || c == ' ' || ('\t' <= c <= '\r')
    || ('\U{001C}' <= c <= '\U{001F}')
    || c == '\U{0085}' || c == '\U{00A0}' || c == '\U{1680}'
    || ('\U{2000}' <= c <= '\U{200A}')
    || c == '\U{2028}' || c == '\U{2029}' || c == '\U{202F}'
    || c == '\U{205F}' || c == '\U{3000}'
  }

  /** Every character of `s` is whitespace (the empty string included). */
  predicate IsBlank(s: string) {
    forall i :: 0 <= i < |s| ==> IsSpace(s[i])
  }

  function LowerChar(c: char): char {
    if 'A' <= c <= 'Z' then (c as int - 'A' as int + 'a' as int) as char else c
  }

  function UpperChar(c: char): char {
    if 'a' <= c <= 'z' then (c as int - 'a' as int + 'A' as int) as char else c
  }

  /** `str.lower()`: maps every character independently. */
  function ToLower(s: string): string {
    seq(|s|, i requires 0 <= i < |s| => LowerChar(s[i]))
  }

  /** `str.upper()`: maps every character independently. */
  function ToUpper(s: string): string {
    seq(|s|, i requires 0 <= i < |s| => UpperChar(s[i]))
  }

  /** `str.lstrip()`: the longest suffix of `s` that does not start with whitespace. */
  function LStrip(s: string): string {
    if s != [] && IsSpace(s[0]) then LStrip(s[1..]) else s
  }

  /** `str.rstrip()`: the longest prefix of `s` that does not end with whitespace. */
  function RStrip(s: string): string {
    if s != [] && IsSpace(s[|s| - 1]) then RStrip(s[..|s| - 1]) else s
  }

  /** `str.strip()`. */
  function Strip(s: string): string {
    RStrip(LStrip(s))
  }

  /** `s.lower().strip()`, the normal form used for every table key. */
  function Normalize(s: string): string {
    Strip(ToLower(s))
  }

  /** `s` and `t` differ at most in the case of their letters. */
  predicate SameIgnoringCase(s: string, t: string) {
    |s| == |t| && forall i :: 0 <= i < |s| ==> LowerChar(s[i]) == LowerChar(t[i])
  }

  /** `lstrip` keeps a suffix: it removes only leading whitespace, and all of it. */
  lemma {:induction false} LStripSuffix(s: string)
    ensures |LStrip(s)| <= |s| && LStrip(s) == s[|s| - |LStrip(s)|..]
    ensures IsBlank(s[..|s| - |LStrip(s)|])
    ensures LStrip(s) == [] || !IsSpace(LStrip(s)[0])
  {
    if s != [] && IsSpace(s[0]) {
      LStripSuffix(s[1..]);
      var k := |s[1..]| - |LStrip(s[1..])|;
      assert s[..k + 1] == [s[0]] + s[1..][..k];
    }
  }

  /** `rstrip` keeps a prefix: it removes only trailing whitespace, and all of it. */
  lemma {:induction false} RStripPrefix(s: string)
    ensures |RStrip(s)| <= |s| && RStrip(s) == s[..|RStrip(s)|]
    ensures IsBlank(s[|RStrip(s)|..])
    ensures RStrip(s) == [] || !IsSpace(RStrip(s)[|RStrip(s)| - 1])
  {
    if s != [] && IsSpace(s[|s| - 1]) {
      var t := s[..|s| - 1];
      RStripPrefix(t);
      var k := |RStrip(t)|;
      assert s[k..] == t[k..] + [s[|s| - 1]];
    }
  }

  lemma {:induction false} LStripBlankPrefix(p: string, s: string)
    requires IsBlank(p)
    ensures LStrip(p + s) == LStrip(s)
  {
    if p != [] {
      assert (p + s)[1..] == p[1..] + s;
      LStripBlankPrefix(p[1..], s);
    } else {
      assert p + s == s;
    }
  }

  lemma {:induction false} RStripBlankSuffix(s: string, q: string)
    requires IsBlank(q)
    ensures RStrip(s + q) == RStrip(s)
  {
    if q != [] {
      assert (s + q)[..|s + q| - 1] == s + q[..|q| - 1];
      RStripBlankSuffix(s, q[..|q| - 1]);
    } else {
      assert s + q == s;
    }
  }

  /** Whitespace appended on the right travels along with a left strip, unless `s` is blank
      altogether. */
  lemma {:induction false} LStripAppend(s: string, q: string)
    requires IsBlank(q)
    ensures LStrip(s) != [] ==> LStrip(s + q) == LStrip(s) + q
    ensures LStrip(s) == [] ==> LStrip(s + q) == []
  {
    if s == [] {
      assert s + q == q + [];
      LStripBlankPrefix(q, []);
    } else {
      assert (s + q)[0] == s[0];
      if IsSpace(s[0]) {
        assert (s + q)[1..] == s[1..] + q;
        LStripAppend(s[1..], q);
        assert LStrip(s) == LStrip(s[1..]);
        assert LStrip(s + q) == LStrip(s[1..] + q);
      } else {
        assert LStrip(s) == s;
        assert LStrip(s + q) == s + q;
      }
    }
  }

  /** Surrounding whitespace never changes the stripped form. */
  lemma {:induction false} StripIgnoresPadding(p: string, s: string, q: string)
    requires IsBlank(p) && IsBlank(q)
    ensures Strip(p + s + q) == Strip(s)
  {
    assert p + s + q == p + (s + q);
    LStripBlankPrefix(p, s + q);
    var l := LStrip(s);
    LStripAppend(s, q);
    if l != [] {
      assert LStrip(s + q) == l + q;
      RStripBlankSuffix(l, q);
      assert Strip(p + s + q) == RStrip(l + q) == RStrip(l);
    } else {
      assert LStrip(s + q) == [];
      assert Strip(p + s + q) == RStrip([]);
    }
  }

  lemma {:induction false} StripIdempotent(s: string)
    ensures Strip(Strip(s)) == Strip(s)
  {
    var l := LStrip(s);
    var r := RStrip(l);
    LStripSuffix(s);
    RStripPrefix(l);
    if r != [] {
      assert r[0] == l[0];
      assert LStrip(r) == r;
    }
  }

  /** Lower-casing commutes with concatenation. */
  lemma {:induction false} ToLowerAppend(s: string, t: string)
    ensures ToLower(s + t) == ToLower(s) + ToLower(t)
  {
    assert forall i :: 0 <= i < |s + t| ==> ToLower(s + t)[i] == (ToLower(s) + ToLower(t))[i];
  }

  lemma {:induction false} ToLowerKeepsBlank(p: string)
    requires IsBlank(p)
    ensures IsBlank(ToLower(p))
  {
  }

  /** The normal form ignores letter case and surrounding whitespace:
      `" Male"`, `"MALE\t"` and `"male"` all normalise alike. */
  lemma {:induction false} NormalizeIgnoresCaseAndPadding(p: string, s: string, t: string, q: string)
    requires IsBlank(p) && IsBlank(q) && SameIgnoringCase(s, t)
    ensures Normalize(p + s + q) == Normalize(t)
  {
    ToLowerAppend(p + s, q);
    ToLowerAppend(p, s);
    ToLowerKeepsBlank(p);
    ToLowerKeepsBlank(q);
    assert ToLower(s) == ToLower(t);
    StripIgnoresPadding(ToLower(p), ToLower(s), ToLower(q));
  }

  /** No character of `s` changes under lower-casing. */
  predicate IsLowerCase(s: string) {
    forall i :: 0 <= i < |s| ==> LowerChar(s[i]) == s[i]
  }

  lemma {:induction false} ToLowerIsLowerCase(s: string)
    ensures IsLowerCase(ToLower(s))
  {
    var t := ToLower(s);
    forall i | 0 <= i < |t| ensures LowerChar(t[i]) == t[i] {
      assert t[i] == LowerChar(s[i]);
    }
  }

  lemma {:induction false} LowerCaseSlice(t: string, a: nat, b: nat)
    requires a <= b <= |t| && IsLowerCase(t)
    ensures IsLowerCase(t[a..b])
  {
    forall i | 0 <= i < b - a ensures LowerChar(t[a..b][i]) == t[a..b][i] {
      assert t[a..b][i] == t[a + i];
    }
  }

  /** Normalising twice is normalising once. */
  lemma {:induction false} NormalizeIdempotent(s: string)
    ensures Normalize(Normalize(s)) == Normalize(s)
  {
    var t := ToLower(s);
    var l := LStrip(t);
    var n := RStrip(l);
    LStripSuffix(t);
    RStripPrefix(l);
    ToLowerIsLowerCase(s);
    LowerCaseSlice(t, |t| - |l|, |t|);
    LowerCaseSlice(l, 0, |n|);
    assert ToLower(n) == n;
    StripIdempotent(t);
  }

  /** `s.lower().strip()` is the lower-cased string with all leading and trailing whitespace
      removed: a lower-case slice of `s.lower()`, blank outside it, with no whitespace at its ends. */
  lemma {:induction false} NormalizeShape(s: string)
    ensures exists a, b :: 0 <= a <= b <= |s| && Normalize(s) == ToLower(s)[a..b] &&
              IsBlank(ToLower(s)[..a]) && IsBlank(ToLower(s)[b..])
    ensures Normalize(s) == [] || (!IsSpace(Normalize(s)[0]) && !IsSpace(Normalize(s)[|Normalize(s)| - 1]))
    ensures IsLowerCase(Normalize(s))
  {
    var t := ToLower(s);
    var l := LStrip(t);
    var n := RStrip(l);
    LStripSuffix(t);
    RStripPrefix(l);
    var a := |t| - |l|;
    var b := a + |n|;
    assert n == t[a..b];
    assert t[b..] == l[|n|..];
    if n != [] {
      assert n[0] == l[0];
    }
    ToLowerIsLowerCase(s);
    LowerCaseSlice(t, a, b);
  }

  /** `str.upper()` keeps the length, changes only letter case, and leaves no lower-case ASCII
      letter. */
  lemma {:induction false} ToUpperShape(s: string)
    ensures SameIgnoringCase(s, ToUpper(s))
    ensures forall i :: 0 <= i < |s| ==> !('a' <= ToUpper(s)[i] <= 'z')
    ensures forall i :: 0 <= i < |s| && ToUpper(s)[i] != s[i] ==> 'a' <= s[i] <= 'z'
  {
    var u := ToUpper(s);
    forall i | 0 <= i < |s| ensures LowerChar(s[i]) == LowerChar(u[i]) {
      assert u[i] == UpperChar(s[i]);
    }
  }

  /** A string with no upper-case letter and no whitespace at either end is its own normal form. */
  lemma {:induction false} NormalFormFixed(s: string)
    requires forall i :: 0 <= i < |s| ==> !('A' <= s[i] <= 'Z')
    requires s != [] ==> !IsSpace(s[0]) && !IsSpace(s[|s| - 1])
    ensures Normalize(s) == s
  {
    var t := ToLower(s);
    assert forall i :: 0 <= i < |s| ==> t[i] == s[i];
    assert t == s;
    assert LStrip(s) == s;
    assert RStrip(s) == s;
  }
}
