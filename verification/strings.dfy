/**
 Python string behaviour the service relies on, on `string == seq<char>`:
 `str.strip()`, `str.startswith`, the `in` substring test, `str.replace(pat, "")`,
 `str.split(sep)`, `int(text)` on a base-10 literal and `str(n)` / f-string formatting
 of an integer.
 */
module Strings {
  import opened Options

  /** Python truthiness of an `Optional[str]`: present and non-empty. */
  predicate Filled(o: Option<string>) {
    o.Some? && |o.value| > 0
  }

  predicate IsDigit(c: char) {
    '0' <= c <= '9'
  }

  function DigitValue(c: char): nat
    requires IsDigit(c)
  {
    (c as int) - ('0' as int)
  }

  function DigitChar(d: nat): (c: char)
    requires d < 10
    ensures IsDigit(c) && DigitValue(c) == d
  {
    (('0' as int) + d) as char
  }

  /** The characters `str.isspace()` accepts, which are the ones `str.strip()` removes. */
  predicate IsSpace(c: char) {
    || ('\t' <= c <= '\r')
    || ('\U{1C}' <= c <= ' ')
    || c == '\U{85}' || c == '\U{A0}' || c == '\U{1680}'
    || ('\U{2000}' <= c <= '\U{200A}')
    || c == '\U{2028}' || c == '\U{2029}' || c == '\U{202F}' || c == '\U{205F}' || c == '\U{3000}'
  }

  /** The padding `int()` tolerates around a literal: every `IsSpace` character except the
      four ASCII separators U+001C..U+001F, which `int()` rejects although `strip()` removes them. */
  predicate IsIntSpace(c: char) {
    IsSpace(c) && !('\U{1C}' <= c <= '\U{1F}')
  }

  /** `s` with its leading run of `drop` characters removed. */
  function TrimStart(s: string, drop: char -> bool): (r: string)
    ensures |r| <= |s| && r == s[|s| - |r|..]
    ensures forall k :: 0 <= k < |s| - |r| ==> drop(s[k])
    ensures |r| == 0 || !drop(r[0])
    decreases |s|
  {
    if |s| > 0 && drop(s[0]) then TrimStart(s[1..], drop) else s
  }

  /** `s` with its trailing run of `drop` characters removed. */
  function TrimEnd(s: string, drop: char -> bool): (r: string)
    ensures |r| <= |s| && r == s[..|r|]
    ensures forall k :: |r| <= k < |s| ==> drop(s[k])
    ensures |r| == 0 || !drop(r[|r| - 1])
    decreases |s|
  {
    if |s| > 0 && drop(s[|s| - 1]) then TrimEnd(s[..|s| - 1], drop) else s
  }

  /** `r` is the slice of `s` starting at `i`, and every character of `s` before `i` or
      after `i + |r|` satisfies `drop`. */
  ghost predicate TrimmedAt(s: string, r: string, i: int, drop: char -> bool) {
    && 0 <= i <= i + |r| <= |s| && r == s[i..i + |r|]
    && (forall k :: 0 <= k < i ==> drop(s[k]))
    && (forall k :: i + |r| <= k < |s| ==> drop(s[k]))
  }

  /** Python's `s.strip()`. */
  function Strip(s: string): (r: string)
    ensures |r| <= |s|
    ensures |r| == 0 || (!IsSpace(r[0]) && !IsSpace(r[|r| - 1]))
  {
    TrimEnd(TrimStart(s, IsSpace), IsSpace)
  }

  /** `strip()` keeps the middle slice of `s` that remains once the whitespace runs at
      both ends are dropped. */
  lemma StripIsTrimmedSlice(s: string)
    ensures exists i :: TrimmedAt(s, Strip(s), i, IsSpace)
  {
    var t := TrimStart(s, IsSpace);
    assert Strip(s) == TrimEnd(t, IsSpace);
    TrimmedSlice(s, t, Strip(s), IsSpace);
    assert TrimmedAt(s, Strip(s), |s| - |t|, IsSpace);
  }

  /** Dropping a prefix run and then a suffix run leaves a slice of the original. */
  lemma TrimmedSlice(s: string, t: string, r: string, drop: char -> bool)
    requires |t| <= |s| && t == s[|s| - |t|..] && forall k :: 0 <= k < |s| - |t| ==> drop(s[k])
    requires |r| <= |t| && r == t[..|r|] && forall k :: |r| <= k < |t| ==> drop(t[k])
    ensures TrimmedAt(s, r, |s| - |t|, drop)
  {
    var i := |s| - |t|;
    assert s[i..][..|r|] == s[i..i + |r|];
    forall k | i + |r| <= k < |s| ensures drop(s[k]) {
      assert s[k] == t[k - i];
    }
  }

  /** A string that neither starts nor ends with whitespace is left alone by `strip()`. */
  lemma StripUnpadded(s: string)
    requires |s| > 0 && !IsSpace(s[0]) && !IsSpace(s[|s| - 1])
    ensures Strip(s) == s
  {
  }

  /** A trailing whitespace run (a line's newline, say) is removed by `strip()`. */
  lemma StripTrailingSpace(s: string, pad: string)
    requires |s| > 0 && !IsSpace(s[0]) && !IsSpace(s[|s| - 1])
    requires forall k :: 0 <= k < |pad| ==> IsSpace(pad[k])
    ensures Strip(s + pad) == s
  {
    var w := s + pad;
    assert w[0] == s[0];
    assert TrimStart(w, IsSpace) == w;
    TrimEndOfPadded(s, pad);
  }

  lemma {:induction false} TrimEndOfPadded(s: string, pad: string)
    requires |s| > 0 && !IsSpace(s[|s| - 1])
    requires forall k :: 0 <= k < |pad| ==> IsSpace(pad[k])
    ensures TrimEnd(s + pad, IsSpace) == s
    decreases |pad|
  {
    var w := s + pad;
    if |pad| == 0 {
      assert w == s;
    } else {
      assert w[|w| - 1] == pad[|pad| - 1];
      assert w[..|w| - 1] == s + pad[..|pad| - 1];
      TrimEndOfPadded(s, pad[..|pad| - 1]);
    }
  }

  predicate StartsWith(s: string, prefix: string) {
    |prefix| <= |s| && s[..|prefix|] == prefix
  }

  predicate EndsWith(s: string, suffix: string) {
    |suffix| <= |s| && s[|s| - |suffix|..] == suffix
  }

  /** Python's `pat in s` for strings. */
  predicate Contains(s: string, pat: string)
    decreases |s|
  {
    StartsWith(s, pat) || (|s| > 0 && Contains(s[1..], pat))
  }

  lemma {:induction false} ContainsSuffix(a: string, pat: string)
    ensures Contains(a + pat, pat)
    decreases |a|
  {
    if |a| > 0 {
      assert (a + pat)[1..] == a[1..] + pat;
      ContainsSuffix(a[1..], pat);
    } else {
      assert a + pat == pat;
    }
  }

  /** `pat` occurs in `s` starting at position `k`. */
  predicate OccursAt(s: string, pat: string, k: int) {
    0 <= k <= |s| - |pat| && s[k..k + |pat|] == pat
  }

  /** Dropping the first character shifts every occurrence one place to the left. */
  lemma OccursShift(s: string, pat: string, k: int)
    requires |s| > 0 && 0 <= k
    ensures OccursAt(s[1..], pat, k) <==> OccursAt(s, pat, k + 1)
  {
    if 0 <= k <= |s| - 1 - |pat| {
      assert s[1..][k..k + |pat|] == s[k + 1..k + 1 + |pat|];
    }
  }

  /** `pat in s` holds exactly when `pat` occurs at some position of `s`. */
  lemma {:induction false} ContainsAt(s: string, pat: string)
    ensures Contains(s, pat) <==> exists k :: OccursAt(s, pat, k)
    decreases |s|
  {
    assert StartsWith(s, pat) <==> OccursAt(s, pat, 0);
    if |s| > 0 {
      ContainsAt(s[1..], pat);
      if Contains(s[1..], pat) {
        var k :| OccursAt(s[1..], pat, k);
        OccursShift(s, pat, k);
      }
      if exists k :: OccursAt(s, pat, k) {
        var k :| OccursAt(s, pat, k);
        if k > 0 {
          OccursShift(s, pat, k - 1);
        }
      }
    } else if exists k :: OccursAt(s, pat, k) {
      var k :| OccursAt(s, pat, k);
      assert k == 0;
    }
  }

  /** Python's `s.replace(pat, "")`: occurrences are removed left to right without overlap,
      so the result may contain `pat` again (`"kbkbpsps"` becomes `"kbps"`). */
  function RemoveAll(s: string, pat: string): (r: string)
    requires |pat| > 0
    ensures |r| <= |s|
    decreases |s|
  {
    if |s| < |pat| then s
    else if s[..|pat|] == pat then RemoveAll(s[|pat|..], pat)
    else [s[0]] + RemoveAll(s[1..], pat)
  }

  /** A prefix in which the pattern cannot start passes through `replace` unchanged. */
  lemma {:induction false} RemoveAllKeepsPrefix(a: string, b: string, pat: string)
    requires |pat| > 0
    requires forall k :: 0 <= k < |a| ==> a[k] != pat[0]
    ensures RemoveAll(a + b, pat) == a + RemoveAll(b, pat)
    decreases |a|
  {
    if |a| == 0 {
      assert a + b == b;
    } else if |a + b| < |pat| {
      assert |b| < |pat|;
    } else {
      var w := a + b;
      assert w[0] == a[0] != pat[0];
      assert w[..|pat|][0] == w[0];
      assert w[..|pat|] != pat;
      assert RemoveAll(w, pat) == [w[0]] + RemoveAll(w[1..], pat);
      assert w[1..] == a[1..] + b;
      RemoveAllKeepsPrefix(a[1..], b, pat);
      assert a == [a[0]] + a[1..];
    }
  }

  lemma RemoveAllOfPattern(pat: string)
    requires |pat| > 0
    ensures RemoveAll(pat, pat) == ""
  {
    assert pat[..|pat|] == pat;
    assert pat[|pat|..] == "";
  }

  /** Python's `s.split(sep)` for a one-character separator. */
  function Split(s: string, sep: char): (parts: seq<string>)
    ensures |parts| > 0
    ensures forall k :: 0 <= k < |parts| ==> sep !in parts[k]
    decreases |s|
  {
    if |s| == 0 then [""]
    else
      var rest := Split(s[1..], sep);
      if s[0] == sep then [""] + rest else [[s[0]] + rest[0]] + rest[1..]
  }

  /** Python's `sep.join(parts)`, the inverse of `Split`. */
  function Join(parts: seq<string>, sep: char): string
    requires |parts| > 0
    decreases |parts|
  {
    if |parts| == 1 then parts[0] else parts[0] + [sep] + Join(parts[1..], sep)
  }

  lemma {:induction false} SplitWithoutSeparator(a: string, sep: char)
    requires sep !in a
    ensures Split(a, sep) == [a]
    decreases |a|
  {
    if |a| > 0 {
      SplitWithoutSeparator(a[1..], sep);
      assert [a[0]] + a[1..] == a;
    }
  }

  lemma {:induction false} SplitAtFirst(a: string, b: string, sep: char)
    requires sep !in a
    ensures Split(a + [sep] + b, sep) == [a] + Split(b, sep)
    decreases |a|
  {
    var s := a + [sep] + b;
    if |a| == 0 {
      assert s[1..] == b;
    } else {
      assert s[1..] == a[1..] + [sep] + b;
      SplitAtFirst(a[1..], b, sep);
      assert [a[0]] + a[1..] == a;
    }
  }

  /** Three separator-free fields joined by the separator split back into those fields. */
  lemma SplitThree(a: string, b: string, c: string, sep: char)
    requires sep !in a && sep !in b && sep !in c
    ensures Split(a + [sep] + b + [sep] + c, sep) == [a, b, c]
  {
    var tail := b + [sep] + c;
    assert a + [sep] + b + [sep] + c == a + [sep] + tail;
    SplitAtFirst(a, tail, sep);
    SplitAtFirst(b, c, sep);
    SplitWithoutSeparator(c, sep);
    assert Split(tail, sep) == [b, c];
    assert [a] + [b, c] == [a, b, c];
  }

  lemma {:induction false} JoinThenSplit(parts: seq<string>, sep: char)
    requires |parts| > 0
    requires forall k :: 0 <= k < |parts| ==> sep !in parts[k]
    ensures Split(Join(parts, sep), sep) == parts
    decreases |parts|
  {
    if |parts| == 1 {
      SplitWithoutSeparator(parts[0], sep);
    } else {
      JoinThenSplit(parts[1..], sep);
      SplitAtFirst(parts[0], Join(parts[1..], sep), sep);
      assert [parts[0]] + parts[1..] == parts;
    }
  }

  lemma {:induction false} SplitThenJoin(s: string, sep: char)
    ensures Join(Split(s, sep), sep) == s
    decreases |s|
  {
    if |s| > 0 {
      SplitThenJoin(s[1..], sep);
      var rest := Split(s[1..], sep);
      if s[0] == sep {
        assert ([""] + rest)[1..] == rest;
        assert s == [sep] + s[1..];
      } else {
        var parts := [[s[0]] + rest[0]] + rest[1..];
        if |rest| == 1 {
          assert s == [s[0]] + s[1..];
        } else {
          assert parts[1..] == rest[1..];
          assert s == [s[0]] + s[1..];
        }
      }
    }
  }

  // ---- integers ----

  /** Value of a string of ASCII digits, most significant first. */
  function NatValue(ds: string): nat
    requires forall k :: 0 <= k < |ds| ==> IsDigit(ds[k])
    decreases |ds|
  {
    if |ds| == 0 then 0 else NatValue(ds[..|ds| - 1]) * 10 + DigitValue(ds[|ds| - 1])
  }

  /** Python's `str(n)` for `n >= 0`: decimal digits without leading zeros. */
  function ShowNat(n: nat): (r: string)
    ensures |r| > 0
    ensures forall k :: 0 <= k < |r| ==> IsDigit(r[k])
    decreases n
  {
    if n < 10 then [DigitChar(n)] else ShowNat(n / 10) + [DigitChar(n % 10)]
  }

  /** Python's `str(n)` / `f"{n}"` for an `int`. */
  function ShowInt(n: int): (r: string)
    ensures |r| > 0 && IsDigit(r[|r| - 1])
    ensures forall k :: 0 <= k < |r| ==> IsDigit(r[k]) || (k == 0 && r[k] == '-')
  {
    if n < 0 then "-" + ShowNat(-n) else ShowNat(n)
  }

  /** The body of a Python base-10 literal: ASCII digits, where a single underscore may
      separate two digits. */
  predicate IsDigitGroups(t: string) {
    && |t| > 0
    && IsDigit(t[0])
    && IsDigit(t[|t| - 1])
    && (forall k :: 0 <= k < |t| ==> IsDigit(t[k]) || t[k] == '_')
    && (forall k :: 0 < k < |t| && t[k] == '_' ==> t[k - 1] != '_')
  }

  function DropUnderscores(t: string): (r: string)
    ensures (forall k :: 0 <= k < |t| ==> IsDigit(t[k]) || t[k] == '_') ==>
              forall k :: 0 <= k < |r| ==> IsDigit(r[k])
    ensures (forall k :: 0 <= k < |t| ==> t[k] != '_') ==> r == t
    decreases |t|
  {
    if |t| == 0 then t
    else (if t[0] == '_' then "" else [t[0]]) + DropUnderscores(t[1..])
  }

  function ParseDigitGroups(t: string): Option<nat> {
    if IsDigitGroups(t) then Some(NatValue(DropUnderscores(t))) else None
  }

  /** A literal after its padding is gone: an optional sign, then digit groups. */
  function ParseSigned(t: string): (r: Option<int>)
    ensures r.Some? ==> exists k :: 0 <= k < |t| && IsDigit(t[k])
  {
    var signed := |t| > 0 && (t[0] == '-' || t[0] == '+');
    var body := if signed then t[1..] else t;
    match ParseDigitGroups(body)
    case None => None
    case Some(n) =>
      assert IsDigit(body[0]);
      var v: int := if signed && t[0] == '-' then -(n as int) else n;
      Some(v)
  }

  /** Python's `int(text)` (base 10): surrounding whitespace, an optional sign, then digit
      groups; anything else is the `ValueError` case, here `None`. */
  function ParseInt(text: string): (r: Option<int>)
    ensures r.Some? ==> exists k :: 0 <= k < |text| && IsDigit(text[k])
  {
    var t := TrimEnd(TrimStart(text, IsIntSpace), IsIntSpace);
    var r := ParseSigned(t);
    assert r.Some? ==> exists k :: 0 <= k < |t| && IsDigit(t[k]);
    r
  }

  lemma {:induction false} NatValueOfShowNat(n: nat)
    ensures NatValue(ShowNat(n)) == n
    decreases n
  {
    if n >= 10 {
      var s := ShowNat(n);
      assert s[..|s| - 1] == ShowNat(n / 10);
      NatValueOfShowNat(n / 10);
    }
  }

  lemma ParseShowNat(n: nat)
    ensures ParseDigitGroups(ShowNat(n)) == Some(n)
  {
    NatValueOfShowNat(n);
  }

  /** The decimal form of an integer carries no padding for `int()` to strip. */
  lemma ShowIntUnpadded(n: int)
    ensures TrimEnd(TrimStart(ShowInt(n), IsIntSpace), IsIntSpace) == ShowInt(n)
  {
    var s := ShowInt(n);
    assert !IsIntSpace(s[0]);
    assert TrimStart(s, IsIntSpace) == s;
    assert !IsIntSpace(s[|s| - 1]);
    assert TrimEnd(s, IsIntSpace) == s;
  }

  lemma ParseSignedShowInt(n: int)
    ensures ParseSigned(ShowInt(n)) == Some(n)
  {
    var s := ShowInt(n);
    var m: nat := if n < 0 then -n else n;
    ParseShowNat(m);
    var body := if n < 0 then s[1..] else s;
    assert body == ShowNat(m);
    assert (|s| > 0 && (s[0] == '-' || s[0] == '+')) == (n < 0);
    assert ParseDigitGroups(body) == Some(m);
  }

  /** `int(str(n)) == n`: formatting an integer and parsing it back is the identity. */
  lemma ParseShowInt(n: int)
    ensures ParseInt(ShowInt(n)) == Some(n)
  {
    ShowIntUnpadded(n);
    ParseSignedShowInt(n);
  }

  /** Distinct integers have distinct decimal forms. */
  lemma ShowIntInjective(a: int, b: int)
    requires ShowInt(a) == ShowInt(b)
    ensures a == b
  {
    ParseShowInt(a);
    ParseShowInt(b);
  }

  /** The decimal form of an integer has no character other than digits and `-`, so
      `replace` of a letter-initial pattern leaves it alone. */
  lemma ShowIntThenUnit(n: int, unit: string)
    requires |unit| > 0 && !IsDigit(unit[0]) && unit[0] != '-'
    ensures RemoveAll(ShowInt(n) + unit, unit) == ShowInt(n)
    ensures Contains(ShowInt(n) + unit, unit)
  {
    RemoveAllKeepsPrefix(ShowInt(n), unit, unit);
    RemoveAllOfPattern(unit);
    assert ShowInt(n) + "" == ShowInt(n);
    ContainsSuffix(ShowInt(n), unit);
  }

  /** A number followed by its unit reads back as the number once the unit is removed:
      `int((str(n) + unit).replace(unit, "")) == n`. */
  lemma ParseWithUnit(n: int, unit: string)
    requires |unit| > 0 && !IsDigit(unit[0]) && unit[0] != '-'
    ensures Contains(ShowInt(n) + unit, unit)
    ensures ParseInt(RemoveAll(ShowInt(n) + unit, unit)) == Some(n)
  {
    ShowIntThenUnit(n, unit);
    ParseShowInt(n);
  }
}
