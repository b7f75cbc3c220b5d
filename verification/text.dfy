/** String and sequence helpers shared by the guardrails, the auditor, the
    routing rules and the mock tools. Strings are ASCII-only models of Python
    `str`: `lower()`/`upper()` change only the letters A-Z / a-z, and `in`
    between two strings is substring containment. */
module Text {
  import opened Common

  // ---------------------------------------------------------------------------
  // Case mapping
  // ---------------------------------------------------------------------------

  function LowerChar(c: char): char {
    if 'A' <= c <= 'Z' then (c as int + 32) as char else c
  }

  function UpperChar(c: char): char {
    if 'a' <= c <= 'z' then (c as int - 32) as char else c
  }

  /** `s.lower()` */
  function Lower(s: string): (r: string)
    ensures |r| == |s|
    ensures forall i :: 0 <= i < |s| ==> r[i] == LowerChar(s[i])
  {
    seq(|s|, i requires 0 <= i < |s| => LowerChar(s[i]))
  }

  /** `s.upper()` */
  function Upper(s: string): (r: string)
    ensures |r| == |s|
    ensures forall i :: 0 <= i < |s| ==> r[i] == UpperChar(s[i])
  {
    seq(|s|, i requires 0 <= i < |s| => UpperChar(s[i]))
  }

  lemma LowerAppend(a: string, b: string)
    ensures Lower(a + b) == Lower(a) + Lower(b)
  {
  }

  lemma LowerDrop(s: string, k: nat)
    requires k <= |s|
    ensures Lower(s[k..]) == Lower(s)[k..]
  {
  }

  lemma LowerTake(s: string, k: nat)
    requires k <= |s|
    ensures Lower(s[..k]) == Lower(s)[..k]
  {
  }

  lemma LowerIdempotent(s: string)
    ensures Lower(Lower(s)) == Lower(s)
  {
  }

  // ---------------------------------------------------------------------------
  // Substring containment (Python's `p in s` on strings)
  // ---------------------------------------------------------------------------

  predicate StartsWith(s: string, p: string) {
    |p| <= |s| && s[..|p|] == p
  }

  /** `p in s`: `p` occurs in `s` at some position. */
  predicate Contains(s: string, p: string)
    decreases |s|
  {
    StartsWith(s, p) || (|s| > 0 && Contains(s[1..], p))
  }

  /** Case-insensitive containment: `p.lower() in s.lower()`. */
  predicate ContainsCI(s: string, p: string) {
    Contains(Lower(s), Lower(p))
  }

  /** `p` occurs in `s` starting at index `i`. */
  predicate OccursAt(s: string, p: string, i: int) {
    0 <= i <= |s| - |p| && s[i..i + |p|] == p
  }

  /** `Contains` agrees with the positional definition of an occurrence. */
  lemma {:induction false} ContainsIffOccurrence(s: string, p: string)
    ensures Contains(s, p) <==> exists i :: OccursAt(s, p, i)
    decreases |s|
  {
    if Contains(s, p) {
      if StartsWith(s, p) {
        assert OccursAt(s, p, 0);
      } else {
        ContainsIffOccurrence(s[1..], p);
        var i :| OccursAt(s[1..], p, i);
        assert s[1..][i..i + |p|] == s[i + 1..i + 1 + |p|];
        assert OccursAt(s, p, i + 1);
      }
    }
    if exists i :: OccursAt(s, p, i) {
      var i :| OccursAt(s, p, i);
      if i == 0 {
        assert StartsWith(s, p);
      } else {
        assert s[1..][i - 1..i - 1 + |p|] == s[i..i + |p|];
        assert OccursAt(s[1..], p, i - 1);
        ContainsIffOccurrence(s[1..], p);
      }
    }
  }

  lemma {:induction false} ContainsLength(s: string, p: string)
    requires Contains(s, p)
    ensures |p| <= |s|
    decreases |s|
  {
    if !StartsWith(s, p) {
      ContainsLength(s[1..], p);
    }
  }

  /** An occurrence in a suffix is an occurrence in the whole string. */
  lemma {:induction false} ContainsInSuffix(s: string, k: nat, p: string)
    requires k <= |s|
    requires Contains(s[k..], p)
    ensures Contains(s, p)
    decreases k
  {
    if k > 0 {
      assert s[1..][k - 1..] == s[k..];
      ContainsInSuffix(s[1..], k - 1, p);
    }
  }

  /** Appending text never removes an occurrence. */
  lemma {:induction false} ContainsAppend(a: string, b: string, p: string)
    requires Contains(a, p)
    ensures Contains(a + b, p)
    decreases |a|
  {
    if StartsWith(a, p) {
      assert (a + b)[..|p|] == a[..|p|];
    } else {
      assert (a + b)[1..] == a[1..] + b;
      ContainsAppend(a[1..], b, p);
    }
  }

  /** Prepending text never removes an occurrence. */
  lemma AppendAssoc<T>(a: seq<T>, b: seq<T>, c: seq<T>)
    ensures (a + b) + c == a + (b + c)
  {
  }

  lemma ContainsPrepend(a: string, b: string, p: string)
    requires Contains(b, p)
    ensures Contains(a + b, p)
  {
    assert (a + b)[|a|..] == b;
    ContainsInSuffix(a + b, |a|, p);
  }

  /** A prefix of `a + b` longer than `a` contains both characters at the seam. */
  lemma SeamInside(a: string, b: string, p: string)
    requires |a| > 0 && StartsWith(a + b, p) && |p| > |a|
    ensures a[|a| - 1] in p && |b| > 0 && b[0] in p
  {
    assert p[|a| - 1] == (a + b)[|a| - 1];
    assert p[|a|] == (a + b)[|a|];
  }

  /** A non-empty pattern whose first character does not occur in `s` does
      not occur in `s`. */
  lemma {:induction false} FirstCharAbsent(s: string, t: string)
    requires |t| > 0 && t[0] !in s
    ensures !Contains(s, t)
    decreases |s|
  {
    if |s| > 0 {
      assert s[0] != t[0];
      FirstCharAbsent(s[1..], t);
    }
  }

  /** A pattern with some character that does not occur in `s` does not
      occur in `s`. */
  lemma {:induction false} CharAbsent(s: string, p: string, k: nat)
    requires k < |p| && p[k] !in s
    ensures !Contains(s, p)
    decreases |s|
  {
    if k < |s| {
      assert s[k] != p[k];
      assert !StartsWith(s, p) by {
        if |p| <= |s| {
          assert s[..|p|][k] == s[k];
        }
      }
    }
    if |s| > 0 {
      CharAbsent(s[1..], p, k);
    }
  }

  lemma NotInAppend(a: string, b: string, c: char)
    requires c !in a && c !in b
    ensures c !in a + b
  {
  }

  /** No character of `s` is one of `cs`. */
  predicate Avoids(s: string, cs: string) {
    forall i :: 0 <= i < |s| ==> s[i] !in cs
  }

  /** A character missing from all three pieces of a text is missing from it. */
  lemma AvoidedIn3(a: string, b: string, c: string, ca: string, cb: string, cc: string, ch: char)
    requires Avoids(a, ca) && Avoids(b, cb) && Avoids(c, cc)
    requires ch in ca && ch in cb && ch in cc
    ensures ch !in a + b + c
  {
    assert ch !in a && ch !in b && ch !in c;
    NotInAppend(a, b, ch);
    NotInAppend(a + b, c, ch);
  }

  /** A character that occurs in `s` neither as given nor upper-cased does
      not occur in `s.lower()`. */
  lemma LowerLacks(s: string, c: char)
    requires c !in s && UpperChar(c) !in s
    ensures c !in Lower(s)
  {
    forall i | 0 <= i < |s|
      ensures Lower(s)[i] != c
    {
      assert s[i] != c && s[i] != UpperChar(c);
    }
  }

  /** An occurrence of `p` in `a + b` lies inside `a` or inside `b` when no
      occurrence can straddle the seam, because the last character of `a` or
      the first character of `b` does not occur in `p`. */
  lemma {:induction false} ContainsSplit(a: string, b: string, p: string)
    requires Contains(a + b, p)
    requires |a| == 0 || a[|a| - 1] !in p || (|b| > 0 && b[0] !in p)
    ensures Contains(a, p) || Contains(b, p)
    decreases |a|
  {
    if |a| == 0 {
      assert a + b == b;
    } else if StartsWith(a + b, p) {
      if |p| <= |a| {
        assert a[..|p|] == (a + b)[..|p|];
      } else {
        SeamInside(a, b, p);
        assert false;
      }
    } else {
      assert (a + b)[1..] == a[1..] + b;
      ContainsSplit(a[1..], b, p);
      if Contains(a[1..], p) {
        ContainsInSuffix(a, 1, p);
      }
    }
  }

  /** Position `k` of `p` does not start the first two letters of `t`. */
  predicate NoLeadAt(p: string, t: string, k: nat)
    requires |t| >= 2 && k < |p|
  {
    p[k] != t[0] || (k + 1 < |p| && p[k + 1] != t[1])
  }

  /** A pattern that cannot start inside `a` (its first two characters never
      line up there) occurs in `a + b` only if it occurs in `b`. */
  lemma {:induction false} AbsentPastLead(a: string, b: string, p: string)
    requires |p| >= 2
    requires forall i :: 0 <= i < |a| ==> NoLeadAt(a, p, i)
    requires !Contains(b, p)
    ensures !Contains(a + b, p)
    decreases |a|
  {
    if |a| == 0 {
      assert a + b == b;
    } else {
      assert NoLeadAt(a, p, 0);
      if a[0] != p[0] {
        assert (a + b)[0] != p[0];
      } else {
        assert (a + b)[1] == a[1] != p[1];
      }
      assert !StartsWith(a + b, p);
      assert (a + b)[1..] == a[1..] + b;
      forall i | 0 <= i < |a[1..]|
        ensures NoLeadAt(a[1..], p, i)
      {
        assert NoLeadAt(a, p, i + 1);
        assert a[1..][i] == a[i + 1];
        if i + 1 < |a[1..]| {
          assert a[1..][i + 1] == a[i + 2];
        }
      }
      AbsentPastLead(a[1..], b, p);
      assert !Contains((a + b)[1..], p);
    }
  }

  // ---------------------------------------------------------------------------
  // First hit / any hit / filter over ordered lists
  // ---------------------------------------------------------------------------

  /** Index of the first element satisfying `f`, scanning in list order (the
      `for ... : if ...: return/break` idiom). */
  function FirstWhere<T>(xs: seq<T>, f: T -> bool): (r: Option<nat>)
    ensures r.Some? ==> r.value < |xs| && f(xs[r.value])
    ensures r.Some? ==> forall j :: 0 <= j < r.value ==> !f(xs[j])
    ensures r.None? <==> forall j :: 0 <= j < |xs| ==> !f(xs[j])
    decreases |xs|
  {
    if |xs| == 0 then None
    else if f(xs[0]) then Some(0)
    else
      match FirstWhere(xs[1..], f)
      case None => None
      case Some(k) => Some(k + 1)
  }

  /** Index of the first word of `words` that occurs in `text`. */
  function FirstContained(text: string, words: seq<string>): (r: Option<nat>)
    ensures r.Some? ==> r.value < |words| && Contains(text, words[r.value])
    ensures r.Some? ==> forall j :: 0 <= j < r.value ==> !Contains(text, words[j])
    ensures r.None? <==> forall j :: 0 <= j < |words| ==> !Contains(text, words[j])
  {
    FirstWhere(words, w => Contains(text, w))
  }

  /** `any(w in text for w in words)` */
  predicate AnyContained(text: string, words: seq<string>) {
    FirstContained(text, words).Some?
  }

  /** `[x for x in xs if f(x)]` */
  function Filter<T>(xs: seq<T>, f: T -> bool): (r: seq<T>)
    ensures |r| <= |xs|
    ensures forall y :: y in r ==> y in xs && f(y)
    ensures forall j :: 0 <= j < |xs| && f(xs[j]) ==> xs[j] in r
    decreases |xs|
  {
    if |xs| == 0 then []
    else if f(xs[0]) then [xs[0]] + Filter(xs[1..], f)
    else Filter(xs[1..], f)
  }

  /** Filtering commutes with concatenation, so it keeps the list order. */
  lemma {:induction false} FilterAppend<T>(xs: seq<T>, ys: seq<T>, f: T -> bool)
    ensures Filter(xs + ys, f) == Filter(xs, f) + Filter(ys, f)
    decreases |xs|
  {
    if |xs| == 0 {
      assert xs + ys == ys;
    } else {
      assert (xs + ys)[1..] == xs[1..] + ys;
      FilterAppend(xs[1..], ys, f);
    }
  }

  // ---------------------------------------------------------------------------
  // Python slicing and decimal rendering
  // ---------------------------------------------------------------------------

  /** Python `s[:k]` for any integer `k`: a negative `k` counts from the end. */
  function PyTake(s: string, k: int): (r: string)
    ensures 0 <= k ==> r == s[..if k <= |s| then k else |s|]
    ensures k < 0 ==> r == s[..if |s| + k >= 0 then |s| + k else 0]
  {
    if k >= 0 then (if k <= |s| then s[..k] else s)
    else (if |s| + k >= 0 then s[..|s| + k] else [])
  }

  /** Python `s[k:]` for any integer `k`. */
  function PyDrop<T>(s: seq<T>, k: int): (r: seq<T>)
    ensures 0 <= k ==> r == s[if k <= |s| then k else |s|..]
    ensures k < 0 ==> r == s[if |s| + k >= 0 then |s| + k else 0..]
  {
    if k >= 0 then (if k <= |s| then s[k..] else [])
    else (if |s| + k >= 0 then s[|s| + k..] else s)
  }

  predicate IsDigit(c: char) {
    '0' <= c <= '9'
  }

  function DigitChar(d: nat): char
    requires d < 10
  {
    ('0' as int + d) as char
  }

  /** `str(n)` for a natural number. */
  function NatToString(n: nat): (r: string)
    ensures |r| > 0
    ensures forall i :: 0 <= i < |r| ==> IsDigit(r[i])
    decreases n
  {
    if n < 10 then [DigitChar(n)] else NatToString(n / 10) + [DigitChar(n % 10)]
  }

  /** `str(i)` for any integer. */
  function IntToString(i: int): string {
    if i < 0 then "-" + NatToString(-i) else NatToString(i)
  }

  /** The value of a string of decimal digits. */
  function DecimalValue(s: string): nat
    requires forall i :: 0 <= i < |s| ==> IsDigit(s[i])
    decreases |s|
  {
    if |s| == 0 then 0
    else
      var last := s[|s| - 1];
      assert IsDigit(last);
      10 * DecimalValue(s[..|s| - 1]) + (last as int - '0' as int)
  }

  /** `str` on natural numbers is injective: reading the digits back gives the number. */
  lemma {:induction false} NatToStringRoundTrip(n: nat)
    ensures DecimalValue(NatToString(n)) == n
    decreases n
  {
    if n >= 10 {
      var s := NatToString(n);
      assert s[..|s| - 1] == NatToString(n / 10);
      NatToStringRoundTrip(n / 10);
    }
  }

  /** Five-digit numbers print as exactly five digits. */
  lemma {:induction false} NatToStringFiveDigits(n: nat)
    requires 10000 <= n <= 99999
    ensures |NatToString(n)| == 5
  {
    var n1, n2, n3, n4 := n / 10, n / 100, n / 1000, n / 10000;
    assert n1 / 10 == n2 && n2 / 10 == n3 && n3 / 10 == n4 && n4 < 10;
    assert |NatToString(n)| == |NatToString(n1)| + 1;
    assert |NatToString(n1)| == |NatToString(n2)| + 1;
    assert |NatToString(n2)| == |NatToString(n3)| + 1;
    assert |NatToString(n3)| == |NatToString(n4)| + 1;
  }

  // ---------------------------------------------------------------------------
  // Python string methods used to normalise queries
  // ---------------------------------------------------------------------------

  /** `s.replace(w, "")` for a non-empty `w`: the non-overlapping occurrences,
      found left to right, are deleted. */
  function RemoveAll(s: string, w: string): (r: string)
    requires |w| > 0
    ensures |r| <= |s|
    ensures !Contains(s, w) ==> r == s
    ensures StartsWith(s, w) ==> r == RemoveAll(s[|w|..], w)
    decreases |s|
  {
    if |s| == 0 then s
    else if StartsWith(s, w) then RemoveAll(s[|w|..], w)
    else [s[0]] + RemoveAll(s[1..], w)
  }

  /** `c.isspace()` for the code points below 256. */
  predicate IsSpace(c: char) {
    9 <= c as int <= 13 || 28 <= c as int <= 32 || c as int == 0x85 || c as int == 0xA0
  }

  /** The number of whitespace characters `s` starts with. */
  function LeadingSpace(s: string): (k: nat)
    ensures k <= |s|
    ensures forall i :: 0 <= i < k ==> IsSpace(s[i])
    ensures k < |s| ==> !IsSpace(s[k])
    decreases |s|
  {
    if |s| > 0 && IsSpace(s[0]) then 1 + LeadingSpace(s[1..]) else 0
  }

  /** The number of whitespace characters `s` ends with. */
  function TrailingSpace(s: string): (k: nat)
    ensures k <= |s|
    ensures forall i :: |s| - k <= i < |s| ==> IsSpace(s[i])
    ensures k < |s| ==> !IsSpace(s[|s| - 1 - k])
    decreases |s|
  {
    if |s| > 0 && IsSpace(s[|s| - 1]) then 1 + TrailingSpace(s[..|s| - 1]) else 0
  }

  /** `s.strip()`: the slice of `s` left after dropping whitespace, and only
      whitespace, from both ends; it neither starts nor ends with whitespace. */
  function Strip(s: string): (r: string)
    ensures exists i, j ::
              && 0 <= i <= j <= |s| && r == s[i..j]
              && (forall k :: 0 <= k < i ==> IsSpace(s[k]))
              && (forall k :: j <= k < |s| ==> IsSpace(s[k]))
    ensures |r| > 0 ==> !IsSpace(r[0]) && !IsSpace(r[|r| - 1])
  {
    var a := LeadingSpace(s);
    var t := s[a..];
    var b := TrailingSpace(t);
    var r := t[..|t| - b];
    assert r == s[a..|s| - b];
    assert forall k :: |s| - b <= k < |s| ==> IsSpace(s[k]) by {
      forall k | |s| - b <= k < |s|
        ensures IsSpace(s[k])
      {
        assert s[k] == t[k - a];
      }
    }
    r
  }

  /** A leading whitespace character makes no difference to `strip`. */
  lemma StripSpaceLead(c: char, s: string)
    requires IsSpace(c)
    ensures Strip([c] + s) == Strip(s)
  {
    assert ([c] + s)[1..] == s;
    var a := LeadingSpace(s);
    assert LeadingSpace([c] + s) == 1 + a;
    assert ([c] + s)[1 + a..] == s[a..];
  }

  /** `s.capitalize()`: first character upper-cased, the rest lower-cased. */
  function Capitalize(s: string): (r: string)
    ensures |r| == |s|
    ensures |s| > 0 ==> r[0] == UpperChar(s[0]) && r[1..] == Lower(s[1..])
  {
    if |s| == 0 then s else [UpperChar(s[0])] + Lower(s[1..])
  }
}
