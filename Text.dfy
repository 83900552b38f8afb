/**
 * The two string operations the eligibility code relies on: Java's `String.trim()`,
 * which strips every leading and trailing character at or below U+0020, and
 * `String.toLowerCase()`, modelled on the ASCII letters only.
 */
module Text {

  /** A character `String.trim()` removes from either end. */
  predicate IsTrimmable(c: char) {
    c <= ' '
  }

  predicate IsAsciiUpper(c: char) {
    'A' <= c <= 'Z'
  }

  /** Where `trim()` starts scanning from the front: the index of the first character at
      or after `i` that it keeps, or `|s|` when there is none. */
  function TrimFrom(s: string, i: nat): (k: nat)
    requires i <= |s|
    ensures i <= k <= |s|
    ensures forall j :: i <= j < k ==> IsTrimmable(s[j])
    ensures k == |s| || !IsTrimmable(s[k])
    decreases |s| - i
  {
    if i < |s| && IsTrimmable(s[i]) then TrimFrom(s, i + 1) else i
  }

  /** Where `trim()` stops scanning from the back: one past the last character before `j`,
      and not before `lo`, that it keeps, or `lo` when there is none. */
  function TrimTo(s: string, lo: nat, j: nat): (k: nat)
    requires lo <= j <= |s|
    ensures lo <= k <= j
    ensures forall m :: k <= m < j ==> IsTrimmable(s[m])
    ensures k == lo || !IsTrimmable(s[k - 1])
    decreases j
  {
    if lo < j && IsTrimmable(s[j - 1]) then TrimTo(s, lo, j - 1) else j
  }

  /** True when `t` is what is left of `s` once `k` characters are cut from its front and
      the rest beyond `t` from its back, and everything cut is trimmable. */
  predicate TrimmedAt(s: string, t: string, k: int) {
    && 0 <= k <= |s| - |t|
    && t == s[k..k + |t|]
    && (forall i :: 0 <= i < k ==> IsTrimmable(s[i]))
    && (forall i :: k + |t| <= i < |s| ==> IsTrimmable(s[i]))
  }

  /** Java's `String.trim()`: the part of `s` between the first and the last character
      above U+0020. */
  function Trim(s: string): (r: string)
    ensures TrimmedAt(s, r, TrimFrom(s, 0))
    ensures r == [] || (!IsTrimmable(r[0]) && !IsTrimmable(r[|r| - 1]))
    ensures r == [] <==> forall i :: 0 <= i < |s| ==> IsTrimmable(s[i])
  {
    var a := TrimFrom(s, 0);
    var b := TrimTo(s, a, |s|);
    assert a < |s| ==> a < b;
    s[a..b]
  }

  /** `Character.toLowerCase` restricted to ASCII. */
  function LowerChar(c: char): (d: char)
    ensures !IsAsciiUpper(d)
    ensures IsTrimmable(d) == IsTrimmable(c)
    ensures IsAsciiUpper(c) || d == c
  {
    if IsAsciiUpper(c) then (c as int + 32) as char else c
  }

  /** `String.toLowerCase()`, on the ASCII letters. */
  function Lower(s: string): (r: string)
    ensures |r| == |s|
    ensures forall i :: 0 <= i < |s| ==> r[i] == LowerChar(s[i])
  {
    seq(|s|, i requires 0 <= i < |s| => LowerChar(s[i]))
  }

  /** What both the required item and every possession go through before comparison:
      `s.trim().toLowerCase()`. */
  function Normalize(s: string): (r: string)
    ensures |r| <= |s|
    ensures r == [] <==> forall i :: 0 <= i < |s| ==> IsTrimmable(s[i])
    ensures r == [] || (!IsTrimmable(r[0]) && !IsTrimmable(r[|r| - 1]))
    ensures forall i :: 0 <= i < |r| ==> !IsAsciiUpper(r[i])
  {
    var t := Trim(s);
    var r := Lower(t);
    assert forall i :: 0 <= i < |r| ==> r[i] == LowerChar(t[i]);
    r
  }

  /** A string with no trimmable character at either end is its own trim. */
  lemma {:induction false} TrimOfTrimmed(s: string)
    requires s == [] || (!IsTrimmable(s[0]) && !IsTrimmable(s[|s| - 1]))
    ensures Trim(s) == s
  {
  }

  /** Trimming twice is trimming once. */
  lemma {:induction false} TrimIdempotent(s: string)
    ensures Trim(Trim(s)) == Trim(s)
  {
    TrimOfTrimmed(Trim(s));
  }

  /** Lower-casing a string that has no ASCII capital changes nothing. */
  lemma {:induction false} LowerOfLower(s: string)
    requires forall i :: 0 <= i < |s| ==> !IsAsciiUpper(s[i])
    ensures Lower(s) == s
  {
  }

  /** Normalizing a normalized string changes nothing, so a stored item compares with
      possessions exactly as the string it was built from would. */
  lemma {:induction false} NormalizeIdempotent(s: string)
    ensures Normalize(Normalize(s)) == Normalize(s)
  {
    var n := Normalize(s);
    calc {
      Normalize(n);
      Lower(Trim(n));
      { TrimOfTrimmed(n); }
      Lower(n);
      { LowerOfLower(n); }
      n;
    }
  }

  /** A string that is already trimmed and has no ASCII capital is its own normal form. */
  lemma {:induction false} NormalizeOfNormal(s: string)
    requires s == [] || (!IsTrimmable(s[0]) && !IsTrimmable(s[|s| - 1]))
    requires forall i :: 0 <= i < |s| ==> !IsAsciiUpper(s[i])
    ensures Normalize(s) == s
  {
    calc {
      Normalize(s);
      Lower(Trim(s));
      { TrimOfTrimmed(s); }
      Lower(s);
      { LowerOfLower(s); }
      s;
    }
  }
}
