/** The string operations of Python that the modelled code relies on:
    `str.isspace`, `str.strip`, the substring test `in`, left-to-right search,
    `str.join` and `str(n)` for a non-negative integer. */
module Text {
  import opened Errors

  /** `c.isspace()` in Python 3: the characters Python strips by default. */
  predicate IsSpace(c: char) {
    var n := c as int;
    (0x09 <= n <= 0x0D) || (0x1C <= n <= 0x20) || n == 0x85 || n == 0xA0 || n == 0x1680
    || (0x2000 <= n <= 0x200A) || n == 0x2028 || n == 0x2029 || n == 0x202F || n == 0x205F
    || n == 0x3000
  }

  /** Every character of `s` from index `a` up to `b` is whitespace. */
  predicate SpaceBetween(s: string, a: int, b: int)
    requires 0 <= a && b <= |s|
  {
    forall k :: a <= k < b ==> IsSpace(s[k])
  }

  /** Neither the first nor the last character is whitespace. */
  predicate Trimmed(s: string) {
    |s| == 0 || (!IsSpace(s[0]) && !IsSpace(s[|s| - 1]))
  }

  /** The first index at or after `i` whose character is not whitespace, or `|s|`. */
  function SkipSpace(s: string, i: nat): (j: nat)
    requires i <= |s|
    decreases |s| - i
    ensures i <= j <= |s| && SpaceBetween(s, i, j)
    ensures j == |s| || !IsSpace(s[j])
  {
    if i < |s| && IsSpace(s[i]) then SkipSpace(s, i + 1) else i
  }

  /** Moving the end `j` back over whitespace, but not below `lo`: the new end `e` has only
      whitespace between it and `j`, and a non-whitespace character just before it. */
  function BackSpace(s: string, lo: nat, j: nat): (e: nat)
    requires lo <= j <= |s|
    decreases j - lo
    ensures lo <= e <= j && SpaceBetween(s, e, j)
    ensures e == lo || !IsSpace(s[e - 1])
  {
    if j > lo && IsSpace(s[j - 1]) then BackSpace(s, lo, j - 1) else j
  }

  /** The number of whitespace characters `s` starts with. */
  function LeadingSpace(s: string): (n: nat)
    ensures n <= |s| && SpaceBetween(s, 0, n)
    ensures n == |s| || !IsSpace(s[n])
  {
    SkipSpace(s, 0)
  }

  /** `s.strip()`: `s` with its leading whitespace and its trailing whitespace cut, and
      nothing else. */
  function Strip(s: string): (r: string)
    ensures Trimmed(r)
    ensures LeadingSpace(s) + |r| <= |s|
    ensures r == s[LeadingSpace(s)..LeadingSpace(s) + |r|]
    ensures SpaceBetween(s, LeadingSpace(s) + |r|, |s|)
  {
    var a := LeadingSpace(s);
    var b := BackSpace(s, a, |s|);
    s[a..b]
  }

  /** A string without whitespace at either end is its own strip. */
  lemma TrimmedIsStripped(s: string)
    requires Trimmed(s)
    ensures Strip(s) == s
  {
  }

  /** Stripping a stripped string changes nothing. */
  lemma StripIdempotent(s: string)
    ensures Strip(Strip(s)) == Strip(s)
  {
  }

  /** `pat` occurs in `s` starting at index `k`. */
  predicate OccursAt(s: string, pat: string, k: int) {
    0 <= k && k + |pat| <= |s| && s[k..k + |pat|] == pat
  }

  /** Python's `pat in s`. The empty pattern is in every string, at position 0. */
  predicate Contains(s: string, pat: string)
    ensures Contains(s, pat) ==> |pat| <= |s|
    ensures |pat| == 0 ==> Contains(s, pat)
  {
    assert |pat| == 0 ==> OccursAt(s, pat, 0);
    exists k | 0 <= k <= |s| - |pat| :: OccursAt(s, pat, k)
  }

  /** `s.find(pat, from)`, as an option: the first occurrence at or after `from`. */
  function FindFrom(s: string, pat: string, from: nat): (r: Option<nat>)
    decreases |s| - from
    ensures r.Some? ==> from <= r.value && OccursAt(s, pat, r.value)
    ensures r.Some? ==> forall k :: from <= k < r.value ==> !OccursAt(s, pat, k)
    ensures r.None? ==> forall k :: from <= k ==> !OccursAt(s, pat, k)
  {
    if from + |pat| > |s| then None
    else if s[from..from + |pat|] == pat then Some(from)
    else FindFrom(s, pat, from + 1)
  }

  /** The substring test and the search agree. */
  lemma ContainsIffFound(s: string, pat: string)
    ensures Contains(s, pat) <==> FindFrom(s, pat, 0).Some?
  {
    var r := FindFrom(s, pat, 0);
    if r.Some? {
      assert OccursAt(s, pat, r.value);
    }
  }

  /** A character missing from a slice is missing at each of its positions. */
  lemma AbsentFromSlice(s: string, c: char, a: int, b: int)
    requires 0 <= a <= b <= |s| && c !in s[a..b]
    ensures forall k :: a <= k < b ==> s[k] != c
  {
    forall k | a <= k < b ensures s[k] != c {
      assert s[a..b][k - a] == s[k];
    }
  }

  /** The total length of a list of strings. */
  function TotalLength(items: seq<string>): nat {
    if |items| == 0 then 0 else |items[0]| + TotalLength(items[1..])
  }

  /** `sep.join(items)`: the items in order, one separator between neighbours and none
      at either end. */
  function Join(items: seq<string>, sep: string): (r: string)
    ensures |items| == 0 ==> r == ""
    ensures |items| > 0 ==> |r| == TotalLength(items) + (|items| - 1) * |sep|
    ensures |items| > 0 ==> r[..|items[0]|] == items[0]
  {
    if |items| == 0 then ""
    else if |items| == 1 then items[0]
    else
      var rest := Join(items[1..], sep);
      assert (|items| - 1) * |sep| == (|items| - 2) * |sep| + |sep|;
      items[0] + sep + rest
  }

  /** Appending an item appends the separator and the item. */
  lemma {:induction false} JoinSnoc(items: seq<string>, x: string, sep: string)
    requires |items| > 0
    ensures Join(items + [x], sep) == Join(items, sep) + sep + x
  {
    if |items| == 1 {
      assert (items + [x])[1..] == [x];
    } else {
      assert (items + [x])[1..] == items[1..] + [x];
      JoinSnoc(items[1..], x, sep);
    }
  }

  function DigitChar(d: nat): char
    requires d < 10
  {
    "0123456789"[d]
  }

  /** `str(n)` for a non-negative integer: its decimal digits, without leading zeros. */
  function NatToString(n: nat): (r: string)
    ensures |r| >= 1
    ensures forall k :: 0 <= k < |r| ==> '0' <= r[k] <= '9'
  {
    if n < 10 then [DigitChar(n)] else NatToString(n / 10) + [DigitChar(n % 10)]
  }
}
