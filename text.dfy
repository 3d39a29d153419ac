/**
 * The handful of Rust `str` operations the watcher relies on, stated over
 * `seq<char>`: `split` on a character, its inverse `join`, `trim`,
 * `split(pat).next()` (the text before the first occurrence of a pattern),
 * `strip_suffix`, and the first index of a character (`splitn(2, c)`).
 */
module Text {
  import opened Wrappers

  /** Rust's `char::is_whitespace`: the characters with the Unicode White_Space property. */
  predicate IsWhitespace(c: char) {
    var n := c as int;
    (0x9 <= n <= 0xD) || n == 0x20 || n == 0x85 || n == 0xA0 || n == 0x1680
    || (0x2000 <= n <= 0x200A) || n == 0x2028 || n == 0x2029 || n == 0x202F
    || n == 0x205F || n == 0x3000
  }

  predicate EndsWith(s: string, suffix: string) {
    |suffix| <= |s| && s[|s| - |suffix|..] == suffix
  }

  /** `pat` occurs in `s` starting at index `i`. */
  predicate OccursAt(s: string, pat: string, i: nat) {
    i + |pat| <= |s| && s[i..i + |pat|] == pat
  }

  /** The pieces joined back together with `sep` between consecutive ones. */
  function Join(parts: seq<string>, sep: char): string
    requires |parts| >= 1
  {
    if |parts| == 1 then parts[0] else parts[0] + [sep] + Join(parts[1..], sep)
  }

  /**
   * `s.split(sep).collect()`: the maximal `sep`-free pieces of `s`, in order.
   * There is always at least one piece (the empty string splits into one empty piece).
   */
  function Split(s: string, sep: char): (parts: seq<string>)
    ensures |parts| >= 1
    ensures forall i :: 0 <= i < |parts| ==> sep !in parts[i]
    decreases |s|
  {
    if s == [] then [[]]
    else
      var rest := Split(s[1..], sep);
      if s[0] == sep then [[]] + rest
      else [[s[0]] + rest[0]] + rest[1..]
  }

  lemma {:induction false} SplitWithoutSeparator(s: string, sep: char)
    requires sep !in s
    ensures Split(s, sep) == [s]
    decreases |s|
  {
    if s != [] {
      SplitWithoutSeparator(s[1..], sep);
      assert [s[0]] + s[1..] == s;
    }
  }

  /** Splitting distributes over a separator between two texts. */
  lemma {:induction false} SplitAround(a: string, b: string, sep: char)
    ensures Split(a + [sep] + b, sep) == Split(a, sep) + Split(b, sep)
    decreases |a|
  {
    if a == [] {
      assert a + [sep] + b == [sep] + b;
      assert ([sep] + b)[1..] == b;
    } else {
      var s := a + [sep] + b;
      assert s[0] == a[0] && s[1..] == a[1..] + [sep] + b;
      SplitAround(a[1..], b, sep);
      if a[0] != sep {
        var tail := Split(a[1..], sep);
        assert (tail + Split(b, sep))[1..] == tail[1..] + Split(b, sep);
      }
    }
  }

  /** Joining the pieces back with the separator gives the text that was split. */
  lemma {:induction false} JoinSplit(s: string, sep: char)
    ensures Join(Split(s, sep), sep) == s
    decreases |s|
  {
    if s != [] {
      var rest := Split(s[1..], sep);
      JoinSplit(s[1..], sep);
      assert s == [s[0]] + s[1..];
      if s[0] == sep {
        assert ([[]] + rest)[1..] == rest;
      } else if |rest| > 1 {
        var parts := [[s[0]] + rest[0]] + rest[1..];
        assert parts[1..] == rest[1..];
      }
    }
  }

  /** Join followed by Split gives the pieces back, when no piece holds the separator. */
  lemma {:induction false} SplitJoin(parts: seq<string>, sep: char)
    requires |parts| >= 1
    requires forall i :: 0 <= i < |parts| ==> sep !in parts[i]
    ensures Split(Join(parts, sep), sep) == parts
    decreases |parts|
  {
    if |parts| == 1 {
      SplitWithoutSeparator(parts[0], sep);
    } else {
      SplitJoin(parts[1..], sep);
      SplitAround(parts[0], Join(parts[1..], sep), sep);
      SplitWithoutSeparator(parts[0], sep);
      assert [parts[0]] + parts[1..] == parts;
    }
  }

  /** Joining with one more piece at the end appends the separator and that piece. */
  lemma {:induction false} JoinSnoc(parts: seq<string>, last: string, sep: char)
    requires |parts| >= 1
    ensures Join(parts + [last], sep) == Join(parts, sep) + [sep] + last
    decreases |parts|
  {
    if |parts| > 1 {
      JoinSnoc(parts[1..], last, sep);
      assert (parts + [last])[1..] == parts[1..] + [last];
    }
  }

  /** Rust's `trim_start` with `char::is_whitespace`. */
  function TrimStart(s: string): (r: string)
    ensures |r| <= |s| && r == s[|s| - |r|..]
    ensures forall i :: 0 <= i < |s| - |r| ==> IsWhitespace(s[i])
    ensures r == [] || !IsWhitespace(r[0])
    decreases |s|
  {
    if s != [] && IsWhitespace(s[0]) then TrimStart(s[1..]) else s
  }

  /** Rust's `trim_end` with `char::is_whitespace`. */
  function TrimEnd(s: string): (r: string)
    ensures |r| <= |s| && r == s[..|r|]
    ensures forall i :: |r| <= i < |s| ==> IsWhitespace(s[i])
    ensures r == [] || !IsWhitespace(r[|r| - 1])
    decreases |s|
  {
    if s != [] && IsWhitespace(s[|s| - 1]) then TrimEnd(s[..|s| - 1]) else s
  }

  /**
   * `r` is `s` with its leading and trailing whitespace cut off, the leading
   * run being `a` characters long: `r` is the slice `s[a..a + |r|]`,
   * everything outside it is whitespace, and it neither starts nor ends with
   * whitespace.
   */
  predicate TrimmedAt(s: string, a: nat, r: string) {
    && a + |r| <= |s| && r == s[a..a + |r|]
    && (forall i :: 0 <= i < a ==> IsWhitespace(s[i]))
    && (forall i :: a + |r| <= i < |s| ==> IsWhitespace(s[i]))
    && (r == [] || (!IsWhitespace(r[0]) && !IsWhitespace(r[|r| - 1])))
  }

  /** Rust's `str::trim`: `s` with its leading and trailing whitespace removed. */
  function Trim(s: string): (r: string)
    ensures TrimmedAt(s, |s| - |TrimStart(s)|, r)
  {
    TrimParts(s);
    TrimEnd(TrimStart(s))
  }

  /** The trailing-whitespace cut of the leading-whitespace cut, as a slice of `s`. */
  lemma TrimParts(s: string)
    ensures TrimmedAt(s, |s| - |TrimStart(s)|, TrimEnd(TrimStart(s)))
  {
    var t := TrimStart(s);
    var r := TrimEnd(t);
    var a := |s| - |t|;
    SliceOfSlice(s, a, |r|);
    TrimEndTail(s, t, a);
    FirstOfPrefix(t, r);
  }

  /** A prefix of a suffix is a middle slice. */
  lemma SliceOfSlice(s: string, a: nat, n: nat)
    requires a + n <= |s|
    ensures s[a..][..n] == s[a..a + n]
  {
  }

  /** A non-empty prefix starts with the same character. */
  lemma FirstOfPrefix(t: string, r: string)
    requires |r| <= |t| && r == t[..|r|]
    ensures r != [] ==> r[0] == t[0]
  {
  }

  /** What TrimEnd cuts off a suffix `t` of `s` is whitespace of `s`. */
  lemma TrimEndTail(s: string, t: string, a: nat)
    requires a <= |s| && t == s[a..]
    ensures forall i :: a + |TrimEnd(t)| <= i < |s| ==> IsWhitespace(s[i])
  {
    var n := |TrimEnd(t)|;
    forall i | a + n <= i < |s|
      ensures IsWhitespace(s[i])
    {
      assert s[i] == t[i - a];
    }
  }

  /** A text that neither starts nor ends with whitespace is its own trim. */
  lemma TrimOfTrimmed(s: string)
    requires s == [] || (!IsWhitespace(s[0]) && !IsWhitespace(s[|s| - 1]))
    ensures Trim(s) == s
  {
    if s != [] {
      assert !IsWhitespace(s[0]) && !IsWhitespace(s[|s| - 1]);
    }
  }

  /** Trimming keeps a first character that is not whitespace. */
  lemma TrimKeepsFirst(s: string)
    requires s != [] && !IsWhitespace(s[0])
    ensures |Trim(s)| > 0 && Trim(s)[0] == s[0]
  {
    assert !IsWhitespace(s[0]);
  }

  /**
   * `s.split(pat).next().unwrap()`: the text of `s` before the first
   * occurrence of `pat`, or all of `s` when `pat` does not occur.
   */
  function BeforeFirst(s: string, pat: string): (r: string)
    requires |pat| > 0
    ensures |r| <= |s| && r == s[..|r|]
    ensures forall i :: 0 <= i < |r| ==> !OccursAt(s, pat, i)
    ensures |r| < |s| ==> OccursAt(s, pat, |r|)
    decreases |s|
  {
    if |s| < |pat| then s
    else if s[..|pat|] == pat then []
    else
      var r := [s[0]] + BeforeFirst(s[1..], pat);
      forall i | 1 <= i <= |r|
        ensures OccursAt(s, pat, i) <==> OccursAt(s[1..], pat, i - 1)
      {
        OccursShift(s, pat, i);
      }
      r
  }

  /**
   * The contract of BeforeFirst pins its result down: a cut `k` with no
   * occurrence before it, and an occurrence at it unless it is the end, is
   * exactly where BeforeFirst cuts.
   */
  lemma BeforeFirstAt(s: string, pat: string, k: nat)
    requires |pat| > 0 && k <= |s|
    requires forall i :: 0 <= i < k ==> !OccursAt(s, pat, i)
    requires k < |s| ==> OccursAt(s, pat, k)
    ensures BeforeFirst(s, pat) == s[..k]
  {
    var r := BeforeFirst(s, pat);
    assert |r| < |s| ==> OccursAt(s, pat, |r|);
    assert k < |r| ==> !OccursAt(s, pat, k);
  }

  lemma OccursShift(s: string, pat: string, i: nat)
    requires 1 <= i <= |s|
    ensures OccursAt(s, pat, i) <==> OccursAt(s[1..], pat, i - 1)
  {
    if i + |pat| <= |s| {
      var here := s[i..i + |pat|];
      var there := s[1..][i - 1..i - 1 + |pat|];
      forall j | 0 <= j < |pat|
        ensures here[j] == there[j]
      {
        assert here[j] == s[i + j] && there[j] == s[1..][i - 1 + j];
      }
      assert here == there;
    }
  }

  /** Rust's `strip_suffix`: `s` without `suffix` when it ends with it, otherwise None. */
  function StripSuffix(s: string, suffix: string): (r: Option<string>)
    ensures r.Some? <==> EndsWith(s, suffix)
    ensures r.Some? ==> r.value + suffix == s
  {
    if EndsWith(s, suffix) then Some(s[..|s| - |suffix|]) else None
  }

  /** The index of the first `c` in `s`. */
  function IndexOf(s: string, c: char): (i: nat)
    requires c in s
    ensures i < |s| && s[i] == c && c !in s[..i]
    decreases |s|
  {
    if s[0] == c then 0
    else
      var i := 1 + IndexOf(s[1..], c);
      assert s[..i] == [s[0]] + s[1..][..i - 1];
      i
  }

  /** The first `c` is at `k` when `s[k]` is a `c` and none comes before it. */
  lemma IndexOfAt(s: string, c: char, k: nat)
    requires k < |s| && s[k] == c && c !in s[..k]
    ensures IndexOf(s, c) == k
  {
  }
}
