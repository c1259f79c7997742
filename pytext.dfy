/** The Python string and sequence operations the report tool relies on, with
    their Python semantics written out: `str.split`, `str.join`, the `in`
    substring test, `str.strip`, `str.upper`, `str.replace`, `int()`, `str()`
    of an integer, negative indexing, clamped slicing and `[::-1]`. */
module PyText {
  import opened Results

  predicate IsDigit(c: char) { '0' <= c <= '9' }

  /** The characters Python 2's `str.strip()` removes. */
  predicate IsSpace(c: char) {
    c == ' ' || c == '\t' || c == '\n' || c == '\r' || c == '\U{0B}' || c == '\U{0C}'
  }

  predicate AllDigits(s: string) { forall k :: 0 <= k < |s| ==> IsDigit(s[k]) }

  // ---------------------------------------------------------------------------
  // Reversal (`s[::-1]`)

  function Reverse<T>(s: seq<T>): (r: seq<T>)
    ensures |r| == |s|
    ensures forall k :: 0 <= k < |s| ==> r[k] == s[|s| - 1 - k]
  {
    seq(|s|, k requires 0 <= k < |s| => s[|s| - 1 - k])
  }

  lemma ReverseReverse<T>(s: seq<T>)
    ensures Reverse(Reverse(s)) == s
  {
    assert forall k :: 0 <= k < |s| ==> Reverse(Reverse(s))[k] == s[k];
  }

  lemma ReverseAppend<T>(a: seq<T>, b: seq<T>)
    ensures Reverse(a + b) == Reverse(b) + Reverse(a)
  {
    assert forall k :: 0 <= k < |a + b| ==> Reverse(a + b)[k] == (Reverse(b) + Reverse(a))[k];
  }

  // ---------------------------------------------------------------------------
  // Substring search, `pat in s`

  predicate OccursAt(s: string, pat: string, i: nat) {
    i + |pat| <= |s| && s[i..i + |pat|] == pat
  }

  /** The first index at which `pat` occurs in `s`, as `str.find` computes it. */
  function Find(s: string, pat: string): (r: Option<nat>)
    ensures r.Some? ==> OccursAt(s, pat, r.value)
    ensures r.Some? ==> forall i: nat :: i < r.value ==> !OccursAt(s, pat, i)
    ensures r.None? ==> forall i: nat :: !OccursAt(s, pat, i)
    decreases |s|
  {
    if |pat| > |s| then None
    else if s[..|pat|] == pat then Some(0)
    else
      OccursShift(s, pat);
      match Find(s[1..], pat)
      case None => None
      case Some(j) => Some(j + 1)
  }

  /** Past the first character, `pat` occurs in `s` where it occurs in `s[1..]`, one further on. */
  lemma OccursShift(s: string, pat: string)
    requires |s| > 0
    ensures forall i: nat :: i > 0 ==> (OccursAt(s, pat, i) <==> OccursAt(s[1..], pat, i - 1))
  {
    forall i: nat | i > 0
      ensures OccursAt(s, pat, i) <==> OccursAt(s[1..], pat, i - 1)
    {
      if i + |pat| <= |s| {
        assert s[1..][i - 1..i - 1 + |pat|] == s[i..i + |pat|];
      }
    }
  }

  predicate Contains(s: string, pat: string) { Find(s, pat).Some? }

  // ---------------------------------------------------------------------------
  // `sep.join(parts)` and `s.split(sep)`

  function Join(parts: seq<string>, sep: string): string
    decreases |parts|
  {
    if |parts| == 0 then ""
    else if |parts| == 1 then parts[0]
    else parts[0] + sep + Join(parts[1..], sep)
  }

  /** `sep.join` of two and of three parts. */
  lemma JoinPair(a: string, b: string, sep: string)
    ensures Join([a, b], sep) == a + sep + b
  {
    assert [a, b][1..] == [b];
  }

  lemma JoinTriple(a: string, b: string, c: string, sep: string)
    ensures Join([a, b, c], sep) == a + sep + b + sep + c
  {
    assert [a, b, c][1..] == [b, c];
    JoinPair(b, c, sep);
  }

  /** `s.split(sep)` for a non-empty separator: the pieces between the
      leftmost non-overlapping occurrences of `sep`. */
  function Split(s: string, sep: string): (r: seq<string>)
    requires |sep| > 0
    ensures |r| >= 1
    ensures Join(r, sep) == s
    ensures forall k :: 0 <= k < |r| ==> !Contains(r[k], sep)
    decreases |s|
  {
    match Find(s, sep)
    case None => [s]
    case Some(i) =>
      var rest := Split(s[i + |sep|..], sep);
      assert s == s[..i] + sep + s[i + |sep|..];
      NoEarlierOccurrence(s, sep, i);
      [s[..i]] + rest
  }

  lemma NoEarlierOccurrence(s: string, sep: string, i: nat)
    requires |sep| > 0 && OccursAt(s, sep, i)
    requires forall j: nat :: j < i ==> !OccursAt(s, sep, j)
    ensures !Contains(s[..i], sep)
  {
    var pre := s[..i];
    forall j: nat | OccursAt(pre, sep, j) ensures OccursAt(s, sep, j) && j < i {
      assert pre[j..j + |sep|] == s[j..j + |sep|];
    }
  }

  /** `Find` is determined by where the pattern occurs. */
  lemma FindIs(s: string, pat: string, m: nat)
    requires OccursAt(s, pat, m) && forall i: nat :: i < m ==> !OccursAt(s, pat, i)
    ensures Find(s, pat) == Some(m)
  {
    if Find(s, pat).Some? {
      var f := Find(s, pat).value;
      assert !(f < m) && !(m < f);
    }
  }

  /** A prefix free of a one-character separator shifts its first occurrence. */
  lemma {:induction false} FindShift(pre: string, t: string, sep: string)
    requires |sep| == 1 && forall k :: 0 <= k < |pre| ==> pre[k] != sep[0]
    ensures Find(t, sep).None? ==> Find(pre + t, sep).None?
    ensures Find(t, sep).Some? ==> Find(pre + t, sep) == Some(Find(t, sep).value + |pre|)
    decreases |pre|
  {
    var s := pre + t;
    if |pre| == 0 {
      assert s == t;
    } else {
      assert s[..|sep|] != sep by {
        assert s[..|sep|][0] == pre[0];
      }
      assert s[1..] == pre[1..] + t;
      FindShift(pre[1..], t, sep);
    }
  }

  /** `s.split(sep)` when the first separator is at `j`. */
  lemma SplitAt(s: string, sep: string, j: nat)
    requires |sep| > 0 && Find(s, sep) == Some(j)
    ensures Split(s, sep) == [s[..j]] + Split(s[j + |sep|..], sep)
  {
  }

  /** `s.split(sep)` when the separator does not occur. */
  lemma SplitNone(s: string, sep: string)
    requires |sep| > 0 && Find(s, sep).None?
    ensures Split(s, sep) == [s]
  {
  }

  /** `(pre + t).split(sep)` when the first separator is at `j` in `t`, past `pre`. */
  lemma SplitAtShifted(pre: string, t: string, sep: string, j: nat)
    requires |sep| == 1 && j < |t| && Find(pre + t, sep) == Some(j + |pre|)
    ensures Split(pre + t, sep) == [pre + t[..j]] + Split(t[j + 1..], sep)
  {
    ConcatSlices(pre, t, j);
    SplitAt(pre + t, sep, j + |pre|);
  }

  lemma ConcatSlices(pre: string, t: string, j: nat)
    requires j < |t|
    ensures (pre + t)[..j + |pre|] == pre + t[..j]
    ensures (pre + t)[j + |pre| + 1..] == t[j + 1..]
  {
  }

  /** `(pre + t).split(sep)` when `pre` holds no one-character separator. */
  lemma SplitShift(pre: string, t: string, sep: string)
    requires |sep| == 1 && forall k :: 0 <= k < |pre| ==> pre[k] != sep[0]
    ensures Split(pre + t, sep) == [pre + Split(t, sep)[0]] + Split(t, sep)[1..]
  {
    FindShift(pre, t, sep);
    match Find(t, sep)
    case None =>
      SplitNone(pre + t, sep);
      SplitNone(t, sep);
    case Some(j) =>
      SplitAtShifted(pre, t, sep, j);
      SplitAt(t, sep, j);
  }

  /** `(pre + sep + t).split(sep)` starts with `pre` when `pre` holds no separator. */
  lemma SplitAfterSeparator(pre: string, t: string, sep: string)
    requires |sep| == 1 && forall k :: 0 <= k < |pre| ==> pre[k] != sep[0]
    ensures Split(pre + sep + t, sep) == [pre] + Split(t, sep)
  {
    var u := sep + t;
    assert u[..|sep|] == sep;
    assert Find(u, sep) == Some(0);
    SplitAt(u, sep, 0);
    assert u[..0] == "" && u[0 + |sep|..] == t;
    assert Split(u, sep) == [""] + Split(t, sep);
    assert pre + sep + t == pre + u;
    SplitShift(pre, u, sep);
    assert pre + "" == pre;
  }

  /** A string without a one-character separator splits into itself. */
  lemma SplitAbsent(s: string, sep: string)
    requires |sep| == 1 && forall k :: 0 <= k < |s| ==> s[k] != sep[0]
    ensures Split(s, sep) == [s]
  {
    FindShift(s, "", sep);
    assert s + "" == s;
  }

  /** Splitting a join of pieces free of a one-character separator gives the pieces back. */
  lemma {:induction false} SplitJoin(parts: seq<string>, sep: string)
    requires |sep| == 1 && |parts| >= 1
    requires forall i :: 0 <= i < |parts| ==> sep[0] !in parts[i]
    ensures Split(Join(parts, sep), sep) == parts
    decreases |parts|
  {
    if |parts| == 1 {
      SplitAbsent(parts[0], sep);
    } else {
      SplitJoin(parts[1..], sep);
      SplitAfterSeparator(parts[0], Join(parts[1..], sep), sep);
    }
  }

  predicate TabFree(s: string) { forall k :: 0 <= k < |s| ==> s[k] != '\t' }

  predicate AllTabFree(fields: seq<string>) { forall i :: 0 <= i < |fields| ==> TabFree(fields[i]) }

  /** Joining one more piece appends the separator and the piece. */
  lemma {:induction false} JoinSnoc(parts: seq<string>, sep: string, x: string)
    requires |parts| >= 1
    ensures Join(parts + [x], sep) == Join(parts, sep) + sep + x
    decreases |parts|
  {
    if |parts| > 1 {
      assert (parts + [x])[1..] == parts[1..] + [x];
      JoinSnoc(parts[1..], sep, x);
    } else {
      assert (parts + [x])[1..] == [x];
    }
  }

  /** `s.replace(target, repl)`: Python defines it as repl.join(s.split(target)). */
  function ReplaceAll(s: string, target: string, repl: string): string
    requires |target| > 0
  {
    Join(Split(s, target), repl)
  }

  // ---------------------------------------------------------------------------
  // `s.strip()` and `s.strip(c)`

  function LeadingCount(s: string, drop: char -> bool): (n: nat)
    ensures n <= |s|
    ensures forall k :: 0 <= k < n ==> drop(s[k])
    ensures n == |s| || !drop(s[n])
    decreases |s|
  {
    if |s| > 0 && drop(s[0]) then
      var m := LeadingCount(s[1..], drop);
      assert forall k :: 1 <= k < m + 1 ==> s[k] == s[1..][k - 1];
      m + 1
    else 0
  }

  function TrailingCount(s: string, drop: char -> bool): (n: nat)
    ensures n <= |s|
    ensures forall k :: |s| - n <= k < |s| ==> drop(s[k])
    ensures n == |s| || !drop(s[|s| - 1 - n])
    decreases |s|
  {
    if |s| > 0 && drop(s[|s| - 1]) then TrailingCount(s[..|s| - 1], drop) + 1 else 0
  }

  /** Removes the longest prefix and suffix made only of characters `drop` accepts. */
  function StripBy(s: string, drop: char -> bool): (r: string)
    ensures |r| == 0 || (!drop(r[0]) && !drop(r[|r| - 1]))
    ensures |r| <= |s|
  {
    var lead := LeadingCount(s, drop);
    if lead == |s| then ""
    else
      var trail := TrailingCount(s, drop);
      assert !drop(s[lead]);
      s[lead..|s| - trail]
  }

  function StripSpace(s: string): string { StripBy(s, IsSpace) }

  function StripNewlines(s: string): string { StripBy(s, c => c == '\n') }

  // ---------------------------------------------------------------------------
  // `s.upper()` on byte strings: only ASCII letters change

  function UpperChar(c: char): char {
    if 'a' <= c <= 'z' then (c as int - 'a' as int + 'A' as int) as char else c
  }

  function Upper(s: string): (r: string)
    ensures |r| == |s|
    ensures forall k :: 0 <= k < |s| ==> r[k] == UpperChar(s[k])
  {
    seq(|s|, k requires 0 <= k < |s| => UpperChar(s[k]))
  }

  // ---------------------------------------------------------------------------
  // `int(s)` and `str(n)`

  function DigitsValue(d: string): nat
    requires AllDigits(d)
    decreases |d|
  {
    if |d| == 0 then 0
    else DigitsValue(d[..|d| - 1]) * 10 + (d[|d| - 1] as int - '0' as int)
  }

  /** Python's `int(s)`: surrounding whitespace, an optional sign, then at
      least one decimal digit. */
  function ParseInt(s: string): (r: Option<int>)
    ensures r.Some? ==> |StripSpace(s)| > 0
  {
    var t := StripSpace(s);
    var signed := |t| > 0 && (t[0] == '-' || t[0] == '+');
    var body := if signed then t[1..] else t;
    if |body| == 0 || !AllDigits(body) then None
    else
      var v: int := DigitsValue(body);
      if signed && t[0] == '-' then Some(-v) else Some(v)
  }

  function DigitChar(d: nat): char
    requires d < 10
  {
    ('0' as int + d) as char
  }

  function NatToString(n: nat): (r: string)
    ensures |r| > 0
    decreases n
  {
    if n < 10 then [DigitChar(n)] else NatToString(n / 10) + [DigitChar(n % 10)]
  }

  lemma {:induction false} NatToStringDigits(n: nat)
    ensures AllDigits(NatToString(n))
    decreases n
  {
    if n >= 10 {
      NatToStringDigits(n / 10);
    }
  }

  /** Python's `str(i)` for an integer. */
  function IntToString(i: int): (r: string)
    ensures |r| > 0
    ensures r[|r| - 1] != '-' && !IsSpace(r[0]) && !IsSpace(r[|r| - 1])
  {
    if i < 0 then
      NatToStringDigits(-i);
      "-" + NatToString(-i)
    else
      NatToStringDigits(i);
      NatToString(i)
  }

  lemma {:induction false} NatToStringValue(n: nat)
    ensures AllDigits(NatToString(n))
    ensures DigitsValue(NatToString(n)) == n
    decreases n
  {
    NatToStringDigits(n);
    if n >= 10 {
      NatToStringValue(n / 10);
      var s := NatToString(n);
      assert s[..|s| - 1] == NatToString(n / 10);
    }
  }

  /** `int(str(i)) == i`. */
  lemma IntToStringRoundTrip(i: int)
    ensures ParseInt(IntToString(i)) == Some(i)
  {
    var s := IntToString(i);
    assert StripBy(s, IsSpace) == s;
    if i < 0 {
      NatToStringValue(-i);
      assert s[1..] == NatToString(-i);
    } else {
      NatToStringValue(i);
    }
  }

  // ---------------------------------------------------------------------------
  // Indexing `s[i]` and slicing `s[lo:hi]` with Python's negative indices

  /** `s[i]`: a negative index counts from the end; None is Python's IndexError. */
  function PyIndex<T>(s: seq<T>, i: int): (r: Option<T>)
    ensures r.Some? <==> -|s| <= i < |s|
    ensures 0 <= i < |s| ==> r == Some(s[i])
    ensures -|s| <= i < 0 ==> r == Some(s[|s| + i])
  {
    if 0 <= i < |s| then Some(s[i])
    else if -|s| <= i < 0 then Some(s[|s| + i])
    else None
  }

  /** How Python normalises one slice bound against a length. */
  function SliceBound(b: int, n: nat): (r: nat)
    ensures r <= n
    ensures 0 <= b <= n ==> r == b
  {
    if b < 0 then (if b + n < 0 then 0 else b + n) else if b > n then n else b
  }

  /** `s[lo:hi]`: never fails; bounds are normalised, an empty range is []. */
  function PySlice<T>(s: seq<T>, lo: int, hi: int): (r: seq<T>)
    ensures |r| <= |s|
    ensures 0 <= lo <= hi <= |s| ==> r == s[lo..hi]
  {
    var a := SliceBound(lo, |s|);
    var b := SliceBound(hi, |s|);
    if a < b then s[a..b] else []
  }

  /** Turning back a slice of the reversed sequence gives a slice of the sequence. */
  lemma ReverseSlice<T>(s: seq<T>, a: int, b: int)
    requires 0 <= a <= b <= |s|
    ensures Reverse(Reverse(s)[a..b]) == s[|s| - b..|s| - a]
  {
    var l, r := Reverse(Reverse(s)[a..b]), s[|s| - b..|s| - a];
    assert |l| == |r|;
    forall k | 0 <= k < |l| ensures l[k] == r[k] {
      assert l[k] == Reverse(s)[a..b][b - a - 1 - k] == Reverse(s)[b - 1 - k];
    }
  }
}
