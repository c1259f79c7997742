/** The repeat-extension normaliser `get_full_mut(var, p, rs)` (find_report.py
    lines 264-298).

    Given an inserted or deleted sequence `var` sitting just after position
    `p` of the reference `rs`, it looks for the smallest repeat unit ending at
    `p` that `var` continues, slides left over whole copies of that unit, and
    then takes one more anchor base. It returns `rs[bef_pos:p]` and `bef_pos`.
    An IndexError of the source (on `rs[p - 1]` or while comparing past the end
    of `rs`) is an `Err`. */
module RepeatExtension {
  import opened Results
  import opened PyText

  // ---------------------------------------------------------------------------
  // Specification

  /** `[i for i, b in enumerate(var) if b == c]`. */
  function MatchingPositions(v: string, c: char): (r: seq<nat>)
    ensures forall k :: 0 <= k < |r| ==> r[k] < |v| && v[r[k]] == c
    decreases |v|
  {
    if |v| == 0 then []
    else
      var prev := MatchingPositions(v[..|v| - 1], c);
      assert forall i :: 0 <= i < |v| - 1 ==> v[..|v| - 1][i] == v[i];
      prev + (if v[|v| - 1] == c then [|v| - 1] else [])
  }

  /** Every position holding `c` is listed. */
  lemma {:induction false} MatchingPositionsComplete(v: string, c: char)
    ensures forall i :: 0 <= i < |v| && v[i] == c ==> i in MatchingPositions(v, c)
    decreases |v|
  {
    if |v| > 0 {
      MatchingPositionsComplete(v[..|v| - 1], c);
      assert forall i :: 0 <= i < |v| - 1 ==> v[..|v| - 1][i] == v[i];
    }
  }

  /** How the comparison loop on lines 276-279 ends. */
  datatype Outcome = Mismatch | Match | OutOfRange

  predicate IsPrefix(a: string, b: string) { |a| <= |b| && a == b[..|a|] }

  /** Comparing `a` against `b` position by position until `a` runs out: all
      equal is a Match; `b` running out first is Python's IndexError. */
  function Compare(a: string, b: string): (o: Outcome)
    ensures o == Match <==> IsPrefix(a, b)
    ensures o == OutOfRange <==> |b| < |a| && IsPrefix(b, a)
  {
    if IsPrefix(a, b) then Match else if |b| < |a| && IsPrefix(b, a) then OutOfRange else Mismatch
  }

  /** At rewind `r` the branch of line 274 runs: `var[r]` is the base before
      `p` and the base `r` further back is `var[0]`. */
  predicate Candidate(v: string, p: int, rs: string, r: nat)
    requires 0 <= p - 1 < |rs| && r < p
  {
    r < |v| && v[r] == rs[p - 1] && rs[p - 1 - r] == v[0]
  }

  /** At rewind `r` the pattern is found: `var[r:]` continues the reference from `p - 1`. */
  predicate Found(v: string, p: int, rs: string, r: nat)
    requires 0 <= p - 1 < |rs| && r < p
  {
    Candidate(v, p, rs, r) && Compare(v[r..], rs[p - 1..]) == Match
  }

  predicate Fails(v: string, p: int, rs: string, r: nat)
    requires 0 <= p - 1 < |rs| && r < p
  {
    Candidate(v, p, rs, r) && Compare(v[r..], rs[p - 1..]) == OutOfRange
  }

  /** The search loop from rewind `r` on: the first rewind where the pattern
      is found, None when the rewinds run out at `p`, or the IndexError of
      the comparison. */
  function Search(v: string, p: int, rs: string, r: nat): (res: Result<Option<nat>>)
    requires 0 <= p - 1 < |rs|
    ensures res.Ok? && res.value.Some? ==> r <= res.value.value < p
    decreases p - r
  {
    if r >= p then Ok(None)
    else if Fails(v, p, rs, r) then Err(IndexOutOfRange)
    else if Found(v, p, rs, r) then Ok(Some(r))
    else Search(v, p, rs, r + 1)
  }

  /** The search finds the smallest rewind with a pattern, fails only at a
      rewind that fails before any success, and finds nothing only when
      no rewind up to `p` succeeds. */
  lemma {:induction false} SearchFirst(v: string, p: int, rs: string, r: nat)
    requires 0 <= p - 1 < |rs|
    ensures var res := Search(v, p, rs, r);
            && (res.Ok? && res.value.Some? ==> Found(v, p, rs, res.value.value))
            && (res.Ok? && res.value.Some? ==> forall q: nat :: r <= q < res.value.value ==> !Found(v, p, rs, q))
            && (res.Ok? && res.value.None? ==> forall q: nat :: r <= q < p ==> !Found(v, p, rs, q))
            && (res.Err? ==> exists q: nat :: r <= q < p && Fails(v, p, rs, q))
    decreases p - r
  {
    if r < p && !Fails(v, p, rs, r) && !Found(v, p, rs, r) {
      SearchFirst(v, p, rs, r + 1);
    }
  }

  /** Lines 287-292: step left over whole copies of `pattern` ending at `b`. */
  function Extend(rs: string, pattern: string, b: int): (e: int)
    requires |pattern| > 0 && 0 <= b <= |rs|
    ensures 0 <= e <= b
    decreases b
  {
    var l := |pattern|;
    if b - l >= 0 && rs[b - l..b] == pattern then Extend(rs, pattern, b - l) else b
  }

  /** The extension stops where the period before it is not a copy of
      `pattern`, or does not fit. */
  lemma {:induction false} ExtendStops(rs: string, pattern: string, b: int)
    requires |pattern| > 0 && 0 <= b <= |rs|
    ensures var e := Extend(rs, pattern, b);
            e - |pattern| < 0 || rs[e - |pattern|..e] != pattern
    decreases b
  {
    var l := |pattern|;
    if b - l >= 0 && rs[b - l..b] == pattern {
      ExtendStops(rs, pattern, b - l);
    }
  }

  /** How many copies `Extend` steps over. */
  function Copies(rs: string, pattern: string, b: int): nat
    requires |pattern| > 0 && 0 <= b <= |rs|
    decreases b
  {
    var l := |pattern|;
    if b - l >= 0 && rs[b - l..b] == pattern then Copies(rs, pattern, b - l) + 1 else 0
  }

  /** The repeat unit found, if any: None when `var` is empty, when the loop
      never runs, or when no rewind succeeds. */
  function Pattern(v: string, p: int, rs: string): (res: Result<Option<string>>)
    ensures res.Ok? && res.value.Some? ==> 0 < |res.value.value| <= p <= |rs|
  {
    if |v| == 0 then Ok(None)
    else if PyIndex(rs, p - 1).None? then Err(IndexOutOfRange)
    else if |MatchingPositions(v, PyIndex(rs, p - 1).value)| == 0 || p - 1 < 0 then Ok(None)
    else
      match Search(v, p, rs, 0)
      case Err(e) => Err(e)
      case Ok(None) => Ok(None)
      case Ok(Some(r)) => Ok(Some(rs[p - (r + 1)..p]))
  }

  /** The pattern found is the stretch of `rs` ending at `p`. */
  lemma PatternIsSuffix(v: string, p: int, rs: string)
    requires Pattern(v, p, rs).Ok? && Pattern(v, p, rs).value.Some?
    ensures var pattern := Pattern(v, p, rs).value.value;
            pattern == rs[p - |pattern|..p]
  {
  }

  /** `get_full_mut`: `(rs[bef_pos:p], bef_pos)`. */
  function FullMut(v: string, p: int, rs: string): Result<(string, int)> {
    match Pattern(v, p, rs)
    case Err(e) => Err(e)
    case Ok(None) => Ok((PySlice(rs, p - 1, p), p - 1))
    case Ok(Some(pattern)) =>
      var e := Extend(rs, pattern, p - |pattern|);
      var b := if e - 1 >= 0 then e - 1 else e;
      Ok((rs[b..p], b))
  }

  /** `pattern` written `k` times. */
  function Repeat(pattern: string, k: nat): (r: string)
    ensures |r| == k * |pattern|
  {
    if k == 0 then "" else Repeat(pattern, k - 1) + pattern
  }

  // ---------------------------------------------------------------------------
  // Properties

  /** The result is always `rs[bef_pos:p]`, with `bef_pos <= p - 1`. */
  lemma FullMutIsSlice(v: string, p: int, rs: string)
    requires FullMut(v, p, rs).Ok?
    ensures var (s, b) := FullMut(v, p, rs).value;
            s == PySlice(rs, b, p) && b <= p - 1
  {
  }

  /** Without a pattern the result is the single base before `p`. */
  lemma FullMutWithoutPattern(v: string, p: int, rs: string)
    requires Pattern(v, p, rs) == Ok(None) && 0 < p <= |rs|
    ensures FullMut(v, p, rs) == Ok(([rs[p - 1]], p - 1))
  {
    assert rs[p - 1..p] == [rs[p - 1]];
  }

  /** Inside the reference the result is a true slice `rs[bef_pos..p]`. */
  lemma FullMutInRange(v: string, p: int, rs: string)
    requires FullMut(v, p, rs).Ok? && 1 <= p <= |rs|
    ensures var (s, b) := FullMut(v, p, rs).value;
            0 <= b <= p - 1 && s == rs[b..p]
  {
    match Pattern(v, p, rs)
    case Ok(None) =>
    case Ok(Some(pattern)) =>
      FullMutWithPattern(v, p, rs, pattern);
  }

  /** The extension covers exactly the copies it counted. */
  lemma {:induction false} ExtendCopies(rs: string, pattern: string, b: int)
    requires |pattern| > 0 && 0 <= b <= |rs|
    ensures rs[Extend(rs, pattern, b)..b] == Repeat(pattern, Copies(rs, pattern, b))
    decreases b
  {
    var l := |pattern|;
    if b - l >= 0 && rs[b - l..b] == pattern {
      ExtendCopies(rs, pattern, b - l);
      var e, c := Extend(rs, pattern, b - l), Copies(rs, pattern, b - l);
      SliceSplit(rs, e, b - l, b);
      assert Repeat(pattern, c + 1) == Repeat(pattern, c) + pattern;
    } else {
      assert rs[b..b] == "";
    }
  }

  /** A pattern ending at `p` plus the copies before it. */
  lemma ExtendFrom(rs: string, pattern: string, p: int)
    requires 0 < |pattern| <= p <= |rs| && rs[p - |pattern|..p] == pattern
    ensures rs[Extend(rs, pattern, p - |pattern|)..p] == Repeat(pattern, Copies(rs, pattern, p - |pattern|) + 1)
    ensures var e := Extend(rs, pattern, p - |pattern|);
            e - |pattern| < 0 || rs[e - |pattern|..e] != pattern
  {
    ExtendStops(rs, pattern, p - |pattern|);
    var l := |pattern|;
    ExtendCopies(rs, pattern, p - l);
    var e, c := Extend(rs, pattern, p - l), Copies(rs, pattern, p - l);
    SliceSplit(rs, e, p - l, p);
    assert Repeat(pattern, c + 1) == Repeat(pattern, c) + pattern;
  }

  lemma SliceSplit(s: string, a: int, b: int, c: int)
    requires 0 <= a <= b <= c <= |s|
    ensures s[a..c] == s[a..b] + s[b..c]
  {
  }

  /** With a pattern, the bases from the extension point to `p` are one or
      more whole copies of it, the period before them is not a copy (or does
      not fit), and the result adds one anchor base when there is one. */
  lemma FullMutWithPattern(v: string, p: int, rs: string, pattern: string)
    requires Pattern(v, p, rs) == Ok(Some(pattern))
    ensures var e := Extend(rs, pattern, p - |pattern|);
            var b := if e > 0 then e - 1 else e;
            && rs[e..p] == Repeat(pattern, Copies(rs, pattern, p - |pattern|) + 1)
            && (e - |pattern| < 0 || rs[e - |pattern|..e] != pattern)
            && 0 <= b < p
            && FullMut(v, p, rs) == Ok((rs[b..p], b))
  {
    FullMutAt(v, p, rs, pattern);
    ExtendFrom(rs, pattern, p);
  }

  lemma FullMutAt(v: string, p: int, rs: string, pattern: string)
    requires Pattern(v, p, rs) == Ok(Some(pattern))
    ensures 0 < |pattern| <= p <= |rs| && rs[p - |pattern|..p] == pattern
    ensures var e := Extend(rs, pattern, p - |pattern|);
            var b := if e > 0 then e - 1 else e;
            FullMut(v, p, rs) == Ok((rs[b..p], b))
  {
    PatternIsSuffix(v, p, rs);
  }

  // ---------------------------------------------------------------------------
  // The loops of the source

  /** Lines 276-279: compare `var[i + j]` with `rs[p - 1 + j]` for every `j`
      until `var` runs out, stopping at the first difference. */
  method CompareSuffix(v: string, i: nat, rs: string, p: int) returns (o: Outcome)
    requires i <= |v| && 0 <= p - 1 <= |rs|
    ensures o == Compare(v[i..], rs[p - 1..])
  {
    ghost var a, b := v[i..], rs[p - 1..];
    var j := 0;
    while j < |v| - i
      invariant 0 <= j <= |v| - i
      invariant j <= |rs| - (p - 1)
      invariant a[..j] == b[..j]
    {
      if p - 1 + j >= |rs| {
        assert IsPrefix(b, a) by { assert b == b[..j]; }
        return OutOfRange;
      }
      if v[i + j] != rs[p - 1 + j] {
        assert |a| > |b| || b[..|a|][j] != a[j];
        assert |b| > |a| || a[..|b|][j] != b[j];
        return Mismatch;
      }
      assert a[..j + 1] == a[..j] + [a[j]] && b[..j + 1] == b[..j] + [b[j]];
      j := j + 1;
    }
    assert a == a[..j];
    o := Match;
  }

  /** One pass of the `for` loop of lines 272-282 at a given rewind: only the
      position equal to the rewind can set the pattern or fail. The list
      `new_befpos` is built as in the source and then dropped. */
  method ScanRewind(v: string, p: int, rs: string, befPositions: seq<nat>, rewind: nat)
    returns (r: Result<string>)
    requires 0 <= p - 1 < |rs| && rewind < p
    requires forall k :: 0 <= k < |befPositions| ==> befPositions[k] < |v| && v[befPositions[k]] == rs[p - 1]
    requires rewind < |v| && v[rewind] == rs[p - 1] ==> rewind in befPositions
    ensures r.Err? <==> Fails(v, p, rs, rewind)
    ensures r.Err? ==> r.error == IndexOutOfRange
    ensures r.Ok? && Found(v, p, rs, rewind) ==> r.value == rs[p - rewind - 1..p]
    ensures r.Ok? && !Found(v, p, rs, rewind) ==> r.value == ""
  {
    var pattern := "";
    var newBefPos: seq<nat> := [];
    var k := 0;
    while k < |befPositions|
      invariant 0 <= k <= |befPositions|
      invariant Fails(v, p, rs, rewind) ==> rewind !in befPositions[..k]
      invariant pattern == (if rewind in befPositions[..k] && Found(v, p, rs, rewind) then rs[p - rewind - 1..p] else "")
    {
      var i := befPositions[k];
      if i - rewind > 0 && rs[p - rewind - 1] == v[i - rewind] {
        newBefPos := newBefPos + [i];
      } else if i - rewind == 0 && rs[p - rewind - 1] == v[i - rewind] {
        var o := CompareSuffix(v, i, rs, p);
        if o == OutOfRange {
          return Err(IndexOutOfRange);
        }
        if o == Match {
          pattern := rs[p - rewind - 1..p];
        }
      }
      assert befPositions[..k + 1] == befPositions[..k] + [i];
      k := k + 1;
    }
    assert befPositions[..k] == befPositions;
    r := Ok(pattern);
  }

  /** Lines 266-285: the rewind loop, which stops at the first rewind that
      sets a pattern or when `p - rewind - 1` goes negative. */
  method FindPattern(v: string, p: int, rs: string) returns (r: Result<Option<string>>)
    ensures r == Pattern(v, p, rs)
  {
    var rewind: nat := 0;
    var pattern := "";
    var befPositions: seq<nat> := [];
    if |v| > 0 {
      var x := PyIndex(rs, p - 1);
      if x.None? {
        return Err(IndexOutOfRange);
      }
      befPositions := MatchingPositions(v, x.value);
      MatchingPositionsComplete(v, x.value);
    }
    while |befPositions| > 0 && p - rewind - 1 >= 0
      invariant |befPositions| > 0 ==> |v| > 0 && PyIndex(rs, p - 1).Some? &&
                                       befPositions == MatchingPositions(v, PyIndex(rs, p - 1).value)
      invariant |befPositions| > 0 && p - rewind - 1 >= 0 ==> pattern == "" && Search(v, p, rs, 0) == Search(v, p, rs, rewind)
      invariant |befPositions| > 0 && p - 1 >= 0 ==> rewind <= p
      invariant pattern != "" ==> |befPositions| > 0 && 0 < rewind <= p && 0 <= p - 1 < |rs| &&
                                  Search(v, p, rs, 0) == Ok(Some(rewind - 1)) &&
                                  pattern == rs[p - rewind..p]
      invariant pattern == "" && |befPositions| > 0 && p - 1 >= 0 && p - rewind - 1 < 0 ==>
                  Search(v, p, rs, 0) == Ok(None)
      decreases p - rewind, if pattern == "" then 1 else 0
    {
      var step := ScanRewind(v, p, rs, befPositions, rewind);
      if step.Err? {
        return Err(step.error);
      }
      pattern := step.value;
      rewind := rewind + 1;
      if pattern != "" {
        break;
      }
    }
    r := if pattern != "" then Ok(Some(pattern)) else Ok(None);
  }

  /** Lines 287-292: the `while` loop stepping left over copies of `pattern`. */
  method StepOverCopies(rs: string, pattern: string, b: int) returns (e: int)
    requires |pattern| > 0 && 0 <= b <= |rs|
    ensures e == Extend(rs, pattern, b)
  {
    var l := |pattern|;
    e := b;
    while e - l >= 0
      invariant 0 <= e <= |rs|
      invariant Extend(rs, pattern, e) == Extend(rs, pattern, b)
    {
      if rs[e - l..e] == pattern {
        e := e - l;
      } else {
        break;
      }
    }
  }

  /** `get_full_mut` with the loops of the source. */
  method GetFullMut(v: string, p: int, rs: string) returns (r: Result<(string, int)>)
    ensures r == FullMut(v, p, rs)
  {
    var befPos := p - 1;
    var fullMutated := PySlice(rs, befPos, p);
    var found := FindPattern(v, p, rs);
    if found.Err? {
      return Err(found.error);
    }
    if found.value.Some? {
      var pattern := found.value.value;
      FullMutAt(v, p, rs, pattern);
      befPos := StepOverCopies(rs, pattern, p - |pattern|);
      if befPos - 1 >= 0 {
        befPos := befPos - 1;
      }
      fullMutated := rs[befPos..p];
    }
    r := Ok((fullMutated, befPos));
  }
}
