/** CIGAR decoding for the reference indexer (`init_ref_seq`, find_report.py
    lines 80-101): the minus-strand rewrite of the CIGAR text, its split into
    run lengths, the expansion into a match mask, and the genomic positions the
    mask keeps. */
module Cigar {
  import opened Results
  import opened PyText

  /** One group of a CIGAR string as `re.split("([^\d])", cigar)` cuts it: the
      (possibly empty) run of digits in front of one non-digit operator. */
  datatype Group = Group(digits: string, op: char)

  predicate WellFormed(g: Group) { AllDigits(g.digits) && !IsDigit(g.op) }

  predicate AllWellFormed(gs: seq<Group>) { forall k :: 0 <= k < |gs| ==> WellFormed(gs[k]) }

  /** The groups of `s` in order. Digits after the last operator form no group:
      the source drops that final piece with `[:-1]`. */
  function Groups(s: string): (r: seq<Group>)
    ensures AllWellFormed(r)
    decreases |s|
  {
    var n := LeadingCount(s, IsDigit);
    if n == |s| then [] else [Group(s[..n], s[n])] + Groups(s[n + 1..])
  }

  function Render(gs: seq<Group>): string
    decreases |gs|
  {
    if |gs| == 0 then "" else gs[0].digits + [gs[0].op] + Render(gs[1..])
  }

  lemma {:induction false} GroupsOfRender(gs: seq<Group>)
    requires AllWellFormed(gs)
    ensures Groups(Render(gs)) == gs
    decreases |gs|
  {
    if |gs| > 0 {
      GroupsOfRender(gs[1..]);
      GroupsAfterFirst(gs[0], Render(gs[1..]));
      assert gs == [gs[0]] + gs[1..];
    }
  }

  /** A well-formed group written in front of `t` is the first group, and
      the groups of `t` follow it. */
  lemma GroupsAfterFirst(g: Group, t: string)
    requires WellFormed(g)
    ensures Groups(g.digits + [g.op] + t) == [g] + Groups(t)
  {
    var s := g.digits + [g.op] + t;
    var d := g.digits;
    assert LeadingCount(s, IsDigit) == |d| by {
      assert forall k :: 0 <= k < |d| ==> s[k] == d[k];
      LeadingCountIs(s, IsDigit, |d|);
    }
    assert s[..|d|] == d && s[|d|] == g.op;
    assert s[|d| + 1..] == t;
  }

  lemma LeadingCountIs(s: string, drop: char -> bool, n: nat)
    requires n <= |s|
    requires forall k :: 0 <= k < n ==> drop(s[k])
    requires n == |s| || !drop(s[n])
    ensures LeadingCount(s, drop) == n
  {
  }

  /** A CIGAR that ends in an operator is exactly the rendering of its groups. */
  lemma {:induction false} RenderOfGroups(s: string)
    requires |s| == 0 || !IsDigit(s[|s| - 1])
    ensures Render(Groups(s)) == s
    decreases |s|
  {
    var n := LeadingCount(s, IsDigit);
    if n < |s| {
      CutAt(s, n);
      RenderOfGroups(s[n + 1..]);
      RenderFirstGroup(s);
    } else {
      assert |s| == 0;
    }
  }

  /** `s` is what comes before index `n`, the character there and the rest,
      and the rest ends as `s` does. */
  lemma CutAt(s: string, n: nat)
    requires n < |s|
    ensures s == s[..n] + [s[n]] + s[n + 1..]
    ensures |s[n + 1..]| == 0 || s[n + 1..][|s[n + 1..]| - 1] == s[|s| - 1]
  {
    assert s == s[..n] + [s[n]] + s[n + 1..];
  }

  /** The rendering of the groups of `s` starts with its first group. */
  lemma RenderFirstGroup(s: string)
    requires LeadingCount(s, IsDigit) < |s|
    ensures var n := LeadingCount(s, IsDigit);
            Render(Groups(s)) == s[..n] + [s[n]] + Render(Groups(s[n + 1..]))
  {
    var n := LeadingCount(s, IsDigit);
    RenderCons(Group(s[..n], s[n]), Groups(s[n + 1..]));
  }

  lemma RenderCons(g: Group, gs: seq<Group>)
    ensures Render([g] + gs) == g.digits + [g.op] + Render(gs)
  {
    assert ([g] + gs)[1..] == gs;
  }

  /** The minus-strand rewrite (lines 83-86): cut into groups, reverse their
      order, and write each group back with its digits in front of its operator. */
  function MinusRewrite(cigar: string): string {
    Render(Reverse(Groups(cigar)))
  }

  lemma ReverseWellFormed(gs: seq<Group>)
    requires AllWellFormed(gs)
    ensures AllWellFormed(Reverse(gs))
  {
  }

  /** The rewrite keeps each length with its operator and reverses their order. */
  lemma MinusRewriteGroups(cigar: string)
    ensures Groups(MinusRewrite(cigar)) == Reverse(Groups(cigar))
  {
    ReverseWellFormed(Groups(cigar));
    GroupsOfRender(Reverse(Groups(cigar)));
  }

  /** Rewriting twice gives back the CIGAR without any trailing digits. */
  lemma MinusRewriteTwice(cigar: string)
    ensures MinusRewrite(MinusRewrite(cigar)) == Render(Groups(cigar))
  {
    MinusRewriteGroups(cigar);
    ReverseReverse(Groups(cigar));
  }

  /** On a CIGAR that ends in an operator the rewrite is an involution. */
  lemma MinusRewriteInvolution(cigar: string)
    requires |cigar| == 0 || !IsDigit(cigar[|cigar| - 1])
    ensures MinusRewrite(MinusRewrite(cigar)) == cigar
  {
    MinusRewriteTwice(cigar);
    RenderOfGroups(cigar);
  }

  // ---------------------------------------------------------------------------
  // Run lengths: `[int(mm) for mm in re.split("[^\d]", cigar)[:-1]]`

  predicate HasEmptyLength(gs: seq<Group>) {
    exists k :: 0 <= k < |gs| && |gs[k].digits| == 0
  }

  function LengthsOf(gs: seq<Group>): seq<nat>
    requires AllWellFormed(gs)
  {
    seq(|gs|, k requires 0 <= k < |gs| => DigitsValue(gs[k].digits))
  }

  /** The run lengths of a CIGAR; `int("")` on an empty length is an error. */
  function RunLengths(cigar: string): Result<seq<nat>> {
    var gs := Groups(cigar);
    if HasEmptyLength(gs) then Err(MalformedCigar) else Ok(LengthsOf(gs))
  }

  /** Decoding the rewritten CIGAR gives the same runs in reverse order, and
      fails exactly when decoding the original fails. */
  lemma RunLengthsMinus(cigar: string)
    ensures RunLengths(MinusRewrite(cigar)).Ok? <==> RunLengths(cigar).Ok?
    ensures RunLengths(cigar).Ok? ==>
              RunLengths(MinusRewrite(cigar)).value == Reverse(RunLengths(cigar).value)
  {
    var gs := Groups(cigar);
    MinusRewriteGroups(cigar);
    EmptyLengthReverse(gs);
    if !HasEmptyLength(gs) {
      ReverseWellFormed(gs);
      LengthsOfReverse(gs);
    }
  }

  lemma EmptyLengthReverse(gs: seq<Group>)
    ensures HasEmptyLength(Reverse(gs)) <==> HasEmptyLength(gs)
  {
    var rs := Reverse(gs);
    if HasEmptyLength(gs) {
      var k :| 0 <= k < |gs| && |gs[k].digits| == 0;
      assert |rs[|gs| - 1 - k].digits| == 0;
    }
    if HasEmptyLength(rs) {
      var k :| 0 <= k < |rs| && |rs[k].digits| == 0;
      assert |gs[|gs| - 1 - k].digits| == 0;
    }
  }

  lemma LengthsOfReverse(gs: seq<Group>)
    requires AllWellFormed(gs)
    ensures AllWellFormed(Reverse(gs)) && LengthsOf(Reverse(gs)) == Reverse(LengthsOf(gs))
  {
    ReverseWellFormed(gs);
    var a := LengthsOf(Reverse(gs));
    var b := Reverse(LengthsOf(gs));
    assert |a| == |b|;
    forall k | 0 <= k < |a| ensures a[k] == b[k] {
      assert Reverse(gs)[k] == gs[|gs| - 1 - k];
    }
  }

  // ---------------------------------------------------------------------------
  // The match mask (lines 87-93)

  function Sum(runs: seq<nat>): nat
    decreases |runs|
  {
    if |runs| == 0 then 0 else Sum(runs[..|runs| - 1]) + runs[|runs| - 1]
  }

  /** `n` copies of `b`. */
  function Fill(n: nat, b: bool): (r: seq<bool>)
    ensures |r| == n && forall k :: 0 <= k < n ==> r[k] == b
  {
    seq(n, _ => b)
  }

  /** One entry per base of each run: true in even-indexed runs (matches),
      false in odd-indexed ones (gaps). */
  function RunMask(runs: seq<nat>): (mask: seq<bool>)
    ensures |mask| == Sum(runs)
    decreases |runs|
  {
    if |runs| == 0 then []
    else RunMask(runs[..|runs| - 1]) + Fill(runs[|runs| - 1], (|runs| - 1) % 2 == 0)
  }

  lemma {:induction false} SumPrefix(runs: seq<nat>, i: nat)
    requires i < |runs|
    ensures Sum(runs[..i]) + runs[i] <= Sum(runs)
    decreases |runs|
  {
    var m := |runs| - 1;
    if i < m {
      assert runs[..m][..i] == runs[..i];
      SumPrefix(runs[..m], i);
    } else {
      assert runs[..i] == runs[..m];
    }
  }

  /** Offset `x` of the mask is base `j` of run `i`. */
  predicate InRun(runs: seq<nat>, i: nat, j: nat, x: int) {
    i < |runs| && j < runs[i] && x == Sum(runs[..i]) + j
  }

  /** Base `j` of run `i` sits at offset `x` = Sum(runs[..i]) + j of the
      mask, and the mask keeps it exactly when the run index is even. */
  lemma {:induction false} RunMaskAt(runs: seq<nat>, i: nat, j: nat, x: int)
    requires InRun(runs, i, j, x)
    ensures 0 <= x < |RunMask(runs)|
    ensures RunMask(runs)[x] == (i % 2 == 0)
    decreases |runs|
  {
    SumPrefix(runs, i);
    var m := |runs| - 1;
    var front, tail := RunMask(runs[..m]), Fill(runs[m], m % 2 == 0);
    assert RunMask(runs) == front + tail;
    if i < m {
      assert runs[..m][..i] == runs[..i];
      assert runs[..m][i] == runs[i];
      RunMaskAt(runs[..m], i, j, x);
      assert RunMask(runs)[x] == front[x];
    } else {
      assert runs[..i] == runs[..m];
      assert x - |front| == j;
      assert RunMask(runs)[x] == tail[j];
    }
  }

  /** Every mask offset lies in some run. */
  lemma {:induction false} RunMaskCovers(runs: seq<nat>, x: nat)
    requires x < Sum(runs)
    ensures exists i: nat, j: nat :: InRun(runs, i, j, x)
    decreases |runs|
  {
    var m := |runs| - 1;
    if x < Sum(runs[..m]) {
      RunMaskCovers(runs[..m], x);
      var i: nat, j: nat :| InRun(runs[..m], i, j, x);
      assert runs[..m][..i] == runs[..i];
      assert runs[..m][i] == runs[i];
      assert InRun(runs, i, j, x);
    } else {
      var j: nat := x - Sum(runs[..m]);
      assert InRun(runs, m, j, x);
    }
  }

  /** The nested loop of lines 88-93. */
  method ExpandRuns(runs: seq<nat>) returns (mask: seq<bool>)
    ensures mask == RunMask(runs)
  {
    mask := [];
    var i := 0;
    while i < |runs|
      invariant 0 <= i <= |runs|
      invariant mask == RunMask(runs[..i])
    {
      var j := 0;
      while j < runs[i]
        invariant 0 <= j <= runs[i]
        invariant mask == RunMask(runs[..i]) + Fill(j, i % 2 == 0)
      {
        mask := mask + [i % 2 == 0];
        j := j + 1;
      }
      assert runs[..i + 1][..i] == runs[..i];
      i := i + 1;
    }
    assert runs[..|runs|] == runs;
  }

  // ---------------------------------------------------------------------------
  // Genomic positions kept by the mask (lines 94-101)

  /** The number of positions in the inclusive interval [start, stop]. */
  function Span(start: int, stop: int): nat {
    if stop < start then 0 else stop - start + 1
  }

  /** The positions start + k, k < n, whose mask entry is true, in order. */
  function Kept(start: int, mask: seq<bool>, n: nat): seq<int>
    requires n <= |mask|
    decreases n
  {
    if n == 0 then [] else Kept(start, mask, n - 1) + (if mask[n - 1] then [start + n - 1] else [])
  }

  lemma {:induction false} KeptMembers(start: int, mask: seq<bool>, n: nat, x: int)
    requires n <= |mask|
    ensures x in Kept(start, mask, n) <==> start <= x < start + n && mask[x - start]
    decreases n
  {
    if n > 0 { KeptMembers(start, mask, n - 1, x); }
  }

  lemma {:induction false} KeptIncreasing(start: int, mask: seq<bool>, n: nat)
    requires n <= |mask|
    ensures forall a, b :: 0 <= a < b < |Kept(start, mask, n)| ==>
              Kept(start, mask, n)[a] < Kept(start, mask, n)[b]
    decreases n
  {
    if n > 0 {
      KeptIncreasing(start, mask, n - 1);
      var prev := Kept(start, mask, n - 1);
      forall a | 0 <= a < |prev| ensures prev[a] < start + n - 1 {
        KeptMembers(start, mask, n - 1, prev[a]);
      }
    }
  }

  /** With no mask entry false, the kept positions are the whole interval. */
  lemma {:induction false} KeptAll(start: int, mask: seq<bool>, n: nat)
    requires n <= |mask| && forall k :: 0 <= k < n ==> mask[k]
    ensures |Kept(start, mask, n)| == n
    ensures forall k :: 0 <= k < n ==> Kept(start, mask, n)[k] == start + k
    decreases n
  {
    if n > 0 { KeptAll(start, mask, n - 1); }
  }

  /** Mask offset `o` is a base of a match (even-indexed) run. */
  ghost predicate InMatchRun(runs: seq<nat>, o: int) {
    exists i: nat, j: nat :: InRun(runs, i, j, o) && i % 2 == 0
  }

  /** With a CIGAR, a genomic position is kept exactly when it lies in the
      interval and its offset falls in an even-indexed (match) run. */
  lemma MaskedPositions(start: int, stop: int, runs: seq<nat>, x: int)
    requires Span(start, stop) <= Sum(runs)
    ensures x in Kept(start, RunMask(runs), Span(start, stop)) <==>
              start <= x <= stop && InMatchRun(runs, x - start)
  {
    KeptMembers(start, RunMask(runs), Span(start, stop), x);
    if start <= x <= stop {
      MaskAtOffset(runs, x - start);
    }
  }

  /** The mask keeps offset `o` exactly when `o` falls in a match run. */
  lemma MaskAtOffset(runs: seq<nat>, o: nat)
    requires o < Sum(runs)
    ensures o < |RunMask(runs)| && (RunMask(runs)[o] <==> InMatchRun(runs, o))
  {
    RunMaskCovers(runs, o);
    var i: nat, j: nat :| InRun(runs, i, j, o);
    RunMaskAt(runs, i, j, o);
    forall i': nat, j': nat | InRun(runs, i', j', o)
      ensures i' % 2 == i % 2
    {
      RunMaskAt(runs, i', j', o);
    }
  }

  /** Lines 94-96: walk the interval, keep the masked positions; indexing the
      mask past its end is Python's IndexError. */
  method SelectPositions(start: int, stop: int, mask: seq<bool>) returns (r: Result<seq<int>>)
    ensures r.Ok? <==> Span(start, stop) <= |mask|
    ensures r.Ok? ==> r.value == Kept(start, mask, Span(start, stop))
    ensures r.Err? ==> r.error == CigarTooShort
  {
    var n := Span(start, stop);
    var nts: seq<int> := [];
    var ind := 0;
    while ind < n
      invariant 0 <= ind <= n
      invariant ind <= |mask|
      invariant nts == Kept(start, mask, ind)
    {
      if ind >= |mask| {
        return Err(CigarTooShort);
      }
      if mask[ind] {
        nts := nts + [start + ind];
      }
      ind := ind + 1;
    }
    r := Ok(nts);
  }

  /** Lines 99-101: without strand and CIGAR every position of the interval is kept. */
  method IntervalPositions(start: int, stop: int) returns (nts: seq<int>)
    ensures |nts| == Span(start, stop)
    ensures forall k :: 0 <= k < |nts| ==> nts[k] == start + k
  {
    nts := [];
    var i := start;
    while i < stop + 1
      invariant start <= i || stop < start
      invariant |nts| == (if stop < start then 0 else i - start)
      invariant stop < start || i <= stop + 1
      invariant forall k :: 0 <= k < |nts| ==> nts[k] == start + k
    {
      nts := nts + [i];
      i := i + 1;
    }
  }
}
