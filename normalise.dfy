/** Per-record normalisation and classification of a mutation (the body of
    `create_report`, find_report.py lines 299-411): parse the edit, place it
    on the genome, extend insertions and deletions over the repeats around
    them, and recognise internal tandem duplications (ITD) and partial
    duplications (I&I). */
module Normalise {
  import opened Results
  import opened PyText
  import opened RepeatExtension
  import opened Coordinates

  /** `start:delet/insert:stop`, the second field of a record's variant. */
  datatype Edit = Edit(start: string, mod: string, stop: string, delet: string, insert: string)

  /** Lines 299-300: both unpackings need exactly the number of parts they name. */
  function ParseEdit(variant1: string): (r: Result<Edit>)
    ensures r.Err? ==> r == Err(MalformedEdit)
  {
    var parts := Split(variant1, ":");
    if |parts| != 3 then Err(MalformedEdit)
    else
      var alleles := Split(parts[1], "/");
      if |alleles| != 2 then Err(MalformedEdit)
      else Ok(Edit(parts[0], parts[1], parts[2], alleles[0], alleles[1]))
  }

  /** A parsed edit gives back the text it came from, and none of its
      parts holds the separator it was split on. */
  lemma ParseEditRoundTrip(variant1: string)
    requires ParseEdit(variant1).Ok?
    ensures var e := ParseEdit(variant1).value;
            && variant1 == e.start + ":" + e.mod + ":" + e.stop
            && e.mod == e.delet + "/" + e.insert
            && !Contains(e.start, ":") && !Contains(e.mod, ":") && !Contains(e.stop, ":")
            && !Contains(e.delet, "/") && !Contains(e.insert, "/")
  {
    var parts := Split(variant1, ":");
    var alleles := Split(parts[1], "/");
    assert parts == [parts[0], parts[1], parts[2]];
    JoinTriple(parts[0], parts[1], parts[2], ":");
    assert alleles == [alleles[0], alleles[1]];
    JoinPair(alleles[0], alleles[1], "/");
    assert !Contains(parts[0], ":") && !Contains(parts[1], ":") && !Contains(parts[2], ":");
    assert !Contains(alleles[0], "/") && !Contains(alleles[1], "/");
  }

  /** What the normalisation reads besides the edit: the chromosome, the
      strand, the window, the upper-cased reference sequence, the variant
      sequence, the exon label and the "Fusion-" marker. */
  datatype Context = Context(chro: string, minus: bool, nts: seq<int>, refSeq: string,
                             altSeq: string, exon: string, fusion: string)

  /** The fields of an output line the normalisation decides. The texts of
      `removed`, `added`, `region` and `location` are built from the numbers
      kept here by `RemovedText`, `AddedText`, `RegionOf` and `LocationOf`. */
  datatype Call = Call(insertType: string, removed: nat, added: nat, span: Option<int>,
                       refVar: string, altVar: string, locVar: int,
                       chro: string, startPos: int, endPos: int, locationPos: int, mod: string)

  /** Line 304: `str(len(delet))`. */
  function RemovedText(call: Call): string {
    IntToString(call.removed)
  }

  /** Lines 303 and 366-371: `str(len(insert))`, followed for an ITD or an
      I&I by `" | "` and the length of the re-placed span. */
  function AddedText(call: Call): string {
    IntToString(call.added) + (if call.span.Some? then " | " + IntToString(call.span.value) else "")
  }

  /** The suffix is there exactly when a span is kept. */
  lemma AddedTextSuffix(call: Call)
    ensures AddedText(call) == IntToString(call.added) <==> call.span.None?
  {
    if call.span.Some? {
      assert |AddedText(call)| > |IntToString(call.added)|;
    }
  }

  /** `"{}:{}-{}".format(chro, start_pos, end_pos + 1)`. */
  function RegionOf(call: Call): string {
    RegionText(call.chro, call.startPos, call.endPos + 1)
  }

  /** `chro + ":" + str(...)` of the position the type names. */
  function LocationOf(call: Call): string {
    call.chro + ":" + IntToString(call.locationPos)
  }

  // ---------------------------------------------------------------------------
  // ITD and I&I (lines 352-372)

  datatype InsertionKind = PlainInsertion | Itd | PartialItd

  function KindName(k: InsertionKind): string {
    match k
    case PlainInsertion => "Insertion"
    case Itd => "ITD"
    case PartialItd => "I&I"
  }

  /** Lines 355-358: the first half of an insertion made of two equal
      halves, otherwise the whole insertion. */
  function PossibleItd(insert: string): (r: string)
    ensures |r| <= |insert|
    ensures |insert| > 0 ==> |r| > 0
    ensures |r| < |insert| ==> insert == r + r
  {
    var h := |insert| / 2;
    if insert[..h] == insert[h..] then
      assert insert == insert[..h] + insert[h..];
      insert[..h]
    else insert
  }

  /** Line 359: the variant sequence just before the insertion point. */
  function Upstream(altSeq: string, pos: int, possible: string): string {
    PySlice(altSeq, pos - |possible|, pos)
  }

  /** The positions where `a` and `b` agree, in the first `n`. */
  function Agreements(a: string, b: string, n: nat): nat
    requires n <= |a| && n <= |b|
  {
    if n == 0 then 0 else Agreements(a, b, n - 1) + (if a[n - 1] == b[n - 1] then 1 else 0)
  }

  lemma {:induction false} AgreementsBound(a: string, b: string, n: nat)
    requires n <= |a| && n <= |b|
    ensures Agreements(a, b, n) <= n
    ensures Agreements(a, b, n) == n <==> a[..n] == b[..n]
  {
    if n > 0 {
      AgreementsBound(a, b, n - 1);
      assert a[..n] == a[..n - 1] + [a[n - 1]] && b[..n] == b[..n - 1] + [b[n - 1]];
      if a[..n] == b[..n] {
        assert a[..n - 1] == a[..n][..n - 1] && b[..n - 1] == b[..n][..n - 1];
        assert a[n - 1] == a[..n][n - 1] && b[n - 1] == b[..n][n - 1];
      }
    }
  }

  /** Lines 361-363: the number of positions where `possible` agrees with
      `upstream`; an upstream shorter than `possible` is an IndexError. */
  function MatchCount(possible: string, upstream: string): (r: Result<nat>)
    ensures r.Ok? <==> |possible| <= |upstream|
    ensures r.Ok? ==> r.value <= |possible|
    ensures r.Ok? ==> (r.value == |possible| <==> possible == upstream[..|possible|])
  {
    if |possible| <= |upstream| then
      AgreementsBound(possible, upstream, |possible|);
      assert possible[..|possible|] == possible;
      Ok(Agreements(possible, upstream, |possible|))
    else Err(IndexOutOfRange)
  }

  /** The `for` loop of lines 362-364. */
  method CountMatches(possible: string, upstream: string) returns (r: Result<nat>)
    ensures r == MatchCount(possible, upstream)
  {
    var count := 0;
    var i := 0;
    while i < |possible|
      invariant 0 <= i <= |possible| && i <= |upstream|
      invariant count == Agreements(possible, upstream, i)
    {
      if i >= |upstream| {
        return Err(IndexOutOfRange);
      }
      if possible[i] == upstream[i] {
        count := count + 1;
      }
      i := i + 1;
    }
    AgreementsBound(possible, upstream, |possible|);
    assert possible[..|possible|] == possible;
    r := Ok(count);
  }

  /** Lines 355-371: an insertion of at least three bases with room for it
      before `pos` is an ITD when it repeats the variant sequence just
      before it, and an I&I when more than half of its (possibly halved)
      unit agrees with that sequence; `match > 0.5` is `2 * count > |unit|`. */
  function KindOf(insert: string, altSeq: string, pos: int): (r: Result<InsertionKind>)
    requires |insert| > 0
    ensures r.Ok? <==> pos - |PossibleItd(insert)| < 0 || |PossibleItd(insert)| <= |Upstream(altSeq, pos, PossibleItd(insert))|
    ensures r == Ok(Itd) <==>
              r.Ok? && pos - |insert| >= 0 && |insert| >= 3 && insert == Upstream(altSeq, pos, PossibleItd(insert))
    ensures r == Ok(PartialItd) <==>
              r.Ok? && pos - |insert| >= 0 && |insert| >= 3 && insert != Upstream(altSeq, pos, PossibleItd(insert)) &&
              2 * MatchCount(PossibleItd(insert), Upstream(altSeq, pos, PossibleItd(insert))).value > |PossibleItd(insert)|
  {
    var possible := PossibleItd(insert);
    var upstream := Upstream(altSeq, pos, possible);
    var count := if pos - |possible| >= 0 then MatchCount(possible, upstream) else Ok(0);
    match count
    case Err(e) => Err(e)
    case Ok(m) =>
      if pos - |insert| >= 0 && |insert| >= 3 && insert == upstream then Ok(Itd)
      else if pos - |insert| >= 0 && |insert| >= 3 && 2 * m > |possible| then Ok(PartialItd)
      else Ok(PlainInsertion)
  }

  /** An insertion made of two equal halves is never an ITD: the sequence it
      is compared with is only half as long. */
  lemma EqualHalvesNeverItd(insert: string, altSeq: string, pos: int)
    requires |insert| >= 2 && insert[..|insert| / 2] == insert[|insert| / 2..]
    ensures KindOf(insert, altSeq, pos) != Ok(Itd)
  {
    var h := |insert| / 2;
    assert PossibleItd(insert) == insert[..h];
    assert |PySlice(altSeq, pos - h, pos)| <= h;
  }

  // ---------------------------------------------------------------------------
  // Flanks (lines 333-335 and 387-391)

  /** The left flank ending at the edit and its start, and the right flank
      starting after the edit and its last index. */
  datatype Flanks = Flanks(before: string, befInd: int, after: string, aftInd: int)

  /** The two flanks of the edited bases `v` in `rs`, where the edit takes
      out the `k` bases after `p` (the deleted ones, or none for an
      insertion): extend left from `p`, and extend right by extending the
      reversed sequences left from `len(rs) - p - k` and turning the result
      and its index back. */
  function FlanksOf(v: string, p: int, k: int, rs: string): Result<Flanks> {
    match FullMut(v, p, rs)
    case Err(x) => Err(x)
    case Ok((before, befInd)) =>
      match FullMut(Reverse(v), ReversedEnd(p, k, rs), Reverse(rs))
      case Err(x) => Err(x)
      case Ok((after0, aft0)) => Ok(Flanks(before, befInd, Reverse(after0), |rs| - aft0 - 1))
  }

  /** Where the edited bases after `p` end, counted from the end of `rs`:
      the position in `Reverse(rs)` from which the right flank is extended. */
  function ReversedEnd(p: int, k: int, rs: string): int {
    |rs| - p - k
  }

  /** The flanks of an edit of `rs` at `p` (left) and `q` bases from the
      end (right) lie inside the reference: `before == rs[bef_ind:p]` and
      `after == rs[len(rs) - q:aft_ind + 1]`. */
  predicate FlanksAround(f: Flanks, rs: string, p: int, q: int) {
    && 0 <= f.befInd < p <= |rs| && f.before == rs[f.befInd..p]
    && 0 <= |rs| - q <= f.aftInd < |rs| && f.after == rs[|rs| - q..f.aftInd + 1]
  }

  lemma FlanksAroundOf(v: string, p: int, k: int, rs: string, f: Flanks)
    requires FlanksOf(v, p, k, rs) == Ok(f) && 1 <= p <= |rs| && 1 <= |rs| - p - k <= |rs|
    ensures FlanksAround(f, rs, p, |rs| - p - k)
  {
    FlanksInReference(v, p, k, rs);
  }

  lemma FlanksInReference(v: string, p: int, k: int, rs: string)
    requires FlanksOf(v, p, k, rs).Ok? && 1 <= p <= |rs| && 1 <= |rs| - p - k <= |rs|
    ensures FlanksAround(FlanksOf(v, p, k, rs).value, rs, p, |rs| - p - k)
  {
    var q := ReversedEnd(p, k, rs);
    FullMutInRange(v, p, rs);
    FullMutInRange(Reverse(v), q, Reverse(rs));
    var (after0, aft0) := FullMut(Reverse(v), q, Reverse(rs)).value;
    ReverseSlice(rs, aft0, q);
  }

  method ComputeFlanks(v: string, p: int, k: int, rs: string) returns (r: Result<Flanks>)
    ensures r == FlanksOf(v, p, k, rs)
  {
    var left := GetFullMut(v, p, rs);
    if left.Err? {
      return Err(left.error);
    }
    var right := GetFullMut(Reverse(v), ReversedEnd(p, k, rs), Reverse(rs));
    if right.Err? {
      return Err(right.error);
    }
    r := Ok(Flanks(left.value.0, left.value.1, Reverse(right.value.0), |rs| - right.value.1 - 1));
  }

  // ---------------------------------------------------------------------------
  // The four types (lines 327-411)

  /** Lines 338-376: the fields of an insertion's line, from its flanks, the
      window position of its 5' flank, its re-placed span and its kind. */
  function InsertionRecord(c: Context, e: Edit, f: Flanks, locVar: int, startPos: int, endPos: int,
                           kind: InsertionKind): Call
  {
    Call(c.fusion + KindName(kind) + c.exon, |e.delet|, |e.insert|,
         if kind == PlainInsertion then None else Some(endPos - startPos + 1),
         f.before + f.after, f.before + Upper(e.insert) + f.after, locVar,
         c.chro, startPos, endPos, endPos, e.mod)
  }

  /** Lines 329-377 once the flanks are computed: place the variant at the
      window position of the flank on its 5' side, re-place the span one
      base longer, and classify. */
  function InsertionPlaced(c: Context, e: Edit, pos: int, end: int, flanks: Result<Flanks>,
                           kind: Result<InsertionKind>): Result<Call>
  {
    match flanks
    case Err(x) => Err(x)
    case Ok(f) =>
      match PyIndex(c.nts, if c.minus then f.aftInd else f.befInd)
      case None => Err(IndexOutOfRange)
      case Some(locVar) =>
        match GenomeSpan(c.nts, c.minus, pos, end + 1)
        case Err(x) => Err(x)
        case Ok((startPos, endPos)) =>
          match kind
          case Err(x) => Err(x)
          case Ok(k) => Ok(InsertionRecord(c, e, f, locVar, startPos, endPos, k))
  }

  /** Lines 385-397 once the flanks are computed. */
  function DeletionPlaced(c: Context, e: Edit, flanks: Result<Flanks>, startPos: int, endPos: int): Result<Call> {
    match flanks
    case Err(x) => Err(x)
    case Ok(f) =>
      match PyIndex(c.nts, if c.minus then f.aftInd else f.befInd)
      case None => Err(IndexOutOfRange)
      case Some(locVar) =>
        Ok(Call(c.fusion + "Deletion" + c.exon, |e.delet|, |e.insert|, None,
                f.before + Upper(e.delet) + f.after, f.before + f.after, locVar,
                c.chro, startPos, endPos, startPos, e.mod))
  }

  /** Lines 398-403: both alleles between the reference bases at `pos - 1` and `end + 1`. */
  function IndelCall(c: Context, e: Edit, pos: int, end: int, startPos: int, endPos: int): (r: Result<Call>)
    ensures r.Ok? <==> PyIndex(c.refSeq, pos - 1).Some? && PyIndex(c.refSeq, end + 1).Some?
    ensures r.Ok? ==>
              var left, right := PyIndex(c.refSeq, pos - 1).value, PyIndex(c.refSeq, end + 1).value;
              && |r.value.refVar| == |e.delet| + 2 && |r.value.altVar| == |e.insert| + 2
              && r.value.refVar[0] == r.value.altVar[0] == left
              && r.value.refVar[|r.value.refVar| - 1] == r.value.altVar[|r.value.altVar| - 1] == right
              && r.value.refVar[1..|r.value.refVar| - 1] == Upper(e.delet)
              && r.value.altVar[1..|r.value.altVar| - 1] == Upper(e.insert)
              && r.value.locVar == startPos - 1
  {
    match (PyIndex(c.refSeq, pos - 1), PyIndex(c.refSeq, end + 1))
    case (Some(left), Some(right)) =>
      var refVar, altVar := [left] + Upper(e.delet) + [right], [left] + Upper(e.insert) + [right];
      assert refVar[1..|refVar| - 1] == Upper(e.delet) && altVar[1..|altVar| - 1] == Upper(e.insert);
      Ok(Call(c.fusion + "Indel" + c.exon, |e.delet|, |e.insert|, None,
              refVar, altVar, startPos - 1, c.chro, startPos, endPos, startPos, e.mod))
    case _ => Err(IndexOutOfRange)
  }

  /** Lines 378-382: the edit's own bases, placed at `start_pos`. */
  function SubstitutionCall(c: Context, e: Edit, startPos: int, endPos: int): (r: Call)
    ensures r.refVar == Upper(e.delet) && r.altVar == Upper(e.insert) && r.locVar == startPos
  {
    Call(c.fusion + "Substitution" + c.exon, |e.delet|, |e.insert|, None,
         Upper(e.delet), Upper(e.insert), startPos, c.chro, startPos, endPos, startPos, e.mod)
  }

  /** Lines 312-411 once the edit is parsed and placed in the window: an
      edit that deletes nothing and inserts something is an insertion
      whatever its name; other names than Substitution, Deletion and Indel
      stop the run. */
  function Classified(c: Context, name: string, e: Edit, pos: int, end: int): Result<Call> {
    match GenomeSpan(c.nts, c.minus, pos, end)
    case Err(x) => Err(x)
    case Ok((startPos, endPos)) =>
      if |e.delet| == 0 && |e.insert| != 0 then
        InsertionPlaced(c, e, pos, end, FlanksOf(Upper(e.insert), pos + 1, 0, c.refSeq),
                        KindOf(e.insert, c.altSeq, pos))
      else if name == "Substitution" then Ok(SubstitutionCall(c, e, startPos, endPos))
      else if name == "Deletion" then
        DeletionPlaced(c, e, FlanksOf(Upper(e.delet), pos, |e.delet|, c.refSeq), startPos, endPos)
      else if name == "Indel" then IndelCall(c, e, pos, end, startPos, endPos)
      else Err(UnknownVariantType(name + c.exon))
  }

  /** Lines 299-411: a record with a mutation. */
  function Normalised(c: Context, name: string, variant1: string, startOffText: string): Result<Call> {
    match ParseEdit(variant1)
    case Err(x) => Err(x)
    case Ok(e) =>
      match Offsets(e.start, e.stop, startOffText)
      case Err(x) => Err(x)
      case Ok((pos, end)) => Classified(c, name, e, pos, end)
  }

  /** Any other variant name stops the run, unless the edit is an insertion. */
  lemma UnknownTypeStops(c: Context, name: string, e: Edit, pos: int, end: int)
    requires e.delet != "" || e.insert == ""
    requires name != "Substitution" && name != "Deletion" && name != "Indel"
    ensures Classified(c, name, e, pos, end).Err?
    ensures GenomeSpan(c.nts, c.minus, pos, end).Ok? ==> Classified(c, name, e, pos, end) == Err(UnknownVariantType(name + c.exon))
  {
  }

  // ---------------------------------------------------------------------------
  // Properties of the alleles

  /** Around flanks that lie in the reference, an insertion's reference
      allele is the stretch `rs[bef_ind:aft_ind + 1]` and its alternative
      allele is that stretch with the upper-cased inserted bases put between
      positions `pos` and `pos + 1`. */
  lemma InsertionPlacedAlleles(c: Context, e: Edit, pos: int, end: int, flanks: Result<Flanks>,
                               kind: Result<InsertionKind>)
    requires InsertionPlaced(c, e, pos, end, flanks, kind).Ok?
    requires flanks.Ok? && FlanksAround(flanks.value, c.refSeq, pos + 1, |c.refSeq| - pos - 1)
    ensures var call, f := InsertionPlaced(c, e, pos, end, flanks, kind).value, flanks.value;
            && call.refVar == c.refSeq[f.befInd..f.aftInd + 1]
            && call.altVar == c.refSeq[f.befInd..pos + 1] + Upper(e.insert) + c.refSeq[pos + 1..f.aftInd + 1]
  {
    var f, rs := flanks.value, c.refSeq;
    assert rs[f.befInd..f.aftInd + 1] == rs[f.befInd..pos + 1] + rs[pos + 1..f.aftInd + 1];
  }

  /** An insertion point inside the reference: the alleles of
      `InsertionPlacedAlleles` around the flanks `get_full_mut` finds. */
  lemma InsertionAlleles(c: Context, e: Edit, pos: int, end: int, flanks: Result<Flanks>)
    requires |e.insert| > 0 && flanks == FlanksOf(Upper(e.insert), pos + 1, 0, c.refSeq)
    requires InsertionPlaced(c, e, pos, end, flanks, KindOf(e.insert, c.altSeq, pos)).Ok?
    requires 0 <= pos && pos + 2 <= |c.refSeq|
    ensures var call, f := InsertionPlaced(c, e, pos, end, flanks, KindOf(e.insert, c.altSeq, pos)).value, flanks.value;
            && 0 <= f.befInd <= pos < pos + 1 <= f.aftInd < |c.refSeq|
            && call.refVar == c.refSeq[f.befInd..f.aftInd + 1]
            && call.altVar == c.refSeq[f.befInd..pos + 1] + Upper(e.insert) + c.refSeq[pos + 1..f.aftInd + 1]
  {
    FlanksInReference(Upper(e.insert), pos + 1, 0, c.refSeq);
    InsertionPlacedAlleles(c, e, pos, end, flanks, KindOf(e.insert, c.altSeq, pos));
  }

  /** Around flanks that lie in the reference, a deletion's alternative
      allele is the reference stretch with the deleted bases left out, its
      reference allele has them put back, and when they are the reference's
      own bases the reference allele is the whole stretch. */
  lemma DeletionPlacedAlleles(c: Context, e: Edit, pos: int, flanks: Result<Flanks>, startPos: int, endPos: int)
    requires DeletionPlaced(c, e, flanks, startPos, endPos).Ok?
    requires flanks.Ok? && FlanksAround(flanks.value, c.refSeq, pos, |c.refSeq| - pos - |e.delet|)
    ensures var call, f, rs, d := DeletionPlaced(c, e, flanks, startPos, endPos).value, flanks.value, c.refSeq, |e.delet|;
            && call.altVar == rs[f.befInd..pos] + rs[pos + d..f.aftInd + 1]
            && call.refVar == rs[f.befInd..pos] + Upper(e.delet) + rs[pos + d..f.aftInd + 1]
            && (Upper(e.delet) == rs[pos..pos + d] ==> call.refVar == rs[f.befInd..f.aftInd + 1])
  {
    var f, rs, d := flanks.value, c.refSeq, |e.delet|;
    if Upper(e.delet) == rs[pos..pos + d] {
      assert rs[f.befInd..f.aftInd + 1] == rs[f.befInd..pos] + rs[pos..pos + d] + rs[pos + d..f.aftInd + 1];
    }
  }

  /** A deletion inside the reference, with the flanks `f` that
      `get_full_mut` finds: the alleles of `DeletionPlacedAlleles`. */
  lemma DeletionAlleles(c: Context, e: Edit, pos: int, f: Flanks, startPos: int, endPos: int)
    requires FlanksOf(Upper(e.delet), pos, |e.delet|, c.refSeq) == Ok(f)
    requires DeletionPlaced(c, e, Ok(f), startPos, endPos).Ok?
    requires 1 <= pos && pos + |e.delet| < |c.refSeq|
    ensures var call := DeletionPlaced(c, e, Ok(f), startPos, endPos).value;
            var rs, d := c.refSeq, |e.delet|;
            && 0 <= f.befInd < pos && pos + d <= f.aftInd < |rs|
            && call.altVar == rs[f.befInd..pos] + rs[pos + d..f.aftInd + 1]
            && call.refVar == rs[f.befInd..pos] + Upper(e.delet) + rs[pos + d..f.aftInd + 1]
            && (Upper(e.delet) == rs[pos..pos + d] ==> call.refVar == rs[f.befInd..f.aftInd + 1])
  {
    FlanksAroundOf(Upper(e.delet), pos, |e.delet|, c.refSeq, f);
    DeletionPlacedAlleles(c, e, pos, Ok(f), startPos, endPos);
  }

  /** The type label of an insertion, and the `" | "` length suffix added
      exactly for ITD and I&I. */
  lemma InsertionPlacedLabels(c: Context, e: Edit, pos: int, end: int, flanks: Result<Flanks>,
                              kind: Result<InsertionKind>)
    requires InsertionPlaced(c, e, pos, end, flanks, kind).Ok?
    ensures var call := InsertionPlaced(c, e, pos, end, flanks, kind).value;
            && kind.Ok?
            && call.insertType == c.fusion + KindName(kind.value) + c.exon
            && call.added == |e.insert|
            && (kind.value == PlainInsertion <==> call.span.None?)
  {
  }

  /** An edit that deletes nothing and inserts something is labelled as an
      insertion, an ITD or an I&I whatever its variant name, and carries a
      span for the `" | "` suffix exactly when it is not a plain insertion. */
  lemma InsertionLabels(c: Context, name: string, e: Edit, pos: int, end: int)
    requires Classified(c, name, e, pos, end).Ok? && e.delet == "" && e.insert != ""
    ensures var call := Classified(c, name, e, pos, end).value;
            && KindOf(e.insert, c.altSeq, pos).Ok?
            && call.insertType == c.fusion + KindName(KindOf(e.insert, c.altSeq, pos).value) + c.exon
            && call.added == |e.insert|
            && (KindOf(e.insert, c.altSeq, pos) == Ok(PlainInsertion) <==> call.span.None?)
  {
    forall flanks: Result<Flanks> | InsertionPlaced(c, e, pos, end, flanks, KindOf(e.insert, c.altSeq, pos)).Ok?
      ensures var call := InsertionPlaced(c, e, pos, end, flanks, KindOf(e.insert, c.altSeq, pos)).value;
              && call.insertType == c.fusion + KindName(KindOf(e.insert, c.altSeq, pos).value) + c.exon
              && call.added == |e.insert|
              && (KindOf(e.insert, c.altSeq, pos) == Ok(PlainInsertion) <==> call.span.None?)
    {
      InsertionPlacedLabels(c, e, pos, end, flanks, KindOf(e.insert, c.altSeq, pos));
    }
  }

  /** Whatever the type, only an ITD or an I&I carries a span for the
      `" | "` suffix: substitutions, deletions and indels never do, nor
      does a plain insertion. */
  lemma SpanOnlyForItd(c: Context, name: string, e: Edit, pos: int, end: int)
    requires Classified(c, name, e, pos, end).Ok? && Classified(c, name, e, pos, end).value.span.Some?
    ensures e.delet == "" && e.insert != ""
    ensures KindOf(e.insert, c.altSeq, pos) == Ok(Itd) || KindOf(e.insert, c.altSeq, pos) == Ok(PartialItd)
  {
    if |e.delet| == 0 && |e.insert| != 0 {
      InsertionLabels(c, name, e, pos, end);
    }
  }

  lemma InsertionPlacedLength(c: Context, e: Edit, pos: int, end: int, flanks: Result<Flanks>,
                              kind: Result<InsertionKind>)
    requires InsertionPlaced(c, e, pos, end, flanks, kind).Ok?
    ensures var call := InsertionPlaced(c, e, pos, end, flanks, kind).value;
            |call.altVar| - |call.refVar| == |e.insert|
  {
  }

  lemma DeletionPlacedLength(c: Context, e: Edit, flanks: Result<Flanks>, startPos: int, endPos: int)
    requires DeletionPlaced(c, e, flanks, startPos, endPos).Ok?
    ensures var call := DeletionPlaced(c, e, flanks, startPos, endPos).value;
            |call.refVar| - |call.altVar| == |e.delet|
  {
  }

  /** Whatever the type, the alleles differ in length by the edit's
      inserted minus deleted bases (a deletion carries no inserted bases). */
  lemma LengthDifference(c: Context, name: string, e: Edit, pos: int, end: int)
    requires Classified(c, name, e, pos, end).Ok?
    requires name == "Deletion" ==> e.insert == ""
    ensures var call := Classified(c, name, e, pos, end).value;
            |call.altVar| - |call.refVar| == |e.insert| - |e.delet|
  {
    if |e.delet| == 0 && |e.insert| != 0 {
      forall flanks: Result<Flanks>, kind: Result<InsertionKind> | InsertionPlaced(c, e, pos, end, flanks, kind).Ok?
        ensures var call := InsertionPlaced(c, e, pos, end, flanks, kind).value;
                |call.altVar| - |call.refVar| == |e.insert|
      {
        InsertionPlacedLength(c, e, pos, end, flanks, kind);
      }
    } else if name == "Deletion" {
      var (startPos, endPos) := GenomeSpan(c.nts, c.minus, pos, end).value;
      forall flanks: Result<Flanks> | DeletionPlaced(c, e, flanks, startPos, endPos).Ok?
        ensures var call := DeletionPlaced(c, e, flanks, startPos, endPos).value;
                |call.refVar| - |call.altVar| == |e.delet|
      {
        DeletionPlacedLength(c, e, flanks, startPos, endPos);
      }
    }
  }

  // ---------------------------------------------------------------------------
  // The record body with its loops

  /** Lines 355-371 with the `for` loop of the I&I count. */
  method ClassifyInsertion(insert: string, altSeq: string, pos: int) returns (r: Result<InsertionKind>)
    requires |insert| > 0
    ensures r == KindOf(insert, altSeq, pos)
  {
    var possible := PossibleItd(insert);
    var upstream := Upstream(altSeq, pos, possible);
    var count := 0;
    if pos - |possible| >= 0 {
      var m := CountMatches(possible, upstream);
      if m.Err? {
        return Err(m.error);
      }
      count := m.value;
    }
    if pos - |insert| >= 0 && |insert| >= 3 && insert == upstream {
      r := Ok(Itd);
    } else if pos - |insert| >= 0 && |insert| >= 3 && 2 * count > |possible| {
      r := Ok(PartialItd);
    } else {
      r := Ok(PlainInsertion);
    }
  }

  /** Lines 336-377 after the flanks. */
  method PlaceInsertion(c: Context, e: Edit, pos: int, end: int, flanks: Result<Flanks>) returns (r: Result<Call>)
    requires |e.insert| > 0
    ensures r == InsertionPlaced(c, e, pos, end, flanks, KindOf(e.insert, c.altSeq, pos))
  {
    if flanks.Err? {
      return Err(flanks.error);
    }
    var f := flanks.value;
    var loc := PyIndex(c.nts, if c.minus then f.aftInd else f.befInd);
    if loc.None? {
      return Err(IndexOutOfRange);
    }
    var span := GenomeSpan(c.nts, c.minus, pos, end + 1);
    if span.Err? {
      return Err(span.error);
    }
    var kind := ClassifyInsertion(e.insert, c.altSeq, pos);
    if kind.Err? {
      return Err(kind.error);
    }
    r := Ok(InsertionRecord(c, e, f, loc.value, span.value.0, span.value.1, kind.value));
  }

  method NormaliseInsertion(c: Context, e: Edit, pos: int, end: int) returns (r: Result<Call>)
    requires |e.insert| > 0
    ensures r == InsertionPlaced(c, e, pos, end, FlanksOf(Upper(e.insert), pos + 1, 0, c.refSeq),
                                 KindOf(e.insert, c.altSeq, pos))
  {
    var flanks := ComputeFlanks(Upper(e.insert), pos + 1, 0, c.refSeq);
    r := PlaceInsertion(c, e, pos, end, flanks);
  }

  method NormaliseDeletion(c: Context, e: Edit, pos: int, startPos: int, endPos: int) returns (r: Result<Call>)
    ensures r == DeletionPlaced(c, e, FlanksOf(Upper(e.delet), pos, |e.delet|, c.refSeq), startPos, endPos)
  {
    var flanks := ComputeFlanks(Upper(e.delet), pos, |e.delet|, c.refSeq);
    r := DeletionPlaced(c, e, flanks, startPos, endPos);
  }

  /** Lines 312-411 for an edit placed in the window. */
  method NormaliseEdit(c: Context, name: string, e: Edit, pos: int, end: int) returns (r: Result<Call>)
    ensures r == Classified(c, name, e, pos, end)
  {
    var span := GenomeSpan(c.nts, c.minus, pos, end);
    if span.Err? {
      return Err(span.error);
    }
    var (startPos, endPos) := span.value;
    if |e.delet| == 0 && |e.insert| != 0 {
      r := NormaliseInsertion(c, e, pos, end);
    } else if name == "Substitution" {
      r := Ok(SubstitutionCall(c, e, startPos, endPos));
    } else if name == "Deletion" {
      r := NormaliseDeletion(c, e, pos, startPos, endPos);
    } else if name == "Indel" {
      r := IndelCall(c, e, pos, end, startPos, endPos);
    } else {
      r := Err(UnknownVariantType(name + c.exon));
    }
  }

  /** Lines 299-411 for one record with a mutation. */
  method NormaliseRecord(c: Context, name: string, variant1: string, startOffText: string) returns (r: Result<Call>)
    ensures r == Normalised(c, name, variant1, startOffText)
  {
    var edit := ParseEdit(variant1);
    if edit.Err? {
      return Err(edit.error);
    }
    var e := edit.value;
    var offsets := Offsets(e.start, e.stop, startOffText);
    if offsets.Err? {
      return Err(offsets.error);
    }
    var (pos, end) := offsets.value;
    r := NormaliseEdit(c, name, e, pos, end);
  }
}
