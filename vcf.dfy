/** The output lines of the flat and VCF reports (find_report.py lines 8-38
    and 423-431): the tab-joined line builders, the minus-strand
    reverse-complement of the alleles, the split of an exon label off the
    type, and the rule that suppresses junction-spanning records. */
module VcfOut {
  import opened Results
  import opened PyText
  import opened Normalise

  // ---------------------------------------------------------------------------
  // Tab-joined lines (lines 11 and 35)

  /** The 16 columns of a flat line, in the order `print_line` takes them. */
  const FlatColumns: nat := 16

  /** `print_line`: the sixteen fields joined by tabs. */
  function FlatLine(fields: seq<string>): (line: string)
    requires |fields| == FlatColumns
  {
    Join(fields, "\t")
  }

  /** A flat line whose fields hold no tab splits back into its sixteen fields. */
  lemma FlatLineColumns(fields: seq<string>)
    requires |fields| == FlatColumns && AllTabFree(fields)
    ensures Split(FlatLine(fields), "\t") == fields
  {
    SplitJoin(fields, "\t");
  }

  /** Lines 152-155: the header line of the flat report. */
  function FlatHeader(): (line: string)
    ensures |Split(line, "\t")| == FlatColumns
  {
    HeaderNamesTabFree();
    SplitJoin(HeaderNames(), "\t");
    FlatLine(HeaderNames())
  }

  /** The column names of the flat report. */
  function HeaderNames(): seq<string> {
    ["Sample", "Region", "Location", "Type", "Removed", "Added", "Abnormal", "Normal",
     "Ratio", "Min_coverage", "Exclu_min_cov", "Variant", "Target", "Info",
     "Variant_sequence", "Reference_sequence"]
  }

  lemma HeaderNamesTabFree()
    ensures |HeaderNames()| == FlatColumns
    ensures forall i :: 0 <= i < |HeaderNames()| ==> '\t' !in HeaderNames()[i]
  {
  }

  /** Lines 36-37: the INFO column of a VCF line. */
  function InfoField(typeVar: string, target: string, ratio: string, minCov: string, rem: string, ad: string): string {
    "TYPE=" + typeVar + ";TARGET=" + target + ";RATIO=" + ratio + ";MINCOV=" + minCov +
    ";REMOVED=" + rem + ";ADDED=" + ad
  }

  /** `print_vcf_line`: CHROM, POS, ID, REF, ALT, QUAL, FILTER and INFO
      joined by tabs, with "." for the empty ID, QUAL and FILTER. */
  function VcfLine(chro: string, loc: int, refVar: string, altVar: string, typeVar: string,
                   target: string, ratio: string, minCov: string, rem: string, ad: string): string
  {
    Join([chro, IntToString(loc), ".", refVar, altVar, ".", ".", InfoField(typeVar, target, ratio, minCov, rem, ad)], "\t")
  }

  /** A VCF line has the eight mandatory columns when no field holds a tab,
      and carries the position and both alleles in columns 2, 4 and 5. */
  lemma VcfLineColumns(chro: string, loc: int, refVar: string, altVar: string, typeVar: string,
                       target: string, ratio: string, minCov: string, rem: string, ad: string)
    requires AllTabFree([chro, refVar, altVar, InfoField(typeVar, target, ratio, minCov, rem, ad)])
    ensures var cols := Split(VcfLine(chro, loc, refVar, altVar, typeVar, target, ratio, minCov, rem, ad), "\t");
            |cols| == 8 && cols[0] == chro && cols[1] == IntToString(loc) && cols[3] == refVar && cols[4] == altVar
  {
    var fields := [chro, IntToString(loc), ".", refVar, altVar, ".", ".", InfoField(typeVar, target, ratio, minCov, rem, ad)];
    var given := [chro, refVar, altVar, InfoField(typeVar, target, ratio, minCov, rem, ad)];
    assert TabFree(given[0]) && TabFree(given[1]) && TabFree(given[2]) && TabFree(given[3]);
    IntToStringTabFree(loc);
    assert TabFree(".");
    assert AllTabFree(fields);
    SplitJoin(fields, "\t");
  }

  lemma IntToStringTabFree(i: int)
    ensures TabFree(IntToString(i))
  {
    if i < 0 {
      NatToStringDigits(-i);
      assert IntToString(i) == "-" + NatToString(-i);
    } else {
      NatToStringDigits(i);
    }
  }

  // ---------------------------------------------------------------------------
  // Reverse complement (lines 424-426)

  /** `maketrans('ATGCU', 'TACGA')`: A and T swap, G and C swap, U becomes A;
      every other character is kept. */
  function Complement(c: char): char {
    match c
    case 'A' => 'T'
    case 'T' => 'A'
    case 'G' => 'C'
    case 'C' => 'G'
    case 'U' => 'A'
    case _ => c
  }

  /** `s.translate(complement)[::-1]`. */
  function ReverseComplement(s: string): (r: string)
    ensures |r| == |s|
    ensures forall k :: 0 <= k < |s| ==> r[k] == Complement(s[|s| - 1 - k])
  {
    Reverse(seq(|s|, k requires 0 <= k < |s| => Complement(s[k])))
  }

  predicate IsBase(c: char) { c == 'A' || c == 'C' || c == 'G' || c == 'T' }

  predicate AllBases(s: string) { forall k :: 0 <= k < |s| ==> IsBase(s[k]) }

  /** The complement of a base is a base. */
  lemma ReverseComplementBases(s: string)
    requires AllBases(s)
    ensures AllBases(ReverseComplement(s))
  {
  }

  /** On A, C, G and T the transform undoes itself. */
  lemma ReverseComplementInvolution(s: string)
    requires AllBases(s)
    ensures ReverseComplement(ReverseComplement(s)) == s
  {
    var r := ReverseComplement(s);
    var rr := ReverseComplement(r);
    forall k | 0 <= k < |s| ensures rr[k] == s[k] {
      assert rr[k] == Complement(r[|s| - 1 - k]);
      assert r[|s| - 1 - k] == Complement(s[k]);
    }
  }

  /** U has no inverse in the table: it becomes A, which comes back as T. */
  lemma ReverseComplementOfU()
    ensures ReverseComplement(ReverseComplement("U")) == "T"
  {
    assert ReverseComplement("U")[0] == 'A';
    assert ReverseComplement("U") == "A";
    assert ReverseComplement("A")[0] == 'T';
    assert ReverseComplement("A") == "T";
  }

  /** Lines 425-426: both alleles are reverse-complemented on the minus
      strand and kept as they are otherwise. */
  function OrientedAlleles(minus: bool, refVar: string, altVar: string): (r: (string, string))
    ensures |r.0| == |refVar| && |r.1| == |altVar|
    ensures !minus ==> r == (refVar, altVar)
    ensures minus && AllBases(refVar) && AllBases(altVar) ==>
              ReverseComplement(r.0) == refVar && ReverseComplement(r.1) == altVar
  {
    if minus then
      assert AllBases(refVar) ==> ReverseComplement(ReverseComplement(refVar)) == refVar by {
        if AllBases(refVar) { ReverseComplementInvolution(refVar); }
      }
      assert AllBases(altVar) ==> ReverseComplement(ReverseComplement(altVar)) == altVar by {
        if AllBases(altVar) { ReverseComplementInvolution(altVar); }
      }
      (ReverseComplement(refVar), ReverseComplement(altVar))
    else (refVar, altVar)
  }

  // ---------------------------------------------------------------------------
  // Type label and suppression (lines 427-431)

  /** Lines 427-428: a type carrying an exon label (`ITD/FLT3e14`) is split
      into the bare type and the label, which replaces the query; unpacking
      fails unless there is exactly one "/". */
  function SplitType(insertType: string, query: string): (r: Result<(string, string)>)
    ensures !Contains(insertType, "/") ==> r == Ok((insertType, query))
    ensures Contains(insertType, "/") ==> (r.Ok? <==> |Split(insertType, "/")| == 2)
    ensures Contains(insertType, "/") && r.Ok? ==>
              insertType == r.value.0 + "/" + r.value.1 && !Contains(r.value.0, "/") && !Contains(r.value.1, "/")
  {
    if Contains(insertType, "/") then
      var parts := Split(insertType, "/");
      if |parts| == 2 then
        assert parts[1..] == [parts[1]];
        Ok((parts[0], parts[1]))
      else Err(MalformedType)
    else Ok((insertType, query))
  }

  /** Line 429: a record is written unless its query spans a junction
      (`::`) and junction records were not asked for. */
  predicate Emitted(query: string, junction: bool) {
    !Contains(query, "::") || junction
  }

  /** Lines 423-431 for a normalised call: orient the alleles, split the
      type, and either suppress the record (None) or give its VCF line. */
  function VcfRecord(chro: string, minus: bool, call: Call, query: string, ratio: string, minCov: string,
                     junction: bool): (r: Result<Option<string>>)
    ensures r.Err? <==> SplitType(call.insertType, query).Err?
    ensures r.Ok? ==> (r.value.Some? <==> Emitted(SplitType(call.insertType, query).value.1, junction))
    ensures r.Ok? && r.value.Some? ==>
              var (t, q) := SplitType(call.insertType, query).value;
              var (refVar, altVar) := OrientedAlleles(minus, call.refVar, call.altVar);
              r.value.value == VcfLine(chro, call.locVar, refVar, altVar, t, q, ratio, minCov,
                                       RemovedText(call), AddedText(call))
  {
    var (refVar, altVar) := OrientedAlleles(minus, call.refVar, call.altVar);
    match SplitType(call.insertType, query)
    case Err(e) => Err(e)
    case Ok((t, q)) =>
      if Emitted(q, junction) then
        Ok(Some(VcfLine(chro, call.locVar, refVar, altVar, t, q, ratio, minCov, RemovedText(call), AddedText(call))))
      else Ok(None)
  }

  /** An exon-labelled call whose label joins several exons is suppressed
      unless junction records are asked for. */
  lemma JunctionLabelSuppressed(chro: string, minus: bool, call: Call, query: string, ratio: string,
                                minCov: string, bare: string, exons: string)
    requires call.insertType == bare + "/" + exons && !Contains(bare, "/") && !Contains(exons, "/")
    requires Contains(exons, "::")
    ensures VcfRecord(chro, minus, call, query, ratio, minCov, false) == Ok(None)
    ensures VcfRecord(chro, minus, call, query, ratio, minCov, true).Ok?
    ensures VcfRecord(chro, minus, call, query, ratio, minCov, true).value.Some?
  {
    var sep := "/";
    SlashFree(bare);
    SlashFree(exons);
    SplitJoin([bare, exons], sep);
    assert Join([bare, exons], sep) == bare + "/" + exons;
    assert OccursAt(call.insertType, sep, |bare|);
  }

  lemma SlashFree(s: string)
    requires !Contains(s, "/")
    ensures forall k :: 0 <= k < |s| ==> s[k] != '/'
  {
    forall k | 0 <= k < |s| ensures s[k] != '/' {
      if s[k] == '/' {
        assert s[k..k + 1] == "/";
        assert OccursAt(s, "/", k);
      }
    }
  }
}
