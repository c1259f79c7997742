/** Genomic coordinates of a record (find_report.py lines 224-245 and
    307-317): the `nts` window a record's sequence is aligned to, and the
    mapping of sequence offsets onto it. */
module Coordinates {
  import opened Results
  import opened PyText
  import opened RefIndex

  // ---------------------------------------------------------------------------
  // Fusion-mode names

  /** The first field of a fusion record, split at its single "/": the
      "Fusion-" marker, the variant name without it, and the exon list. */
  datatype FusionName = FusionName(fusion: string, name: string, exons: string)

  /** Lines 226-229: a name without exactly one "/" cannot be unpacked; a
      name mentioning "Fusion" is marked and loses every "Fusion-". */
  function ParseFusionName(v0: string): (r: Result<FusionName>)
    ensures r.Ok? <==> |Split(v0, "/")| == 2
    ensures r.Ok? ==> (r.value.fusion == "Fusion-" <==> Contains(Split(v0, "/")[0], "Fusion"))
    ensures r.Ok? ==> !Contains(r.value.exons, "/")
    ensures r.Ok? && r.value.fusion == "" ==> v0 == r.value.name + "/" + r.value.exons
  {
    var parts := Split(v0, "/");
    if |parts| != 2 then Err(MalformedVariantName)
    else
      assert parts[1..] == [parts[1]];
      if Contains(parts[0], "Fusion") then Ok(FusionName("Fusion-", ReplaceAll(parts[0], "Fusion-", ""), parts[1]))
      else Ok(FusionName("", parts[0], parts[1]))
  }

  /** The keys of one `::`-separated token such as `NPM1e11-12`: the gene is
      what precedes the first "e", and each "-"-separated number after it
      gives one key. A token without "e" fails (line 229). */
  function TokenKeys(token: string): (r: Result<seq<string>>)
    ensures r.Err? <==> !Contains(token, "e")
    ensures r.Ok? ==> |r.value| >= 1
  {
    var pieces := Split(token, "e");
    if |pieces| < 2 then Err(MalformedExonList)
    else
      var numbers := Split(pieces[1], "-");
      Ok(seq(|numbers|, k requires 0 <= k < |numbers| => pieces[0] + "e" + numbers[k]))
  }

  predicate Free(s: string, c: char) { forall k :: 0 <= k < |s| ==> s[k] != c }

  /** For a token written as `gene + "e" + n1-n2-...` (no "e" in the gene or
      the numbers, no "-" in a number) the keys are `gene + "e" + ni`, in order. */
  lemma TokenKeysOfToken(gene: string, numbers: seq<string>)
    requires |numbers| >= 1 && Free(gene, 'e')
    requires forall i :: 0 <= i < |numbers| ==> Free(numbers[i], 'e') && Free(numbers[i], '-')
    ensures TokenKeys(gene + "e" + Join(numbers, "-")) ==
            Ok(seq(|numbers|, k requires 0 <= k < |numbers| => gene + "e" + numbers[k]))
  {
    var rest := Join(numbers, "-");
    JoinFree(numbers, "-", 'e');
    SplitAfterSeparator(gene, rest, "e");
    SplitAbsent(rest, "e");
    SplitJoin(numbers, "-");
  }

  /** A join of pieces free of `c` with a separator other than `c` is free of `c`. */
  lemma {:induction false} JoinFree(parts: seq<string>, sep: string, c: char)
    requires Free(sep, c) && forall i :: 0 <= i < |parts| ==> Free(parts[i], c)
    ensures Free(Join(parts, sep), c)
    decreases |parts|
  {
    if |parts| > 1 {
      JoinFree(parts[1..], sep, c);
      var rest := Join(parts[1..], sep);
      assert Join(parts, sep) == parts[0] + sep + rest;
      forall k | 0 <= k < |parts[0] + sep + rest| ensures (parts[0] + sep + rest)[k] != c {
        if k < |parts[0]| {
        } else if k < |parts[0]| + |sep| {
          assert (parts[0] + sep + rest)[k] == sep[k - |parts[0]|];
        } else {
          assert (parts[0] + sep + rest)[k] == rest[k - |parts[0]| - |sep|];
        }
      }
    }
  }

  /** The keys of a list of tokens, token by token. */
  function KeysOf(tokens: seq<string>): (r: Result<seq<string>>)
    ensures r.Ok? <==> forall i :: 0 <= i < |tokens| ==> Contains(tokens[i], "e")
    ensures r.Ok? && |tokens| > 0 ==> |r.value| >= |tokens|
    decreases |tokens|
  {
    if |tokens| == 0 then Ok([])
    else
      match KeysOf(tokens[..|tokens| - 1])
      case Err(e) => Err(e)
      case Ok(prev) =>
        assert forall i :: 0 <= i < |tokens| - 1 ==> tokens[..|tokens| - 1][i] == tokens[i];
        match TokenKeys(tokens[|tokens| - 1])
        case Err(e) => Err(e)
        case Ok(keys) => Ok(prev + keys)
  }

  /** Line 229: the exon keys of an exon list `A e1-2::B e3`. */
  function ExonKeys(exons: string): Result<seq<string>> {
    KeysOf(Split(exons, "::"))
  }

  /** Line 230: the exon label printed after the variant type. */
  function ExonLabel(keys: seq<string>): string {
    "/" + Join(keys, "::")
  }

  // ---------------------------------------------------------------------------
  // The nts window

  /** The sum of the selected exons' position counts. */
  function TotalLength(entries: map<string, seq<int>>, keys: seq<string>): nat
    requires forall k :: 0 <= k < |keys| ==> keys[k] in entries
    decreases |keys|
  {
    if |keys| == 0 then 0 else TotalLength(entries, keys[..|keys| - 1]) + |entries[keys[|keys| - 1]]|
  }

  /** Lines 231-234 before the slice: the exons' positions one after the
      other, each exon reversed on the minus strand; a key the index lacks
      is a KeyError. */
  function ExonNts(entries: map<string, seq<int>>, keys: seq<string>, minus: bool): (r: Result<seq<int>>)
    ensures r.Ok? <==> forall k :: 0 <= k < |keys| ==> keys[k] in entries
    ensures r.Ok? ==> |r.value| == TotalLength(entries, keys)
    decreases |keys|
  {
    if |keys| == 0 then Ok([])
    else
      var last := keys[|keys| - 1];
      match ExonNts(entries, keys[..|keys| - 1], minus)
      case Err(e) => Err(e)
      case Ok(prev) =>
        assert forall k :: 0 <= k < |keys| - 1 ==> keys[..|keys| - 1][k] == keys[k];
        if last !in entries then Err(UnknownExon)
        else Ok(prev + (if minus then Reverse(entries[last]) else entries[last]))
  }

  /** The minus-strand concatenation is the whole plus-strand concatenation
      of the exons taken in reverse order, read backwards. */
  lemma {:induction false} ExonNtsMinus(entries: map<string, seq<int>>, keys: seq<string>)
    requires forall k :: 0 <= k < |keys| ==> keys[k] in entries
    ensures ExonNts(entries, keys, true).Ok? && ExonNts(entries, Reverse(keys), false).Ok?
    ensures ExonNts(entries, keys, true).value == Reverse(ExonNts(entries, Reverse(keys), false).value)
    decreases |keys|
  {
    var rk := Reverse(keys);
    assert forall k :: 0 <= k < |rk| ==> rk[k] in entries by {
      forall k | 0 <= k < |rk| ensures rk[k] in entries { assert rk[k] == keys[|keys| - 1 - k]; }
    }
    if |keys| > 0 {
      var front := keys[..|keys| - 1];
      var last := keys[|keys| - 1];
      assert forall k :: 0 <= k < |front| ==> front[k] == keys[k];
      ExonNtsMinus(entries, front);
      assert keys == front + [last];
      ReverseAppend(front, [last]);
      assert Reverse([last]) == [last];
      ExonNtsFront(entries, [last], Reverse(front));
      var prev := ExonNts(entries, Reverse(front), false).value;
      ReverseAppend(entries[last], prev);
      ExonNtsSingle(entries, last);
      assert ExonNts(entries, rk, false).value == entries[last] + prev;
      assert ExonNts(entries, keys, true).value == Reverse(prev) + Reverse(entries[last]);
    }
  }

  lemma ExonNtsSingle(entries: map<string, seq<int>>, key: string)
    requires key in entries
    ensures ExonNts(entries, [key], false) == Ok(entries[key])
  {
    assert [key][..0] == [];
    assert ExonNts(entries, [], false) == Ok([]);
    assert [] + entries[key] == entries[key];
  }

  /** The concatenation over `a + b` is the concatenation over `a` followed by the one over `b`. */
  lemma {:induction false} ExonNtsFront(entries: map<string, seq<int>>, a: seq<string>, b: seq<string>)
    requires forall k :: 0 <= k < |a| ==> a[k] in entries
    requires forall k :: 0 <= k < |b| ==> b[k] in entries
    ensures forall k :: 0 <= k < |a + b| ==> (a + b)[k] in entries
    ensures ExonNts(entries, a + b, false).value ==
            ExonNts(entries, a, false).value + ExonNts(entries, b, false).value
    decreases |b|
  {
    if |b| == 0 {
      assert a + b == a;
    } else {
      var front := b[..|b| - 1];
      assert forall k :: 0 <= k < |front| ==> front[k] == b[k];
      ExonNtsFront(entries, a, front);
      assert (a + b)[..|a + b| - 1] == a + front;
    }
  }

  /** The exon index of a reference, empty for a pooled reference. Its
      keys are "all_nts", which no exon key equals (that token has no "e"),
      and "all_ref", which the token "all_ref" does yield; but that entry is
      a string, and looking up its "nts" fails as well, so every exon
      lookup in a pooled reference is an error. */
  function EntriesOf(targets: Targets): map<string, seq<int>> {
    if targets.Exons? then targets.entries else map[]
  }

  /** Lines 231-235: the fusion window, the exon concatenation with its
      first `start_off` positions dropped (Python slice semantics). */
  function FusionNts(targets: Targets, keys: seq<string>, minus: bool, startOffText: string): (r: Result<seq<int>>)
    ensures r.Ok? <==> (forall k :: 0 <= k < |keys| ==> keys[k] in EntriesOf(targets)) && ParseInt(startOffText).Some?
    ensures r.Ok? && 0 <= ParseInt(startOffText).value ==>
              var total := TotalLength(EntriesOf(targets), keys);
              var off := ParseInt(startOffText).value;
              |r.value| == (if off <= total then total - off else 0)
  {
    match ExonNts(EntriesOf(targets), keys, minus)
    case Err(e) => Err(e)
    case Ok(all) =>
      match ParseInt(startOffText)
      case None => Err(NotANumber)
      case Some(off) => Ok(PySlice(all, off, |all|))
  }

  /** Sentinel position of a reference without strand information. */
  const UnknownPosition := -12

  /** Lines 238-244: the pooled positions, the sentinel when the strand is
      unknown, reversed on the minus strand. An exon-keyed reference has no
      "all_nts" (KeyError). */
  function MutationNts(strand: Option<string>, targets: Targets): (r: Result<seq<int>>)
    ensures r.Ok? <==> targets.Pooled?
    ensures r.Ok? ==> |r.value| == |targets.allNts|
    ensures r.Ok? && strand.None? ==> forall k :: 0 <= k < |r.value| ==> r.value[k] == UnknownPosition
    ensures r.Ok? && strand == Some("-") ==> Reverse(r.value) == targets.allNts
    ensures r.Ok? && strand.Some? && strand != Some("-") ==> r.value == targets.allNts
  {
    if targets.Exons? then Err(MissingPooledTarget)
    else
      var all := targets.allNts;
      if strand.None? then Ok(seq(|all|, k => UnknownPosition))
      else if strand == Some("-") then
        ReverseReverse(all);
        Ok(Reverse(all))
      else Ok(all)
  }

  /** What lines 224-245 produce for one record. */
  datatype Window = Window(fusion: string, name: string, exonLabel: string, nts: seq<int>)

  /** Lines 224-245: the window for the record's mode, then the check that
      it covers the reference sequence. A mode other than "fusion" or
      "mutation" is refused. */
  function AssembleWindow(mode: string, strand: Option<string>, targets: Targets,
                          variant0: string, startOffText: string, refSeq: string): (r: Result<Window>)
    ensures r.Ok? ==> |r.value.nts| >= |refSeq|
    ensures mode != "fusion" && mode != "mutation" ==> r == Err(UnknownMode)
    ensures mode == "mutation" ==>
              (r.Ok? <==> MutationNts(strand, targets).Ok? && |MutationNts(strand, targets).value| >= |refSeq|)
    ensures r.Ok? && mode == "mutation" ==>
              r.value == Window("", variant0, "", MutationNts(strand, targets).value)
    ensures mode == "fusion" ==>
              (r.Ok? <==>
                 ParseFusionName(variant0).Ok? &&
                 var f := ParseFusionName(variant0).value;
                 ExonKeys(f.exons).Ok? &&
                 var nts := FusionNts(targets, ExonKeys(f.exons).value, strand == Some("-"), startOffText);
                 nts.Ok? && |nts.value| >= |refSeq|)
    ensures r.Ok? && mode == "fusion" ==>
              var f := ParseFusionName(variant0).value;
              var keys := ExonKeys(f.exons).value;
              r.value == Window(f.fusion, f.name, ExonLabel(keys),
                                FusionNts(targets, keys, strand == Some("-"), startOffText).value)
  {
    if mode == "fusion" then
      match ParseFusionName(variant0)
      case Err(e) => Err(e)
      case Ok(f) =>
        match ExonKeys(f.exons)
        case Err(e) => Err(e)
        case Ok(keys) =>
          match FusionNts(targets, keys, strand == Some("-"), startOffText)
          case Err(e) => Err(e)
          case Ok(nts) => if |nts| >= |refSeq| then Ok(Window(f.fusion, f.name, ExonLabel(keys), nts)) else Err(WindowTooShort)
    else if mode == "mutation" then
      match MutationNts(strand, targets)
      case Err(e) => Err(e)
      case Ok(nts) => if |nts| >= |refSeq| then Ok(Window("", variant0, "", nts)) else Err(WindowTooShort)
    else Err(UnknownMode)
  }

  // ---------------------------------------------------------------------------
  // Offsets onto the genome

  /** `"{}:{}-{}".format(chro, a, b)`. */
  function RegionText(chro: string, a: int, b: int): string {
    chro + ":" + IntToString(a) + "-" + IntToString(b)
  }

  /** Lines 251-253: the region of a record without a mutation, from the
      last to the first position on the minus strand and the other way
      round otherwise. */
  function ReferenceRegion(chro: string, minus: bool, nts: seq<int>): (r: Result<string>)
    ensures r.Ok? <==> |nts| > 0
    ensures r.Ok? && !minus ==> r.value == RegionText(chro, nts[0], nts[|nts| - 1])
    ensures r.Ok? && minus ==> r.value == RegionText(chro, nts[|nts| - 1], nts[0])
  {
    match (PyIndex(nts, -1), PyIndex(nts, 0))
    case (Some(last), Some(first)) =>
      Ok(if minus then RegionText(chro, last, first) else RegionText(chro, first, last))
    case _ => Err(IndexOutOfRange)
  }

  /** Lines 307-311: the 0-based offsets of the edit inside the window. */
  function Offsets(startText: string, stopText: string, startOffText: string): (r: Result<(int, int)>)
    ensures r.Ok? <==> ParseInt(startText).Some? && ParseInt(stopText).Some? && ParseInt(startOffText).Some?
    ensures r.Ok? ==> r.value.1 - r.value.0 == ParseInt(stopText).value - ParseInt(startText).value - 1
  {
    match (ParseInt(startText), ParseInt(stopText), ParseInt(startOffText))
    case (Some(start), Some(stop), Some(off)) => Ok((start - 1 - off, stop - 1 - 1 - off))
    case _ => Err(NotANumber)
  }

  /** Lines 313-318: the genomic start and end of the edit, one past the
      neighbouring positions; on the minus strand the two ends swap and the
      step is backwards. Indices follow Python, so `pos == 0` reads the last
      position. */
  function GenomeSpan(nts: seq<int>, minus: bool, pos: int, end: int): (r: Result<(int, int)>)
    ensures r.Ok? <==> PyIndex(nts, pos - 1).Some? && PyIndex(nts, end - 1).Some?
    ensures r.Ok? && !minus ==> r.value == (PyIndex(nts, pos - 1).value + 1, PyIndex(nts, end - 1).value + 1)
    ensures r.Ok? && minus ==> r.value == (PyIndex(nts, end - 1).value - 1, PyIndex(nts, pos - 1).value - 1)
  {
    match (PyIndex(nts, pos - 1), PyIndex(nts, end - 1))
    case (Some(a), Some(b)) => Ok(if minus then (b - 1, a - 1) else (a + 1, b + 1))
    case _ => Err(IndexOutOfRange)
  }

  predicate Increasing(s: seq<int>) { forall i, j :: 0 <= i < j < |s| ==> s[i] < s[j] }

  /** On a window that runs up the genome (plus strand) or down it (minus
      strand, the reversed positions), an edit with `1 <= pos <= end` inside
      the window gets `start_pos <= end_pos`, and both lie one step outside
      the window's positions at `pos - 1` and `end - 1`. */
  lemma GenomeSpanOrdered(nts: seq<int>, minus: bool, pos: int, end: int)
    requires 1 <= pos <= end <= |nts|
    requires if minus then Increasing(Reverse(nts)) else Increasing(nts)
    ensures GenomeSpan(nts, minus, pos, end).Ok?
    ensures GenomeSpan(nts, minus, pos, end).value.0 <= GenomeSpan(nts, minus, pos, end).value.1
  {
    if minus && pos < end {
      var rn := Reverse(nts);
      assert nts[pos - 1] == rn[|nts| - pos] && nts[end - 1] == rn[|nts| - end];
    }
  }

  /** An edit at the first base of the window (`pos == 0`) reads the last
      position of the window, by Python's negative indexing. */
  lemma GenomeSpanAtWindowStart(nts: seq<int>, end: int)
    requires |nts| > 0 && 1 <= end <= |nts|
    ensures GenomeSpan(nts, false, 0, end) == Ok((nts[|nts| - 1] + 1, nts[end - 1] + 1))
  {
  }
}
