/** The reference indexer, `init_ref_seq` (find_report.py lines 41-131).

    The target file is a multi-FASTA whose header lines look like
    `>chr13:28000-28100|name=FLT3|n=14|strand=-|cigar=30M5N71M`. Each header
    gives a genomic interval and, with strand and CIGAR, the splice structure;
    the indexer turns it into the ordered genomic positions (`nts`) of the
    matched reference bases. Records with `name` and `n` attributes are exon
    entries keyed `name + "e" + n` (fusion mode); otherwise every record is
    pooled into one position array (mutation mode). The file is read as its
    lines, without line terminators. */
module RefIndex {
  import opened Results
  import opened PyText
  import opened Cigar

  /** What one header line contributes. */
  datatype Header = Header(chro: string, strand: Option<string>, nts: seq<int>)

  /** Mutation mode pools every record; fusion mode keeps one position array per exon key. */
  datatype Targets =
    | Pooled(allNts: seq<int>, allRef: string)
    | Exons(entries: map<string, seq<int>>)

  datatype Reference = Reference(chro: string, strand: Option<string>, targets: Targets)

  predicate IsHeaderLine(l: string) { |l| > 0 && l[0] == '>' }

  // ---------------------------------------------------------------------------
  // One header line

  /** The dictionary comprehension of line 67, left to right: a later
      duplicate key overwrites an earlier one; a segment without "=" is an
      IndexError. */
  function AttributeMap(segs: seq<string>, acc: map<string, string>): (r: Result<map<string, string>>)
    ensures r.Ok? ==> acc.Keys <= r.value.Keys
    decreases |segs|
  {
    if |segs| == 0 then Ok(acc)
    else
      var kv := Split(segs[0], "=");
      if |kv| < 2 then Err(MalformedAttribute)
      else
        AttributeMap(segs[1..], acc[StripSpace(kv[0]) := StripSpace(kv[1])])
  }

  /** Lines 62-67: check the location token, then read the `|`-separated
      attributes. The first segment is the location, which the source files
      under the key "location" by rewriting ">" to "location="
      (HeaderAttributesAsReplaced shows the two readings agree). */
  function HeaderAttributes(line: string): (r: Result<map<string, string>>)
    requires IsHeaderLine(line)
    ensures var loc := Split(line, " ")[0];
            !Contains(loc, "chr") || !Contains(loc, ":") || !Contains(loc, "-") ==> r == Err(BadLocation)
    ensures r.Ok? ==> "location" in r.value
  {
    var loc := Split(line, " ")[0];
    if !Contains(loc, "chr") || !Contains(loc, ":") || !Contains(loc, "-") then Err(BadLocation)
    else
      var segs := Split(line[1..], "|");
      AttributeMap(segs[1..], map["location" := StripSpace(Split(segs[0], "=")[0])])
  }

  /** Reading the attributes after `line.replace(">", "location=", 1)`, as
      line 66 does, gives the same dictionary. */
  lemma HeaderAttributesAsReplaced(line: string)
    requires IsHeaderLine(line)
    ensures var loc := Split(line, " ")[0];
            Contains(loc, "chr") && Contains(loc, ":") && Contains(loc, "-") ==>
              HeaderAttributes(line) == AttributeMap(Split("location=" + line[1..], "|"), map[])
  {
    LocationKey();
    KeySegment("location", line[1..]);
  }

  /** "location" is a key `KeySegment` accepts, and stripping leaves it as it is. */
  lemma LocationKey()
    ensures forall k :: 0 <= k < |"location"| ==> "location"[k] != '|' && "location"[k] != '='
    ensures StripSpace("location") == "location"
    ensures "location=" == "location" + "="
  {
    assert StripSpace("location") == "location";
  }

  /** The attributes of `key + "=" + t`, for a key with neither `|` nor
      `=`: its first `|`-segment files the rest of that segment under the
      key, the others are read after it. */
  lemma KeySegment(key: string, t: string)
    requires forall k :: 0 <= k < |key| ==> key[k] != '|' && key[k] != '='
    ensures var segs := Split(t, "|");
            AttributeMap(Split(key + "=" + t, "|"), map[]) ==
              AttributeMap(segs[1..], map[StripSpace(key) := StripSpace(Split(segs[0], "=")[0])])
  {
    var segs := Split(t, "|");
    var pre := key + "=";
    assert forall k :: 0 <= k < |pre| ==> pre[k] != "|"[0];
    SplitShift(pre, t, "|");
    var all := Split(pre + t, "|");
    assert all[0] == pre + segs[0] && all[1..] == segs[1..];
    SplitAfterSeparator(key, segs[0], "=");
    AttributeMapFirst(all, map[]);
  }

  /** The first segment of the comprehension, `k=v`, files `v` under `k`. */
  lemma AttributeMapFirst(segs: seq<string>, acc: map<string, string>)
    requires |segs| > 0 && |Split(segs[0], "=")| >= 2
    ensures var kv := Split(segs[0], "=");
            AttributeMap(segs, acc) == AttributeMap(segs[1..], acc[StripSpace(kv[0]) := StripSpace(kv[1])])
  {
  }

  /** `chro, pos = exon.split(":")` and `refstart, refstop = pos.split("-")`:
      tuple unpacking demands exactly two parts each time. */
  function SplitLocation(loc: string): (r: Option<(string, string, string)>)
    ensures r.Some? ==> loc == r.value.0 + ":" + r.value.1 + "-" + r.value.2
    ensures r.Some? ==> !Contains(r.value.0, ":") && !Contains(r.value.1, ":") && !Contains(r.value.1, "-")
  {
    var cp := Split(loc, ":");
    if |cp| != 2 then None
    else
      var se := Split(cp[1], "-");
      if |se| != 2 then None
      else
        assert Join(cp, ":") == cp[0] + ":" + cp[1];
        assert Join(se, "-") == se[0] + "-" + se[1];
        assert !Contains(se[0], ":") by {
          NoOccurrenceInPrefix(cp[1], se[0], ":");
        }
        Some((cp[0], se[0], se[1]))
  }

  /** A prefix of a string without `pat` has no `pat` either. */
  lemma NoOccurrenceInPrefix(s: string, pre: string, pat: string)
    requires |pat| > 0 && |pre| <= |s| && s[..|pre|] == pre && !Contains(s, pat)
    ensures !Contains(pre, pat)
  {
    if Contains(pre, pat) {
      var i := Find(pre, pat).value;
      assert OccursAt(pre, pat, i);
      assert s[..|pre|][i..i + |pat|] == s[i..i + |pat|];
      assert OccursAt(s, pat, i);
      assert false;
    }
  }

  /** The CIGAR the mask is decoded from: rewritten on the minus strand. */
  function EffectiveCigar(strand: string, cigar: string): string {
    if strand == "-" then MinusRewrite(cigar) else cigar
  }

  /** Lines 81-96: decode the CIGAR into a match mask, then keep the
      interval's positions the mask marks. */
  function CigarNts(strand: string, cigar: string, startText: string, stopText: string): (r: Result<seq<int>>)
    ensures r.Ok? ==> ParseInt(startText).Some? && ParseInt(stopText).Some?
    ensures r.Ok? ==> forall x :: x in r.value ==> ParseInt(startText).value <= x <= ParseInt(stopText).value
  {
    match RunLengths(EffectiveCigar(strand, cigar))
    case Err(e) => Err(e)
    case Ok(runs) =>
      if ParseInt(startText).None? || ParseInt(stopText).None? then Err(NotANumber)
      else
        var start, stop := ParseInt(startText).value, ParseInt(stopText).value;
        var mask := RunMask(runs);
        if Span(start, stop) <= |mask| then
          var nts := Kept(start, mask, Span(start, stop));
          assert forall x :: x in nts ==> start <= x <= stop by {
            forall x | x in nts ensures start <= x <= stop { KeptMembers(start, mask, Span(start, stop), x); }
          }
          Ok(nts)
        else Err(CigarTooShort)
  }

  function Interval(start: int, stop: int): seq<int> {
    seq(Span(start, stop), k requires 0 <= k < Span(start, stop) => start + k)
  }

  /** Lines 97-101: every position of the interval. */
  function IntervalNts(startText: string, stopText: string): (r: Result<seq<int>>)
    ensures r.Ok? <==> ParseInt(startText).Some? && ParseInt(stopText).Some?
    ensures r.Ok? ==> |r.value| == Span(ParseInt(startText).value, ParseInt(stopText).value)
    ensures r.Ok? ==> forall k :: 0 <= k < |r.value| ==> r.value[k] == ParseInt(startText).value + k
  {
    if ParseInt(startText).None? || ParseInt(stopText).None? then Err(NotANumber)
    else Ok(Interval(ParseInt(startText).value, ParseInt(stopText).value))
  }

  /** Lines 71-101 as a function of the attributes: split the location into
      chromosome, start and stop, and compute the positions. With strand and
      CIGAR the strand is kept; otherwise there is none. */
  function HeaderEntry(attrs: map<string, string>): (r: Result<Header>)
    ensures r.Ok? ==> (r.value.strand.Some? <==> "strand" in attrs && "cigar" in attrs)
    ensures r.Ok? && r.value.strand.Some? ==> r.value.strand.value == attrs["strand"]
  {
    if "location" !in attrs then Err(MalformedLocation)
    else
      match SplitLocation(attrs["location"])
      case None => Err(MalformedLocation)
      case Some((chro, startText, stopText)) =>
        if "strand" in attrs && "cigar" in attrs then
          match CigarNts(attrs["strand"], attrs["cigar"], startText, stopText)
          case Err(e) => Err(e)
          case Ok(nts) => Ok(Header(chro, Some(attrs["strand"]), nts))
        else
          match IntervalNts(startText, stopText)
          case Err(e) => Err(e)
          case Ok(nts) => Ok(Header(chro, None, nts))
  }

  method ComputeCigarNts(strand: string, cigar: string, startText: string, stopText: string)
    returns (r: Result<seq<int>>)
    ensures r == CigarNts(strand, cigar, startText, stopText)
  {
    var lengths := RunLengths(EffectiveCigar(strand, cigar));
    if lengths.Err? { return Err(lengths.error); }
    var mask := ExpandRuns(lengths.value);
    var start, stop := ParseInt(startText), ParseInt(stopText);
    if start.None? || stop.None? { return Err(NotANumber); }
    r := SelectPositions(start.value, stop.value, mask);
  }

  method ComputeIntervalNts(startText: string, stopText: string) returns (r: Result<seq<int>>)
    ensures r == IntervalNts(startText, stopText)
  {
    var start, stop := ParseInt(startText), ParseInt(stopText);
    if start.None? || stop.None? { return Err(NotANumber); }
    var nts := IntervalPositions(start.value, stop.value);
    IntervalIs(start.value, stop.value, nts);
    r := Ok(nts);
  }

  /** The positions `start, ..., stop`, listed one by one, are the interval. */
  lemma IntervalIs(start: int, stop: int, nts: seq<int>)
    requires |nts| == Span(start, stop) && forall k :: 0 <= k < |nts| ==> nts[k] == start + k
    ensures nts == Interval(start, stop)
  {
  }

  /** The loops of lines 87-101 computing one header's positions. */
  method ComputeHeader(attrs: map<string, string>) returns (r: Result<Header>)
    ensures r == HeaderEntry(attrs)
  {
    if "location" !in attrs { return Err(MalformedLocation); }
    var parts := SplitLocation(attrs["location"]);
    if parts.None? { return Err(MalformedLocation); }
    var (chro, startText, stopText) := parts.value;
    if "strand" in attrs && "cigar" in attrs {
      var nts := ComputeCigarNts(attrs["strand"], attrs["cigar"], startText, stopText);
      if nts.Err? { return Err(nts.error); }
      r := Ok(Header(chro, Some(attrs["strand"]), nts.value));
    } else {
      var nts := ComputeIntervalNts(startText, stopText);
      if nts.Err? { return Err(nts.error); }
      r := Ok(Header(chro, None, nts.value));
    }
  }

  /** A header line read in full: its attributes and its entry. */
  function DecodeHeader(l: string): (r: Result<(map<string, string>, Header)>)
    requires IsHeaderLine(l)
    ensures r.Ok? <==> HeaderAttributes(l).Ok? && HeaderEntry(HeaderAttributes(l).value).Ok?
    ensures r.Ok? ==> HeaderAttributes(l) == Ok(r.value.0) && HeaderEntry(r.value.0) == Ok(r.value.1)
  {
    match HeaderAttributes(l)
    case Err(e) => Err(e)
    case Ok(attrs) =>
      match HeaderEntry(attrs)
      case Err(e) => Err(e)
      case Ok(h) => Ok((attrs, h))
  }

  // ---------------------------------------------------------------------------
  // The whole file

  /** What the loop learns from one stripped line. */
  datatype LineInfo =
    | BlankLine
    | SequenceLine(text: string)
    | HeaderLine(decoded: Result<(map<string, string>, Header)>)

  function Classify(l: string): (r: LineInfo)
    ensures r.BlankLine? <==> |l| == 0
    ensures r.HeaderLine? <==> IsHeaderLine(l)
    ensures r.SequenceLine? ==> r.text == l
  {
    if |l| == 0 then BlankLine else if l[0] == '>' then HeaderLine(DecodeHeader(l)) else SequenceLine(l)
  }

  /** The file's lines, stripped and classified. */
  function Infos(lines: seq<string>): (r: seq<LineInfo>)
    ensures |r| == |lines|
  {
    seq(|lines|, i requires 0 <= i < |lines| => Classify(StripSpace(lines[i])))
  }

  predicate GoodHeader(info: LineInfo) { info.HeaderLine? && info.decoded.Ok? }

  function Attrs(info: LineInfo): map<string, string>
    requires GoodHeader(info)
  {
    info.decoded.value.0
  }

  function Entry(info: LineInfo): Header
    requires GoodHeader(info)
  {
    info.decoded.value.1
  }

  /** Line `i` passes every per-line check of the loop: it is not blank; a
      header decodes and has the first header's attribute keys; any line
      follows a good header (line 0 is one). */
  predicate InfoOk(infos: seq<LineInfo>, i: nat)
    requires i < |infos|
  {
    && !infos[i].BlankLine?
    && GoodHeader(infos[0])
    && (infos[i].HeaderLine? ==> GoodHeader(infos[i]) && Attrs(infos[i]).Keys == Attrs(infos[0]).Keys)
  }

  /** Every one of the first `n` lines is OK. */
  predicate AllOk(infos: seq<LineInfo>, n: nat)
    requires n <= |infos|
    decreases n
  {
    n == 0 || (AllOk(infos, n - 1) && InfoOk(infos, n - 1))
  }

  lemma {:induction false} InfoOkAt(infos: seq<LineInfo>, n: nat, j: nat)
    requires n <= |infos| && AllOk(infos, n) && j < n
    ensures InfoOk(infos, j)
    decreases n
  {
    if j < n - 1 { InfoOkAt(infos, n - 1, j); }
  }

  /** The set the source builds from `chro_list`: one chromosome per header. */
  function Chros(infos: seq<LineInfo>, n: nat): set<string>
    requires n <= |infos| && AllOk(infos, n)
    decreases n
  {
    if n == 0 then {}
    else Chros(infos, n - 1) + (if infos[n - 1].HeaderLine? then {Entry(infos[n - 1]).chro} else {})
  }

  /** The set the source builds from `strand_list`. */
  function Strands(infos: seq<LineInfo>, n: nat): set<Option<string>>
    requires n <= |infos| && AllOk(infos, n)
    decreases n
  {
    if n == 0 then {}
    else Strands(infos, n - 1) + (if infos[n - 1].HeaderLine? then {Entry(infos[n - 1]).strand} else {})
  }

  predicate FileOk(infos: seq<LineInfo>) {
    && |infos| > 0
    && AllOk(infos, |infos|)
    && |Chros(infos, |infos|)| == 1
    && |Strands(infos, |infos|)| == 1
  }

  /** The conditions under which `init_ref_seq` returns instead of exiting:
      every line is OK and `len(set(...)) == 1` for chromosomes and strands. */
  predicate ReferenceOk(lines: seq<string>) {
    FileOk(Infos(lines))
  }

  /** Exon entries exist exactly when the headers carry `name` and `n`. */
  predicate ExonMode(infos: seq<LineInfo>)
    requires |infos| > 0 && GoodHeader(infos[0])
  {
    "name" in Attrs(infos[0]) && "n" in Attrs(infos[0])
  }

  function ExonKey(attrs: map<string, string>): string
    requires "name" in attrs && "n" in attrs
  {
    attrs["name"] + "e" + attrs["n"]
  }

  /** The positions of all headers among the first `n` lines, in file order. */
  function PooledNts(infos: seq<LineInfo>, n: nat): seq<int>
    requires n <= |infos| && AllOk(infos, n)
    decreases n
  {
    if n == 0 then []
    else PooledNts(infos, n - 1) + (if infos[n - 1].HeaderLine? then Entry(infos[n - 1]).nts else [])
  }

  /** The sequence lines among the first `n` lines, concatenated. */
  function PooledSeq(infos: seq<LineInfo>, n: nat): string
    requires n <= |infos|
    decreases n
  {
    if n == 0 then ""
    else PooledSeq(infos, n - 1) + (if infos[n - 1].SequenceLine? then infos[n - 1].text else "")
  }

  /** The exon index: each header's positions stored under its key, a later
      header overwriting an earlier one with the same key. */
  function ExonIndex(infos: seq<LineInfo>, n: nat): map<string, seq<int>>
    requires n <= |infos| && AllOk(infos, n) && 0 < |infos| && GoodHeader(infos[0]) && ExonMode(infos)
    decreases n
  {
    if n == 0 then map[]
    else if infos[n - 1].HeaderLine? then
      ExonIndex(infos, n - 1)[ExonKey(Attrs(infos[n - 1])) := Entry(infos[n - 1]).nts]
    else ExonIndex(infos, n - 1)
  }

  /** The last header among the first `n` lines. */
  function LastHeader(infos: seq<LineInfo>, n: nat): (h: nat)
    requires 0 < n <= |infos| && infos[0].HeaderLine?
    ensures h < n && infos[h].HeaderLine?
    ensures forall j :: h < j < n ==> !infos[j].HeaderLine?
    decreases n
  {
    if infos[n - 1].HeaderLine? then n - 1 else LastHeader(infos, n - 1)
  }

  // ---------------------------------------------------------------------------
  // The indexer

  /** The loop variables of `init_ref_seq`: the first header's attribute
      keys, chromosome and strand; the current record's attributes,
      chromosome, strand and positions; the pooled positions and sequence;
      the exon index; and `chro_list` and `strand_list`, kept as the sets
      the final checks read them as. */
  datatype Scan = Scan(firstKeys: set<string>, firstChro: string, firstStrand: Option<string>,
                       attrs: map<string, string>, chro: string, strand: Option<string>, nts: seq<int>,
                       allNts: seq<int>, allRef: string, entries: map<string, seq<int>>,
                       chros: set<string>, strands: set<Option<string>>)

  /** `ref_attributes[attr["name"] + "e" + attr["n"]] = attr`, skipped on a KeyError. */
  function Enter(entries: map<string, seq<int>>, attrs: map<string, string>, nts: seq<int>): map<string, seq<int>> {
    if "name" in attrs && "n" in attrs then entries[ExonKey(attrs) := nts] else entries
  }

  /** What the loop variables hold after the first `i` lines. */
  ghost predicate ScanInv(infos: seq<LineInfo>, i: nat, st: Scan) {
    && i <= |infos|
    && AllOk(infos, i)
    && (i > 0 ==>
          && GoodHeader(infos[0])
          && st.firstKeys == Attrs(infos[0]).Keys
          && st.firstChro == Entry(infos[0]).chro && st.firstStrand == Entry(infos[0]).strand
          && var h := LastHeader(infos, i);
             GoodHeader(infos[h]) && st.attrs == Attrs(infos[h]) &&
             st.chro == Entry(infos[h]).chro && st.strand == Entry(infos[h]).strand && st.nts == Entry(infos[h]).nts)
    && st.chros == Chros(infos, i) && st.strands == Strands(infos, i)
    && st.allNts == PooledNts(infos, i) && st.allRef == PooledSeq(infos, i)
    && (i == 0 || !ExonMode(infos) ==> st.entries == map[])
    && (i > 0 && ExonMode(infos) ==> st.entries == ExonIndex(infos, i))
  }

  /** Lines 113-120, run after either branch: file the record under its exon
      key and note its chromosome and strand. */
  function Record(st: Scan): Scan {
    st.(entries := Enter(st.entries, st.attrs, st.nts), chros := st.chros + {st.chro}, strands := st.strands + {st.strand})
  }

  /** A good header line with the first header's keys advances the loop state. */
  lemma HeaderStep(infos: seq<LineInfo>, i: nat, st: Scan, a: map<string, string>, h: Header)
    requires ScanInv(infos, i, st)
    requires i < |infos| && infos[i] == HeaderLine(Ok((a, h)))
    requires i > 0 ==> a.Keys == st.firstKeys
    ensures var st1 := if i == 0 then st.(firstKeys := a.Keys, firstChro := h.chro, firstStrand := h.strand) else st;
            ScanInv(infos, i + 1, Record(st1.(attrs := a, chro := h.chro, strand := h.strand, nts := h.nts,
                                              allNts := st.allNts + h.nts)))
  {
    assert AllOk(infos, i + 1);
  }

  /** A sequence line after a header advances the loop state. */
  lemma SequenceStep(infos: seq<LineInfo>, i: nat, st: Scan, line: string)
    requires ScanInv(infos, i, st)
    requires 0 < i < |infos| && infos[i] == SequenceLine(line)
    ensures ScanInv(infos, i + 1, Record(st.(allRef := st.allRef + line)))
  {
    assert AllOk(infos, i + 1);
    var h := LastHeader(infos, i);
    assert LastHeader(infos, i + 1) == h;
    HeaderInSets(infos, i, h);
    InfoOkAt(infos, i, h);
    if ExonMode(infos) {
      ExonIndexHasHeader(infos, i, h);
      ExonIndexLastHeader(infos, i);
    }
  }

  /** The current header's key maps to the current header's positions. */
  lemma {:induction false} ExonIndexLastHeader(infos: seq<LineInfo>, n: nat)
    requires 0 < n <= |infos| && AllOk(infos, n) && GoodHeader(infos[0]) && ExonMode(infos)
    ensures var h := LastHeader(infos, n);
            GoodHeader(infos[h]) && "name" in Attrs(infos[h]) && "n" in Attrs(infos[h]) &&
            ExonKey(Attrs(infos[h])) in ExonIndex(infos, n) &&
            ExonIndex(infos, n)[ExonKey(Attrs(infos[h]))] == Entry(infos[h]).nts
    decreases n
  {
    var h := LastHeader(infos, n);
    InfoOkAt(infos, n, h);
    if !infos[n - 1].HeaderLine? {
      ExonIndexLastHeader(infos, n - 1);
    }
  }

  /** The body of the loop of lines 57-120 on line `i`; an error is the
      source's exit or exception on that line. */
  method ScanLine(lines: seq<string>, i: nat, st: Scan) returns (r: Result<Scan>)
    requires i < |lines| && ScanInv(Infos(lines), i, st)
    ensures r.Ok? ==> ScanInv(Infos(lines), i + 1, r.value)
    ensures r.Err? ==> !ReferenceOk(lines)
  {
    ghost var infos := Infos(lines);
    var line := StripSpace(lines[i]);
    if |line| == 0 {
      PlainLine(lines, i);
      FailingLine(lines, i);
      return Err(BlankReferenceLine);
    }
    var next := st;
    if line[0] == '>' {
      var d := ReadHeader(lines, i, if i == 0 then None else Some(st.firstKeys));
      if d.Err? {
        FailingLine(lines, i);
        return Err(d.error);
      }
      var (a, h) := d.value;
      HeaderStep(infos, i, st, a, h);
      if i == 0 {
        next := next.(firstKeys := a.Keys, firstChro := h.chro, firstStrand := h.strand);
      }
      next := next.(attrs := a, chro := h.chro, strand := h.strand, nts := h.nts);
      next := next.(allNts := next.allNts + next.nts);
    } else {
      PlainLine(lines, i);
      if i == 0 {
        FailingLine(lines, i);
        return Err(SequenceBeforeHeader);
      }
      SequenceStep(infos, i, st, line);
      next := next.(allRef := next.allRef + line);
    }
    if "name" in next.attrs && "n" in next.attrs {
      next := next.(entries := next.entries[next.attrs["name"] + "e" + next.attrs["n"] := next.nts]);
    }
    next := next.(chros := next.chros + {next.chro}, strands := next.strands + {next.strand});
    r := Ok(next);
  }

  /** The reference `init_ref_seq` returns for `lines`: the first header's
      chromosome and strand, and an exon index when the headers carry `name`
      and `n`, the pooled positions and sequence otherwise. */
  predicate Indexes(lines: seq<string>, x: Reference) {
    var infos := Infos(lines);
    && |infos| > 0 && AllOk(infos, |infos|) && GoodHeader(infos[0])
    && x.chro == Entry(infos[0]).chro && x.strand == Entry(infos[0]).strand
    && (x.targets.Exons? <==> ExonMode(infos))
    && (x.targets.Pooled? ==>
          x.targets.allNts == PooledNts(infos, |lines|) && x.targets.allRef == PooledSeq(infos, |lines|))
    && (x.targets.Exons? ==> x.targets.entries == ExonIndex(infos, |lines|))
  }

  /** `init_ref_seq`: one pass over the lines; the first failing line decides
      the error; after the loop the file must name exactly one chromosome and
      one strand. */
  method IndexReference(lines: seq<string>) returns (r: Result<Reference>)
    ensures r.Ok? <==> ReferenceOk(lines)
    ensures r.Ok? ==> Indexes(lines, r.value)
  {
    ghost var infos := Infos(lines);
    var st := Scan({}, "", None, map[], "", None, [], [], "", map[], {}, {});
    var i := 0;
    while i < |lines|
      invariant i <= |lines| && ScanInv(infos, i, st)
    {
      var next := ScanLine(lines, i, st);
      if next.Err? {
        return Err(next.error);
      }
      st := next.value;
      i := i + 1;
    }
    if i > 0 {
      HeaderInSets(infos, i, 0);
    }
    if |st.chros| != 1 {
      return Err(NotSingleChromosome);
    }
    if |st.strands| != 1 {
      return Err(NotSingleStrand);
    }
    var targets := if st.entries == map[] then Pooled(st.allNts, st.allRef) else Exons(st.entries);
    if ExonMode(infos) {
      ExonIndexHasHeader(infos, i, 0);
    }
    r := Ok(Reference(st.firstChro, st.firstStrand, targets));
  }

  /** One header line as the loop reads it: attributes, the key check against
      the first header (`first`), then the positions. */
  method ReadHeader(lines: seq<string>, i: nat, first: Option<set<string>>)
    returns (r: Result<(map<string, string>, Header)>)
    requires i < |lines| && IsHeaderLine(StripSpace(lines[i]))
    ensures Infos(lines)[i].HeaderLine?
    ensures r.Ok? <==> GoodHeader(Infos(lines)[i]) && (first.Some? ==> Attrs(Infos(lines)[i]).Keys == first.value)
    ensures r.Ok? ==> Infos(lines)[i] == HeaderLine(Ok(r.value))
  {
    var line := StripSpace(lines[i]);
    assert Infos(lines)[i] == HeaderLine(DecodeHeader(line));
    var a := HeaderAttributes(line);
    if a.Err? {
      return Err(a.error);
    }
    if first.Some? && a.value.Keys != first.value {
      return Err(AttributeMismatch);
    }
    var h := ComputeHeader(a.value);
    if h.Err? {
      return Err(h.error);
    }
    r := Ok((a.value, h.value));
  }

  /** How a line that is not a header is classified. */
  lemma PlainLine(lines: seq<string>, i: nat)
    requires i < |lines| && !IsHeaderLine(StripSpace(lines[i]))
    ensures Infos(lines)[i] == if |StripSpace(lines[i])| == 0 then BlankLine else SequenceLine(StripSpace(lines[i]))
  {
  }

  /** A line that fails its checks makes the whole file fail. */
  lemma FailingLine(lines: seq<string>, i: nat)
    requires i < |lines| && !InfoOk(Infos(lines), i)
    ensures !ReferenceOk(lines)
  {
    if ReferenceOk(lines) {
      InfoOkAt(Infos(lines), |lines|, i);
    }
  }

  lemma {:induction false} HeaderInSets(infos: seq<LineInfo>, n: nat, j: nat)
    requires n <= |infos| && AllOk(infos, n) && j < n && infos[j].HeaderLine?
    ensures GoodHeader(infos[j])
    ensures Entry(infos[j]).chro in Chros(infos, n)
    ensures Entry(infos[j]).strand in Strands(infos, n)
    decreases n
  {
    InfoOkAt(infos, n, j);
    if j < n - 1 { HeaderInSets(infos, n - 1, j); }
  }

  lemma {:induction false} ExonIndexHasHeader(infos: seq<LineInfo>, n: nat, j: nat)
    requires 0 < n <= |infos| && AllOk(infos, n) && GoodHeader(infos[0]) && ExonMode(infos)
    requires j < n && infos[j].HeaderLine?
    ensures GoodHeader(infos[j]) && "name" in Attrs(infos[j]) && "n" in Attrs(infos[j])
    ensures ExonKey(Attrs(infos[j])) in ExonIndex(infos, n)
    decreases n
  {
    InfoOkAt(infos, n, j);
    if j < n - 1 {
      ExonIndexHasHeader(infos, n - 1, j);
    }
  }

  // ---------------------------------------------------------------------------
  // What the final checks and the exon index mean

  /** The chromosomes and strands of the first `n` lines lie in {c} and {s}
      exactly when every header names c and s. */
  lemma {:induction false} SetsWithin(infos: seq<LineInfo>, n: nat, c: string, s: Option<string>)
    requires n <= |infos| && AllOk(infos, n)
    ensures Chros(infos, n) <= {c} <==>
              forall j :: 0 <= j < n && GoodHeader(infos[j]) ==> Entry(infos[j]).chro == c
    ensures Strands(infos, n) <= {s} <==>
              forall j :: 0 <= j < n && GoodHeader(infos[j]) ==> Entry(infos[j]).strand == s
    decreases n
  {
    if n > 0 {
      SetsWithin(infos, n - 1, c, s);
      InfoOkAt(infos, n, n - 1);
    }
  }

  lemma SingletonCard<T>(x: T, s: set<T>)
    requires x in s
    ensures |s| == 1 <==> s <= {x}
  {
    assert |s - {x}| == |s| - 1;
    if |s| == 1 {
      assert s - {x} == {};
      forall y | y in s ensures y == x {
        assert y !in s - {x};
      }
    }
    if s <= {x} {
      assert s == {x};
    }
  }

  /** The checks `len(set(chro_list)) == 1` and `len(set(strand_list)) == 1`
      pass exactly when every header has the first header's chromosome and
      strand. */
  lemma OneChromosomeOneStrand(infos: seq<LineInfo>)
    requires |infos| > 0 && AllOk(infos, |infos|)
    ensures GoodHeader(infos[0])
    ensures FileOk(infos) <==>
              forall j :: 0 <= j < |infos| && GoodHeader(infos[j]) ==>
                Entry(infos[j]).chro == Entry(infos[0]).chro && Entry(infos[j]).strand == Entry(infos[0]).strand
  {
    var n := |infos|;
    HeaderInSets(infos, n, 0);
    SetsWithin(infos, n, Entry(infos[0]).chro, Entry(infos[0]).strand);
    SingletonCard(Entry(infos[0]).chro, Chros(infos, n));
    SingletonCard(Entry(infos[0]).strand, Strands(infos, n));
  }

  /** Line `j` is a good header whose exon key is `k`. */
  predicate KeyAt(infos: seq<LineInfo>, j: nat, k: string)
    requires j < |infos|
  {
    GoodHeader(infos[j]) && "name" in Attrs(infos[j]) && "n" in Attrs(infos[j]) && ExonKey(Attrs(infos[j])) == k
  }

  /** Under the exon-mode checks every header carries `name` and `n`. */
  lemma HeaderHasKey(infos: seq<LineInfo>, n: nat, j: nat)
    requires n <= |infos| && AllOk(infos, n) && 0 < |infos| && GoodHeader(infos[0]) && ExonMode(infos)
    requires j < n && infos[j].HeaderLine?
    ensures GoodHeader(infos[j]) && "name" in Attrs(infos[j]) && "n" in Attrs(infos[j])
    ensures KeyAt(infos, j, ExonKey(Attrs(infos[j])))
    ensures forall k :: KeyAt(infos, j, k) <==> k == ExonKey(Attrs(infos[j]))
  {
    InfoOkAt(infos, n, j);
    assert "name" in Attrs(infos[j]).Keys && "n" in Attrs(infos[j]).Keys;
  }

  /** The exon index has a key exactly when some header carries it. */
  lemma {:induction false} ExonIndexKeys(infos: seq<LineInfo>, n: nat, k: string)
    requires n <= |infos| && AllOk(infos, n) && 0 < |infos| && GoodHeader(infos[0]) && ExonMode(infos)
    ensures k in ExonIndex(infos, n) <==> exists j :: 0 <= j < n && KeyAt(infos, j, k)
    decreases n
  {
    if n > 0 {
      ExonIndexKeys(infos, n - 1, k);
      var last := n - 1;
      if infos[last].HeaderLine? {
        HeaderHasKey(infos, n, last);
        if k == ExonKey(Attrs(infos[last])) {
          assert KeyAt(infos, last, k);
        }
      }
      if exists j :: 0 <= j < n && KeyAt(infos, j, k) {
        var j :| 0 <= j < n && KeyAt(infos, j, k);
        if j < last {
          assert exists j' :: 0 <= j' < last && KeyAt(infos, j', k);
        }
      }
      if k in ExonIndex(infos, n) && !(infos[last].HeaderLine? && k == ExonKey(Attrs(infos[last]))) {
        assert k in ExonIndex(infos, last);
        var j :| 0 <= j < last && KeyAt(infos, j, k);
        assert 0 <= j < n && KeyAt(infos, j, k);
      }
    }
  }

  /** A key maps to the positions of the last header carrying it: a later
      header with the same key overwrites the entry. */
  lemma {:induction false} ExonIndexLastWins(infos: seq<LineInfo>, n: nat, j: nat, k: string)
    requires n <= |infos| && AllOk(infos, n) && 0 < |infos| && GoodHeader(infos[0]) && ExonMode(infos)
    requires j < n && KeyAt(infos, j, k)
    requires forall j' :: j < j' < n ==> !KeyAt(infos, j', k)
    ensures k in ExonIndex(infos, n) && ExonIndex(infos, n)[k] == Entry(infos[j]).nts
    decreases n
  {
    var last := n - 1;
    if j < last {
      ExonIndexLastWins(infos, last, j, k);
      if infos[last].HeaderLine? {
        HeaderHasKey(infos, n, last);
        assert !KeyAt(infos, last, k);
        assert ExonKey(Attrs(infos[last])) != k;
      }
    }
  }

  // ---------------------------------------------------------------------------
  // The pooled sequence as the source builds it

  /** Line 110 as written: `all_ref_seq += ref_seq` appends the record's whole
      sequence so far, not just the new line. The pair is (all_ref_seq, ref_seq). */
  function PooledSeqAsWritten(infos: seq<LineInfo>, n: nat): (r: (string, string))
    requires n <= |infos|
    ensures |r.0| >= |PooledSeq(infos, n)|
    decreases n
  {
    if n == 0 then ("", "")
    else
      var (all, cur) := PooledSeqAsWritten(infos, n - 1);
      match infos[n - 1]
      case SequenceLine(l) => (all + cur + l, cur + l)
      case _ => (all, "")
  }

  /** A record written on two sequence lines shows the difference: the source
      pools "ACACGT" where the record's sequence is "ACGT". */
  lemma PooledSeqAsWrittenRepeats(header: LineInfo)
    requires header.HeaderLine?
    ensures var infos := [header, SequenceLine("AC"), SequenceLine("GT")];
            PooledSeqAsWritten(infos, 3).0 == "ACACGT" && PooledSeq(infos, 3) == "ACGT"
  {
  }
}
