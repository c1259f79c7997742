/** The report driver, `create_report` (find_report.py lines 134-470): one
    pass over the input records, each turned into a flat line, a VCF line
    or a table entry; in table mode the matrix is written at the end.

    The input is the list of lines of the record file, each as read (with
    its line terminator). The info-column regular expression and the
    parsing of the ratio as a float come in as functions of the
    configuration. */
module Report {
  import opened Results
  import opened PyText
  import opened RefIndex
  import opened Coordinates
  import opened Normalise
  import opened VcfOut
  import opened TableOut

  datatype Format = Flat | Vcf | Table

  /** The command-line values the report reads: the output format, the
      minimum coverage, the info filter (`re.search(args.info, line)`),
      whether junction records go to the VCF, and `float(ratio)`, which
      fails on text that is not a number. */
  datatype Config = Config(format: Format, minCov: int, info: string -> bool, junction: bool,
                           parseRatio: string -> Option<Ratio>)

  /** The mode named by the last `#mode:` comment, and whether a comment
      has been seen (the `header` flag that selects the record layout). */
  datatype Stream = Stream(mode: string, header: bool)

  /** Lines 138-139. */
  const Start := Stream("mutation", false)

  /** What one input line contributes to the report. */
  datatype Emit = Nothing | Line(text: string) | Tally(entry: Entry)

  // ---------------------------------------------------------------------------
  // One line

  /** Lines 159-164: a comment sets the header flag; one mentioning "mode"
      names the mode after its first ":". */
  function CommentStep(st: Stream, line: string): (r: Result<Stream>)
    ensures r.Ok? ==> r.value.header
    ensures !Contains(line, "mode") ==> r == Ok(st.(header := true))
    ensures Contains(line, "mode") ==>
              (r.Ok? <==> |Split(StripSpace(line), ":")| >= 2) &&
              (r.Ok? ==> r.value.mode == Split(StripSpace(line), ":")[1])
  {
    if Contains(line, "mode") then
      var parts := Split(StripSpace(line), ":");
      if |parts| < 2 then Err(MalformedModeLine) else Ok(Stream(parts[1], true))
    else Ok(st.(header := true))
  }

  /** Only the table tallies entries, and only the flat and VCF reports
      write lines. */
  predicate Fits(format: Format, em: Emit) {
    (em.Tally? ==> format == Table) && (em.Line? ==> format != Table)
  }

  /** Lines 434-447: the table entry of a record; `float(ratio)` may fail. */
  function TableEmit(cfg: Config, samp: string, variant0: string, query: string, region: string,
                     mod: string, ratio: string): (r: Result<Emit>)
    ensures r.Ok? ==> r.value.Tally?
    ensures r.Ok? <==> cfg.parseRatio(ratio).Some?
    ensures r.Ok? ==> r.value == Tally(Entry(samp, TableKey(variant0, query, region, mod), cfg.parseRatio(ratio).value))
  {
    match cfg.parseRatio(ratio)
    case None => Err(BadRatio)
    case Some(x) => Ok(Tally(Entry(samp, TableKey(variant0, query, region, mod), x)))
  }

  /** Lines 177-196 with 417-447: a record already in the sixteen-column
      layout is written through unchanged, skipped in VCF mode, or
      tallied under its type and query. */
  function PlainRecord(cfg: Config, tok: seq<string>): (r: Result<Emit>)
    ensures r.Ok? ==> Fits(cfg.format, r.value)
    ensures |tok| < FlatColumns ==> r == Err(TooFewFields)
    ensures r.Ok? && cfg.format == Flat ==> r.value == Line(Join(tok[..FlatColumns], "\t"))
    ensures r.Ok? && cfg.format == Vcf ==> r.value == Nothing
  {
    if |tok| < FlatColumns then Err(TooFewFields)
    else
      match cfg.format
      case Flat => Ok(Line(FlatLine(tok[..FlatColumns])))
      case Vcf => Ok(Nothing)
      case Table => TableEmit(cfg, tok[0], tok[3], tok[12], tok[1], tok[11], tok[8])
  }

  /** The upstream fields of lines 204-217. */
  datatype Upstream = Upstream(samp: string, query: string, variant0: string, variant1: string,
                               ratio: string, altExp: string, minCov: string, startOff: string,
                               altSeq: string, refExp: string, refSeq: string, info: string,
                               last: string)

  function UpstreamFields(tok: seq<string>): (r: Result<Upstream>)
    ensures r.Ok? <==> |tok| >= 13
  {
    if |tok| < 13 then Err(TooFewFields)
    else Ok(Upstream(tok[0], tok[1], tok[2], tok[3], tok[4], tok[5], tok[6], tok[7], tok[8],
                     tok[10], tok[11], tok[12], tok[|tok| - 1]))
  }

  /** Lines 248-261: a record without a mutation spans the whole window. */
  function ReferenceRecord(cfg: Config, ref: Reference, u: Upstream, w: Window): (r: Result<Emit>)
    ensures r.Ok? ==> Fits(cfg.format, r.value)
    ensures ReferenceRegion(ref.chro, ref.strand == Some("-"), w.nts).Err? ==> r.Err?
    ensures r.Ok? && cfg.format == Vcf ==> r.value == Nothing
  {
    match ReferenceRegion(ref.chro, ref.strand == Some("-"), w.nts)
    case Err(e) => Err(e)
    case Ok(region) =>
      match cfg.format
      case Flat =>
        Ok(Line(FlatLine([u.samp, region, "-", w.name + w.exonLabel, "0", "0", "0.0", u.altExp, u.ratio,
                          u.minCov, "", "-", u.query, u.last, "", ""])))
      case Vcf => Ok(Nothing)
      case Table => TableEmit(cfg, u.samp, u.variant0, u.query, region, "", u.ratio)
  }

  /** Lines 413-447 for a normalised mutation. */
  function MutationRecord(cfg: Config, ref: Reference, u: Upstream, call: Call): (r: Result<Emit>)
    ensures r.Ok? ==> Fits(cfg.format, r.value)
    ensures cfg.format == Vcf ==>
              var v := VcfRecord(ref.chro, ref.strand == Some("-"), call, u.query, u.ratio, u.minCov, cfg.junction);
              (r.Ok? <==> v.Ok?) && (r.Ok? ==> (r.value == Nothing <==> v.value.None?))
  {
    match cfg.format
    case Flat =>
      Ok(Line(FlatLine([u.samp, RegionOf(call), LocationOf(call), call.insertType, RemovedText(call),
                        AddedText(call), u.altExp, u.refExp, u.ratio, u.minCov, "", call.mod, u.query,
                        u.info, u.altSeq, u.refSeq])))
    case Vcf =>
      (match VcfRecord(ref.chro, ref.strand == Some("-"), call, u.query, u.ratio, u.minCov, cfg.junction)
       case Err(e) => Err(e)
       case Ok(None) => Ok(Nothing)
       case Ok(Some(l)) => Ok(Line(l)))
    case Table => TableEmit(cfg, u.samp, u.variant0, u.query, RegionOf(call), call.mod, u.ratio)
  }

  /** Lines 198-245 and 247-411: a record of the upstream layout, dropped
      below the coverage threshold, placed in its window, and either a
      record without a mutation or a normalised mutation. */
  function UpstreamRecord(cfg: Config, ref: Reference, mode: string, tok: seq<string>): (r: Result<Emit>)
    ensures r.Ok? ==> Fits(cfg.format, r.value)
    ensures |tok| < 13 ==> r == Err(TooFewFields)
    ensures |tok| >= 13 && ParseInt(tok[6]).None? ==> r == Err(NotANumber)
    ensures |tok| >= 13 && ParseInt(tok[6]).Some? && ParseInt(tok[6]).value < cfg.minCov ==> r == Ok(Nothing)
  {
    match UpstreamFields(tok)
    case Err(e) => Err(e)
    case Ok(u) =>
      match ParseInt(u.minCov)
      case None => Err(NotANumber)
      case Some(cov) =>
        if cov < cfg.minCov then Ok(Nothing)
        else
          var refSeq := Upper(u.refSeq);
          match AssembleWindow(mode, ref.strand, ref.targets, u.variant0, u.startOff, refSeq)
          case Err(e) => Err(e)
          case Ok(w) =>
            if w.name == "Reference" || w.name == "Fusion" then ReferenceRecord(cfg, ref, u, w)
            else
              var c := Context(ref.chro, ref.strand == Some("-"), w.nts, refSeq, u.altSeq, w.exonLabel, w.fusion);
              match Normalised(c, w.name, u.variant1, u.startOff)
              case Err(e) => Err(e)
              case Ok(call) => MutationRecord(cfg, ref, u, call)
  }

  /** Lines 157-447 for one input line: a comment updates the stream
      state; after a comment a target is required; a line the info filter
      rejects is skipped; otherwise the record is read in the layout the
      header flag selects. A header-region line with at most one field or
      starting with "Database" contributes nothing. */
  function Step(cfg: Config, ref: Option<Reference>, st: Stream, line: string): (r: Result<(Stream, Emit)>)
    ensures r.Ok? ==> Fits(cfg.format, r.value.1)
    ensures |line| == 0 ==> r.Err?
    ensures |line| > 0 && line[0] != '#' ==> (r.Ok? ==> r.value.0 == st)
    ensures |line| > 0 && line[0] != '#' && st.header && ref.None? ==> r == Err(MissingTarget)
    ensures |line| > 0 && line[0] != '#' && (st.header ==> ref.Some?) && !cfg.info(line) ==> r == Ok((st, Nothing))
  {
    if |line| == 0 then Err(IndexOutOfRange)
    else if line[0] == '#' then
      match CommentStep(st, line)
      case Err(e) => Err(e)
      case Ok(st') => Ok((st', Nothing))
    else if st.header && ref.None? then Err(MissingTarget)
    else if !cfg.info(line) then Ok((st, Nothing))
    else
      var tok := Split(StripNewlines(line), "\t");
      var e := if !st.header then PlainRecord(cfg, tok)
               else if |tok| > 1 && tok[0] != "Database" then UpstreamRecord(cfg, ref.value, st.mode, tok)
               else Ok(Nothing);
      match e
      case Err(x) => Err(x)
      case Ok(em) => Ok((st, em))
  }

  /** Lines 177-196 and 417: before any comment, a flat report writes a
      sixteen-column record back exactly as it was read, without its line
      terminator. */
  lemma PlainLinePassesThrough(cfg: Config, ref: Option<Reference>, st: Stream, line: string)
    requires cfg.format == Flat && !st.header && cfg.info(line)
    requires |line| > 0 && line[0] != '#'
    requires |Split(StripNewlines(line), "\t")| == FlatColumns
    ensures Step(cfg, ref, st, line) == Ok((st, Line(StripNewlines(line))))
  {
    var tok := Split(StripNewlines(line), "\t");
    assert tok[..FlatColumns] == tok;
    assert PlainRecord(cfg, tok) == Ok(Line(StripNewlines(line)));
  }

  // ---------------------------------------------------------------------------
  // The stream

  /** What reading one line does to the stream state. */
  type Reading = (Stream, string) -> Result<(Stream, Emit)>

  /** The reading of the report configured by `cfg`. */
  function Reader(cfg: Config, ref: Option<Reference>): Reading {
    (st, line) => Step(cfg, ref, st, line)
  }

  /** The state and the contributions after the first `n` lines, or the
      first failure. */
  function Run(read: Reading, input: seq<string>, n: nat): Result<(Stream, seq<Emit>)>
    requires n <= |input|
    decreases n
  {
    if n == 0 then Ok((Start, []))
    else
      match Run(read, input, n - 1)
      case Err(e) => Err(e)
      case Ok((st, es)) =>
        match read(st, input[n - 1])
        case Err(e) => Err(e)
        case Ok((st', em)) => Ok((st', es + [em]))
  }

  /** A line that is read extends the run by its contribution. */
  lemma RunSteps(read: Reading, input: seq<string>, i: nat, st: Stream, es: seq<Emit>, st': Stream, em: Emit)
    requires i < |input| && Run(read, input, i) == Ok((st, es))
    requires read(st, input[i]) == Ok((st', em))
    ensures Run(read, input, i + 1) == Ok((st', es + [em]))
  {
  }

  /** Once a line fails, the run fails: later lines are never read. */
  lemma {:induction false} RunErrorPersists(read: Reading, input: seq<string>, n: nat, m: nat)
    requires n <= m <= |input| && Run(read, input, n).Err?
    ensures Run(read, input, m).Err?
    decreases m
  {
    if m > n {
      RunErrorPersists(read, input, n, m - 1);
    }
  }

  /** Every contribution `read` makes fits `format`. */
  ghost predicate ReadsFitting(read: Reading, format: Format) {
    forall st: Stream, line: string :: read(st, line).Ok? ==> Fits(format, read(st, line).value.1)
  }

  lemma ReaderFits(cfg: Config, ref: Option<Reference>)
    ensures ReadsFitting(Reader(cfg, ref), cfg.format)
  {
    forall st: Stream, line: string | Reader(cfg, ref)(st, line).Ok?
      ensures Fits(cfg.format, Reader(cfg, ref)(st, line).value.1)
    {
      assert Reader(cfg, ref)(st, line) == Step(cfg, ref, st, line);
    }
  }

  /** A run of a reading whose contributions fit the format tallies
      nothing for the flat or VCF report, and writes no line for the table. */
  lemma {:induction false} RunFits(read: Reading, format: Format, input: seq<string>, n: nat)
    requires ReadsFitting(read, format)
    requires n <= |input| && Run(read, input, n).Ok?
    ensures format != Table ==> Tallies(Run(read, input, n).value.1) == []
    ensures format == Table ==> Lines(Run(read, input, n).value.1) == []
    decreases n
  {
    if n > 0 {
      RunFits(read, format, input, n - 1);
      var (st, es) := Run(read, input, n - 1).value;
      var em := read(st, input[n - 1]).value.1;
      assert Run(read, input, n).value.1 == es + [em];
      LinesSnoc(es, em);
      TalliesSnoc(es, em);
    }
  }

  /** A run of the flat or VCF report tallies nothing, and one of the
      table writes no line until the matrix. */
  lemma RunKinds(cfg: Config, ref: Option<Reference>, input: seq<string>, n: nat)
    requires n <= |input| && Run(Reader(cfg, ref), input, n).Ok?
    ensures cfg.format != Table ==> Tallies(Run(Reader(cfg, ref), input, n).value.1) == []
    ensures cfg.format == Table ==> Lines(Run(Reader(cfg, ref), input, n).value.1) == []
  {
    ReaderFits(cfg, ref);
    RunFits(Reader(cfg, ref), cfg.format, input, n);
  }

  /** The lines written, in order. */
  function Lines(es: seq<Emit>): seq<string>
    decreases |es|
  {
    if |es| == 0 then []
    else Lines(es[..|es| - 1]) + (if es[|es| - 1].Line? then [es[|es| - 1].text] else [])
  }

  /** The table entries, in order. */
  function Tallies(es: seq<Emit>): seq<Entry>
    decreases |es|
  {
    if |es| == 0 then []
    else Tallies(es[..|es| - 1]) + (if es[|es| - 1].Tally? then [es[|es| - 1].entry] else [])
  }

  lemma LinesSnoc(es: seq<Emit>, em: Emit)
    ensures Lines(es + [em]) == Lines(es) + (if em.Line? then [em.text] else [])
  {
    assert (es + [em])[..|es|] == es;
  }

  lemma TalliesSnoc(es: seq<Emit>, em: Emit)
    ensures Tallies(es + [em]) == Tallies(es) + (if em.Tally? then [em.entry] else [])
  {
    assert (es + [em])[..|es|] == es;
  }

  /** `lines` is the matrix for the entries `h`, with the columns in
      `order` and the rows in `rowSamples`. */
  predicate MatrixOf(lines: seq<string>, order: seq<Key>, rowSamples: seq<string>, h: seq<Entry>) {
    DataMapShape(h);
    && SortedKeys(order, CountMap(h))
    && Enumerates(rowSamples, SampleMap(h).Keys)
    && |lines| == |rowSamples| + 1
    && lines[0] == Row("Sample", HeaderCells(order))
    && forall i :: 0 <= i < |rowSamples| ==>
         lines[i + 1] == Row(rowSamples[i], Cells(SampleMap(h)[rowSamples[i]], DataMap(h)[rowSamples[i]], order))
  }

  /** Lines 417-447 for one contribution: a line is written, an entry is
      tallied; `es` are the contributions before it and `prefix` what was
      written before the first. */
  method Absorb(agg: Aggregator, out: seq<string>, em: Emit, ghost prefix: seq<string>, ghost es: seq<Emit>)
    returns (out': seq<string>)
    requires agg.Valid() && agg.history == Tallies(es) && out == prefix + Lines(es)
    modifies agg
    ensures agg.Valid() && agg.history == Tallies(es + [em])
    ensures out' == prefix + Lines(es + [em])
  {
    LinesSnoc(es, em);
    TalliesSnoc(es, em);
    out' := out;
    match em {
      case Line(t) => out' := out + [t];
      case Tally(e) => agg.Add(e.sample, e.key, e.ratio);
      case Nothing =>
    }
  }

  /** Lines 452-470: the matrix of everything tallied. */
  method MatrixLines(agg: Aggregator) returns (lines: seq<string>)
    requires agg.Valid()
    ensures exists order, rowSamples :: MatrixOf(lines, order, rowSamples, agg.history)
  {
    var order, rowSamples;
    lines, order, rowSamples := agg.Matrix();
    assert MatrixOf(lines, order, rowSamples, agg.history);
  }

  /** One line of the loop at line 157: the state, the lines written and
      the entries tallied follow the run one line further, or the run
      fails there. */
  method Advance(read: Reading, input: seq<string>, i: nat, agg: Aggregator, out: seq<string>, st: Stream,
                 ghost prefix: seq<string>, ghost es: seq<Emit>)
    returns (r: Result<(Stream, seq<string>)>, ghost es': seq<Emit>)
    requires i < |input| && Run(read, input, i) == Ok((st, es))
    requires agg.Valid() && agg.history == Tallies(es) && out == prefix + Lines(es)
    modifies agg
    ensures r.Err? <==> Run(read, input, i + 1).Err?
    ensures r.Err? ==> Run(read, input, |input|).Err?
    ensures r.Ok? ==> Run(read, input, i + 1) == Ok((r.value.0, es'))
    ensures r.Ok? ==> agg.Valid() && agg.history == Tallies(es') && r.value.1 == prefix + Lines(es')
  {
    es' := es;
    var s := read(st, input[i]);
    if s.Err? {
      RunErrorPersists(read, input, i + 1, |input|);
      return Err(s.error), es;
    }
    var (st', em) := s.value;
    RunSteps(read, input, i, st, es, st', em);
    var out' := Absorb(agg, out, em, prefix, es);
    es' := es + [em];
    r := Ok((st', out'));
  }

  /** The loop at lines 157-447 and the output at 449-470: the flat
      report is its header and the lines written, the VCF report the
      lines written, the table the matrix of the entries tallied. */
  method Fold(read: Reading, format: Format, input: seq<string>) returns (r: Result<seq<string>>)
    ensures r.Ok? <==> Run(read, input, |input|).Ok?
    ensures r.Ok? && format == Flat ==> r.value == [FlatHeader()] + Lines(Run(read, input, |input|).value.1)
    ensures r.Ok? && format == Vcf ==> r.value == Lines(Run(read, input, |input|).value.1)
    ensures r.Ok? && format == Table ==>
              exists order, rowSamples :: MatrixOf(r.value, order, rowSamples, Tallies(Run(read, input, |input|).value.1))
  {
    var agg := new Aggregator();
    var written, es := Drive(read, input, agg, if format == Flat then [FlatHeader()] else []);
    if written.Err? {
      return Err(written.error);
    }
    var out := Finish(agg, format, written.value, es);
    r := Ok(out);
  }

  /** The loop at lines 157-447: read every line, writing after `prefix`
      and tallying into `agg`, or stop at the first failure. */
  method Drive(read: Reading, input: seq<string>, agg: Aggregator, prefix: seq<string>)
    returns (r: Result<seq<string>>, ghost es: seq<Emit>)
    requires agg.Valid() && agg.history == []
    modifies agg
    ensures r.Ok? <==> Run(read, input, |input|).Ok?
    ensures r.Ok? ==> Run(read, input, |input|).value.1 == es
    ensures r.Ok? ==> agg.Valid() && agg.history == Tallies(es) && r.value == prefix + Lines(es)
  {
    var out := prefix;
    var st := Start;
    es := [];
    for i := 0 to |input|
      invariant Run(read, input, i) == Ok((st, es))
      invariant agg.Valid() && agg.history == Tallies(es)
      invariant out == prefix + Lines(es)
    {
      var step;
      step, es := Advance(read, input, i, agg, out, st, prefix, es);
      if step.Err? {
        return Err(step.error), es;
      }
      st, out := step.value.0, step.value.1;
    }
    r := Ok(out);
  }

  /** Lines 449-470: the flat report and the VCF keep the lines written,
      the table replaces them by the matrix of the entries tallied. */
  method Finish(agg: Aggregator, format: Format, out: seq<string>, ghost es: seq<Emit>) returns (lines: seq<string>)
    requires agg.Valid() && agg.history == Tallies(es)
    requires out == (if format == Flat then [FlatHeader()] else []) + Lines(es)
    ensures format == Flat ==> lines == [FlatHeader()] + Lines(es)
    ensures format == Vcf ==> lines == Lines(es)
    ensures format == Table ==> exists order, rowSamples :: MatrixOf(lines, order, rowSamples, Tallies(es))
  {
    lines := out;
    if format == Table {
      lines := MatrixLines(agg);
    }
  }

  /** Lines 157-470 once the reference is indexed. */
  method StreamReport(cfg: Config, ref: Option<Reference>, input: seq<string>) returns (r: Result<seq<string>>)
    ensures r.Ok? <==> Run(Reader(cfg, ref), input, |input|).Ok?
    ensures r.Ok? && cfg.format == Flat ==> r.value == [FlatHeader()] + Lines(Run(Reader(cfg, ref), input, |input|).value.1)
    ensures r.Ok? && cfg.format == Vcf ==> r.value == Lines(Run(Reader(cfg, ref), input, |input|).value.1)
    ensures r.Ok? && cfg.format == Table ==>
              exists order, rowSamples ::
                MatrixOf(r.value, order, rowSamples, Tallies(Run(Reader(cfg, ref), input, |input|).value.1))
  {
    r := Fold(Reader(cfg, ref), cfg.format, input);
  }

  /** `create_report`: index the target when one is given, then stream;
      `ref` is the reference the records are read against. */
  method CreateReport(cfg: Config, target: Option<seq<string>>, input: seq<string>)
    returns (r: Result<seq<string>>, ghost ref: Option<Reference>)
    ensures target.Some? && !ReferenceOk(target.value) ==> r.Err?
    ensures target.None? ==> ref.None?
    ensures target.Some? && ReferenceOk(target.value) ==> ref.Some? && Indexes(target.value, ref.value)
    ensures target.None? || ReferenceOk(target.value) ==> (r.Ok? <==> Run(Reader(cfg, ref), input, |input|).Ok?)
    ensures r.Ok? && cfg.format == Flat ==> r.value == [FlatHeader()] + Lines(Run(Reader(cfg, ref), input, |input|).value.1)
    ensures r.Ok? && cfg.format == Vcf ==> r.value == Lines(Run(Reader(cfg, ref), input, |input|).value.1)
    ensures r.Ok? && cfg.format == Table ==>
              exists order, rowSamples ::
                MatrixOf(r.value, order, rowSamples, Tallies(Run(Reader(cfg, ref), input, |input|).value.1))
  {
    var known: Option<Reference> := None;
    if target.Some? {
      var indexed := IndexReference(target.value);
      if indexed.Err? {
        return Err(indexed.error), None;
      }
      known := Some(indexed.value);
    }
    ref := known;
    r := StreamReport(cfg, known, input);
  }
}
