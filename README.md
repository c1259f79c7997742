# km find_report, modelled in Dafny

This project models the report stage of the km k-mer variant finder,
`km/tools/find_report.py`. That stage reads the records km writes for each
target sequence. When a target file is given, it first indexes the target
FASTA (`init_ref_seq`). It then maps each record's window offsets to genome
coordinates and normalises the alleles of each mutation by extending them over
tandem repeats (`get_full_mut`). It classifies each mutation as Insertion, ITD,
I&I, Deletion, Substitution or Indel. Finally it writes one of three reports:
the sixteen-column flat report, a VCF body, or a sample-by-variant ratio table.

Layout, one module per part of the program:

| file | module | models |
|---|---|---|
| results.dfy | Results | `Option`, `Result`, and the errors the program stops on (an IndexError, KeyError, ValueError or `sys.exit` of the source is an `Err`) |
| pytext.dfy | PyText | The Python text semantics the code relies on: `split`, `join`, `in`/`find`, `strip`, `upper`, `replace`, `int()`, `str()`, negative indexing and clamped slicing |
| cigar.dfy | Cigar | The CIGAR decoding of `init_ref_seq`: the minus-strand rewrite, the run mask, and the kept positions |
| refindex.dfy | RefIndex | `init_ref_seq` as a loop over the target file's lines, with its checks |
| coordinates.dfy | Coordinates | The window of positions for a record in fusion and mutation mode, and the offset-to-genome mapping |
| repeat.dfy | RepeatExtension | `get_full_mut` with its loops |
| normalise.dfy | Normalise | The per-type placement and classification of a mutation |
| vcf.dfy | VcfOut | The line builders, the minus-strand reverse complement, and the VCF suppression rules |
| table.dfy | TableOut | The table aggregation (`class Aggregator`) and the matrix rows |
| report.dfy | Report | The `create_report` loop: one step per input line, and the three outputs |

The imperative parts of the source keep their loops:
- the line loop of `init_ref_seq`, with its CIGAR and position loops;
- the rewind and extension loops of `get_full_mut`;
- the I&I match count;
- the dictionary updates of the table;
- the matrix loops;
- the record loop of `create_report`.

Each of these methods is proved equal to a specification function. The
properties are then proved about those functions.

Two points where the code does something other than a plain reading of the
tool's description, and where the model follows the code (the one place where
it does not, the pooled reference sequence, is under "## Findings"):
- **The minus-strand CIGAR rewrite.** The rewrite at lines 84-86 reverses the
  sequence of (length, operator) groups and keeps each length with its own
  operator; nothing is swapped. `Cigar.MinusRewriteGroups` states this.
- **The table cell rule.** Line 464 writes "." for a zero ratio whenever the
  key's name does *not* mention "Reference", rather than only for
  Reference keys. `TableOut.CellCases` states the rule as coded.

## Model

| member | source | states |
|---|---|---|
| PyText.Reverse | km/tools/find_report.py:84 | `s[::-1]`: same length, element k is element `len-1-k` |
| PyText.ReverseReverse | km/tools/find_report.py:333-334 | reversing twice gives the sequence back |
| PyText.ReverseSlice | km/tools/find_report.py:333-335 | turning back a slice of the reversed sequence is the mirrored slice of the sequence |
| PyText.Find | km/tools/find_report.py:63 | `str.find`: an occurrence, with none earlier; None exactly when the pattern never occurs |
| PyText.Split | km/tools/find_report.py:62 | `str.split(sep)`: at least one piece, no piece holds the separator, and joining the pieces gives the string back |
| PyText.SplitJoin | km/tools/find_report.py:11-13 | splitting a join of separator-free pieces gives the pieces back |
| PyText.JoinSnoc | km/tools/find_report.py:453-458 | joining one more piece appends the separator and that piece |
| PyText.StripBy | km/tools/find_report.py:55 | `strip`: the result neither starts nor ends with a stripped character and is no longer than the input |
| PyText.Upper | km/tools/find_report.py:321-322 | `upper`: same length, each character upper-cased |
| PyText.ParseInt | km/tools/find_report.py:94 | `int(text)` succeeds only on text that is not blank after stripping |
| PyText.IntToString | km/tools/find_report.py:35 | `str(i)` is non-empty and carries no surrounding blanks |
| PyText.NatToStringValue | km/tools/find_report.py:303-304 | the decimal text of n is all digits and reads back as n |
| PyText.IntToStringRoundTrip | km/tools/find_report.py:35 | `int(str(i)) == i` for every integer |
| PyText.PyIndex | km/tools/find_report.py:313-317 | `s[i]`: defined exactly for `-len <= i < len`, counting from the end when negative |
| PyText.PySlice | km/tools/find_report.py:235 | `s[lo:hi]` never fails, is no longer than `s`, and is `s[lo..hi]` for in-range bounds |
| Cigar.Groups | km/tools/find_report.py:84 | the (length, operator) groups of `re.split("([^\d])", cigar)[:-1]`: each length is digits, each operator a non-digit |
| Cigar.GroupsOfRender | km/tools/find_report.py:84-86 | reading the groups of a rendered group list gives the list back |
| Cigar.GroupsAfterFirst | km/tools/find_report.py:84 | a well-formed group written in front of a text is read back as the first group, followed by the text's groups |
| Cigar.RenderFirstGroup | km/tools/find_report.py:84-86 | the groups of a CIGAR with an operator render as its first length and operator, followed by the rendering of the rest |
| Cigar.RenderOfGroups | km/tools/find_report.py:84-86 | a CIGAR that ends in an operator is the rendering of its groups |
| Cigar.MinusRewriteGroups | km/tools/find_report.py:83-86 | the minus-strand rewrite reverses the order of the groups and keeps each length with its operator |
| Cigar.MinusRewriteTwice | km/tools/find_report.py:83-86 | rewriting twice gives the CIGAR without trailing digits |
| Cigar.MinusRewriteInvolution | km/tools/find_report.py:83-86 | on a CIGAR ending in an operator, rewriting twice is the identity |
| Cigar.RunLengthsMinus | km/tools/find_report.py:83-88 | the run lengths of the rewritten CIGAR are the reversed run lengths, and the two decodings fail together |
| Cigar.LengthsOfReverse | km/tools/find_report.py:88 | the lengths of reversed groups are the reversed lengths |
| Cigar.RunMask | km/tools/find_report.py:88-93 | the mask is as long as the runs together |
| Cigar.RunMaskAt | km/tools/find_report.py:88-93 | base j of run i, at offset Sum(runs[..i]) + j, is in the mask, true exactly for even-indexed runs |
| Cigar.MaskAtOffset | km/tools/find_report.py:88-93 | the mask keeps an offset exactly when it falls in an even-indexed (match) run |
| Cigar.RunMaskCovers | km/tools/find_report.py:88-93 | every mask offset lies in some run |
| Cigar.ExpandRuns | km/tools/find_report.py:88-93 | the nested loop builds exactly the run mask |
| Cigar.KeptMembers | km/tools/find_report.py:94-96 | a position is kept exactly when it lies in the interval and its mask entry is true |
| Cigar.KeptIncreasing | km/tools/find_report.py:94-96 | the kept positions are strictly increasing |
| Cigar.KeptAll | km/tools/find_report.py:94-96 | an all-true mask keeps the whole interval in order |
| Cigar.MaskedPositions | km/tools/find_report.py:87-96 | a position is kept exactly when it is in `[refstart, refstop]` and its offset falls in an even-indexed (match) run |
| Cigar.SelectPositions | km/tools/find_report.py:94-96 | the loop keeps the masked positions of the interval; it fails (IndexError) exactly when the mask is shorter than the interval |
| Cigar.IntervalPositions | km/tools/find_report.py:97-101 | without strand and CIGAR the positions are exactly `refstart, ..., refstop` |
| RefIndex.AttributeMap | km/tools/find_report.py:67 | the attribute dictionary keeps every key already read |
| RefIndex.HeaderAttributes | km/tools/find_report.py:62-67 | a location token that lacks "chr", ":" or "-" is refused; a decoded header always has its "location" |
| RefIndex.KeySegment | km/tools/find_report.py:66-67 | after `key=`, with a key free of "\|" and "=", the first segment files its value under the key and the rest are read after it |
| RefIndex.HeaderAttributesAsReplaced | km/tools/find_report.py:62-67 | for a well-formed location, the attributes are those of the line with ">" replaced by "location=" and split on "\|" |
| RefIndex.SplitLocation | km/tools/find_report.py:76-77 | `chro:start-stop` is rebuilt from its three parts, none of which holds its separator |
| RefIndex.CigarNts | km/tools/find_report.py:80-96 | with strand and CIGAR, every position kept lies in `[refstart, refstop]`, and both bounds are numbers |
| RefIndex.IntervalNts | km/tools/find_report.py:97-101 | without them, the positions are `start, start + 1, ..., stop`, one per place and as many as the interval holds; the interval decodes exactly when the bounds are numbers |
| RefIndex.HeaderEntry | km/tools/find_report.py:75-103 | the strand is known exactly when the header carries both `strand` and `cigar`, and it is the header's strand |
| RefIndex.ComputeCigarNts | km/tools/find_report.py:80-96 | the loops compute `CigarNts` |
| RefIndex.ComputeIntervalNts | km/tools/find_report.py:99-101 | the loop computes `IntervalNts` |
| RefIndex.ComputeHeader | km/tools/find_report.py:75-103 | the loops compute the header's entry |
| RefIndex.DecodeHeader | km/tools/find_report.py:58-103 | a header line decodes exactly when its attributes and its entry do |
| RefIndex.Classify | km/tools/find_report.py:55-58 | a stripped line is blank, a header (starting with ">") or sequence text |
| RefIndex.LastHeader | km/tools/find_report.py:58-111 | the header a sequence line belongs to is the last one before it |
| RefIndex.HeaderStep | km/tools/find_report.py:58-105 | a good header line with the first header's keys keeps the loop invariant |
| RefIndex.SequenceStep | km/tools/find_report.py:106-119 | a sequence line after a header keeps the loop invariant |
| RefIndex.ExonIndexLastHeader | km/tools/find_report.py:112-116 | the current header's exon key maps to its positions |
| RefIndex.ReadHeader | km/tools/find_report.py:58-73 | a header is read exactly when it decodes and its keys are the first header's |
| RefIndex.ScanLine | km/tools/find_report.py:54-119 | one line keeps the loop invariant, and it fails only on a file that is not acceptable |
| RefIndex.IndexReference | km/tools/find_report.py:41-131 | succeeds exactly on an acceptable file; gives the first header's chromosome and strand; pools positions and sequence in mutation mode; keys positions by exon in fusion mode (`Indexes`) |
| RefIndex.PlainLine | km/tools/find_report.py:55-58 | how a line that is not a header is classified |
| RefIndex.FailingLine | km/tools/find_report.py:63-73 | one failing line makes the whole file fail |
| RefIndex.HeaderInSets | km/tools/find_report.py:118-119 | every header's chromosome and strand are in the sets checked |
| RefIndex.SetsWithin | km/tools/find_report.py:126-129 | the sets lie within one value exactly when every header has that value |
| RefIndex.OneChromosomeOneStrand | km/tools/find_report.py:126-129 | the file passes the final checks exactly when every header names the first header's chromosome and strand |
| RefIndex.HeaderHasKey | km/tools/find_report.py:112-116 | in exon mode every header has `name` and `n`, and so exactly one key |
| RefIndex.ExonIndexHasHeader | km/tools/find_report.py:112-116 | every header's key is in the exon index |
| RefIndex.ExonIndexKeys | km/tools/find_report.py:112-116 | the exon index has a key exactly when some header carries it |
| RefIndex.ExonIndexLastWins | km/tools/find_report.py:113 | a key repeated in the file maps to the positions of its last header |
| RefIndex.PooledSeqAsWritten | km/tools/find_report.py:108-110 | the pooled sequence as line 110 builds it is never shorter than the concatenated sequence lines |
| RefIndex.PooledSeqAsWrittenRepeats | km/tools/find_report.py:110 | a record written over two lines "AC", "GT" pools as "ACACGT" where the corrected pooling gives "ACGT" |
| Coordinates.ParseFusionName | km/tools/find_report.py:226-228 | a name unpacks exactly when it has one "/"; the fusion mark is set exactly when the name mentions "Fusion"; an unmarked name is rebuilt from its parts |
| Coordinates.TokenKeys | km/tools/find_report.py:229 | the keys of one exon token; a token without "e" fails |
| Coordinates.TokenKeysOfToken | km/tools/find_report.py:229 | the keys of `gene + "e" + n1-n2-...` are `gene + "e" + ni`, in order |
| Coordinates.KeysOf | km/tools/find_report.py:229 | a token list has keys exactly when every token has an "e", at least one key per token |
| Coordinates.ExonNts | km/tools/find_report.py:231-234 | the exons' positions concatenated; it fails exactly when a key is missing (KeyError); the length is their total |
| Coordinates.ExonNtsMinus | km/tools/find_report.py:231-234 | on the minus strand the result is the plus-strand concatenation of the exons in reverse order, read backwards |
| Coordinates.ExonNtsSingle | km/tools/find_report.py:233-234 | one exon gives its own positions |
| Coordinates.ExonNtsFront | km/tools/find_report.py:233-234 | the concatenation over `a + b` is the one over `a` followed by the one over `b` |
| Coordinates.FusionNts | km/tools/find_report.py:231-235 | the fusion window is defined exactly when every key is known and `start_off` is a number; when `0 <= start_off`, its length is the exons' total minus `start_off` (zero if that is negative) |
| Coordinates.MutationNts | km/tools/find_report.py:237-244 | the mutation window is as long as `all_nts`: all `-12` when the strand is unknown, its exact reverse on minus, itself otherwise; an exon-keyed reference fails |
| Coordinates.AssembleWindow | km/tools/find_report.py:224-245 | in fusion mode the window holds the fusion prefix, name, exon label and the sliced exon positions; in mutation mode the variant name and the pooled positions; in both, a window is produced exactly when its parts can be computed and it is at least as long as the reference sequence; any other mode is refused |
| Coordinates.ReferenceRegion | km/tools/find_report.py:250-253 | the region of a record without a mutation runs from the last to the first position on minus, the other way otherwise |
| Coordinates.Offsets | km/tools/find_report.py:307-310 | the 0-based offsets, defined exactly when the three numbers parse, with `end - pos == stop - start - 1` |
| Coordinates.GenomeSpan | km/tools/find_report.py:312-317 | `nts[pos-1] + 1` and `nts[end-1] + 1`, swapped and stepping by `-1` on minus, defined exactly when Python's indexing is |
| Coordinates.GenomeSpanOrdered | km/tools/find_report.py:312-317 | on a window that runs along the genome, `start_pos <= end_pos` |
| Coordinates.GenomeSpanAtWindowStart | km/tools/find_report.py:316 | an edit at the first window base reads the last position (negative indexing) |
| RepeatExtension.MatchingPositions | km/tools/find_report.py:269 | only positions holding the base before `p` are listed |
| RepeatExtension.MatchingPositionsComplete | km/tools/find_report.py:269 | every such position is listed |
| RepeatExtension.Compare | km/tools/find_report.py:276-280 | the comparison matches exactly when the variant is a prefix of the continuation, and fails with IndexError exactly when the continuation runs out first |
| RepeatExtension.Search | km/tools/find_report.py:270-285 | a rewind found lies between the start and `p` |
| RepeatExtension.SearchFirst | km/tools/find_report.py:270-285 | the rewind found is the smallest that gives a pattern; none is found only when no rewind does; it fails only at a failing rewind |
| RepeatExtension.Extend | km/tools/find_report.py:290-294 | the extension point lies between 0 and its start |
| RepeatExtension.ExtendStops | km/tools/find_report.py:290-294 | the extension stops where the period before it is not a copy of the pattern, or does not fit |
| RepeatExtension.ExtendCopies | km/tools/find_report.py:290-294 | the bases stepped over are whole copies of the pattern |
| RepeatExtension.ExtendFrom | km/tools/find_report.py:288-294 | from the pattern's own copy the bases up to `p` are one more whole copy, and the period before the extension point is not a copy (or does not fit) |
| RepeatExtension.Pattern | km/tools/find_report.py:265-285 | a pattern found is non-empty and no longer than `p` |
| RepeatExtension.PatternIsSuffix | km/tools/find_report.py:282 | the pattern is the stretch of the reference ending at `p` |
| RepeatExtension.FullMutIsSlice | km/tools/find_report.py:264-298 | `get_full_mut` returns `(rs[bef_pos:p], bef_pos)` with `bef_pos <= p - 1` |
| RepeatExtension.FullMutInRange | km/tools/find_report.py:264-298 | inside the reference, `0 <= bef_pos <= p - 1` and the result is `rs[bef_pos..p]` |
| RepeatExtension.FullMutWithoutPattern | km/tools/find_report.py:265-266 | without a pattern the result is the single base `rs[p-1]` |
| RepeatExtension.FullMutWithPattern | km/tools/find_report.py:287-298 | with a pattern, the stretch to `p` is one or more whole copies; the period before it is not a copy; one anchor base is added when there is one |
| RepeatExtension.CompareSuffix | km/tools/find_report.py:276-280 | the comparison loop computes `Compare` |
| RepeatExtension.ScanRewind | km/tools/find_report.py:271-283 | one pass of the inner loop fails exactly at a failing rewind, and sets the pattern exactly at a rewind that finds one |
| RepeatExtension.FindPattern | km/tools/find_report.py:265-285 | the rewind loop computes the pattern |
| RepeatExtension.StepOverCopies | km/tools/find_report.py:287-292 | the `while` loop stops at the extension point `Extend` |
| RepeatExtension.GetFullMut | km/tools/find_report.py:264-298 | the loops compute `get_full_mut` |
| Normalise.ParseEdit | km/tools/find_report.py:300-301 | both unpackings fail as one malformed edit |
| Normalise.ParseEditRoundTrip | km/tools/find_report.py:300-301 | a parsed edit rebuilds `start:delet/insert:stop`, and no part holds the separator it was split on |
| Normalise.AddedTextSuffix | km/tools/find_report.py:366-371 | the "added" column carries the `" \| "` length suffix exactly when a span was kept |
| Normalise.PossibleItd | km/tools/find_report.py:354-357 | the unit is the first half of an insertion made of two equal halves, otherwise the whole insertion |
| Normalise.AgreementsBound | km/tools/find_report.py:359-364 | the agreement count is at most its length, and equal exactly when the prefixes agree |
| Normalise.MatchCount | km/tools/find_report.py:359-364 | the match count fails (IndexError) exactly when the upstream sequence is shorter than the unit; it is full exactly when they agree |
| Normalise.CountMatches | km/tools/find_report.py:361-364 | the `for` loop computes the match count |
| Normalise.KindOf | km/tools/find_report.py:354-371 | ITD exactly when the insertion has 3 or more bases, room before `pos`, and equals the upstream sequence; I&I exactly when it meets the same length and room conditions, is not an ITD, and `2 * match > len(unit)` (`match > 0.5`); otherwise a plain insertion |
| Normalise.EqualHalvesNeverItd | km/tools/find_report.py:354-367 | an insertion of two equal halves is never an ITD |
| Normalise.FlanksInReference | km/tools/find_report.py:332-335 | the two flanks lie in the reference around the edit |
| Normalise.ComputeFlanks | km/tools/find_report.py:332-335 | the two `get_full_mut` calls compute the flanks |
| Normalise.IndelCall | km/tools/find_report.py:397-403 | both alleles sit between the reference bases at `pos - 1` and `end + 1`, with the upper-cased edit between them, at `start_pos - 1` |
| Normalise.SubstitutionCall | km/tools/find_report.py:376-379 | the alleles are the edit's own bases, at `start_pos` |
| Normalise.UnknownTypeStops | km/tools/find_report.py:405-409 | any other variant name stops the run, unless the edit is an insertion |
| Normalise.InsertionPlacedAlleles | km/tools/find_report.py:336-337 | the insertion's reference allele is `before + after`, and its alternative has the inserted bases between them |
| Normalise.InsertionAlleles | km/tools/find_report.py:330-338 | inside the reference, `ref_var == before + after` and `alt_var == before + var + after`, around flanks found by `get_full_mut` |
| Normalise.DeletionPlacedAlleles | km/tools/find_report.py:389-390 | the deletion's alternative allele omits the deleted bases and its reference puts them back |
| Normalise.DeletionAlleles | km/tools/find_report.py:382-391 | inside the reference, `ref_var == before + var + after` and `alt_var == before + after`; when the deleted bases are the reference's own, the reference allele is one stretch of it |
| Normalise.InsertionPlacedLabels | km/tools/find_report.py:366-372 | an insertion's label is its kind plus the exon label, with a span exactly when it is not a plain insertion |
| Normalise.InsertionLabels | km/tools/find_report.py:327-372 | an edit that deletes nothing and inserts something is labelled Insertion, ITD or I&I whatever its name |
| Normalise.SpanOnlyForItd | km/tools/find_report.py:312-411 | whatever its type, a call carries the span of the `" \| "` suffix only when it is an insertion-shaped edit classified as ITD or I&I |
| Normalise.InsertionPlacedLength | km/tools/find_report.py:336-337 | the insertion's alternative allele is longer by the inserted bases |
| Normalise.DeletionPlacedLength | km/tools/find_report.py:389-390 | the deletion's reference allele is longer by the deleted bases |
| Normalise.LengthDifference | km/tools/find_report.py:327-403 | for every type, and for a Deletion only when it inserts nothing, the allele lengths differ by `len(insert) - len(delet)` |
| Normalise.ClassifyInsertion | km/tools/find_report.py:354-371 | the code computes `KindOf` |
| Normalise.PlaceInsertion | km/tools/find_report.py:336-377 | the code computes the insertion's call from its flanks |
| Normalise.NormaliseInsertion | km/tools/find_report.py:327-377 | the code computes the insertion's call |
| Normalise.NormaliseDeletion | km/tools/find_report.py:381-395 | the code computes the deletion's call |
| Normalise.NormaliseEdit | km/tools/find_report.py:312-411 | the code computes the classified call |
| Normalise.NormaliseRecord | km/tools/find_report.py:299-411 | the code computes the normalised call of one record |
| VcfOut.FlatLineColumns | km/tools/find_report.py:11-13 | a flat line of tab-free fields splits back into its sixteen fields |
| VcfOut.FlatHeader | km/tools/find_report.py:152-155 | the flat header has sixteen columns |
| VcfOut.VcfLineColumns | km/tools/find_report.py:34-37 | a VCF line has eight columns, with CHROM, POS, REF and ALT where the format puts them |
| VcfOut.ReverseComplement | km/tools/find_report.py:424-426 | `translate(ATGCU→TACGA)[::-1]` keeps the length and puts the complement of base `len-1-k` at k |
| VcfOut.ReverseComplementBases | km/tools/find_report.py:424-426 | on A, C, G and T it gives A, C, G and T |
| VcfOut.ReverseComplementInvolution | km/tools/find_report.py:424-426 | on A, C, G and T, applying it twice is the identity |
| VcfOut.ReverseComplementOfU | km/tools/find_report.py:424 | U has no inverse: applying it twice to "U" gives "T" |
| VcfOut.OrientedAlleles | km/tools/find_report.py:425-426 | the alleles keep their lengths; they are unchanged off the minus strand, and on it they are reverse-complemented, reversibly on bases |
| VcfOut.SplitType | km/tools/find_report.py:427-428 | a type with one "/" splits into the bare type and the exon label, which replaces the query; any other number of "/" fails; a type without "/" is kept |
| VcfOut.VcfRecord | km/tools/find_report.py:423-431 | a record is written exactly when its query has no "::" or junctions were asked for; its line carries the oriented alleles and the split type |
| VcfOut.JunctionLabelSuppressed | km/tools/find_report.py:427-431 | an exon-labelled call across a junction is suppressed unless junctions were asked for |
| TableOut.VarName | km/tools/find_report.py:434 | the variant name gets "/" and the query unless it already holds a "/" |
| TableOut.CountMapCounts | km/tools/find_report.py:437-439 | `variants[key]` is the number of accepted records with that key, for exactly the keys seen |
| TableOut.CountPositive | km/tools/find_report.py:437-439 | a key is counted exactly when some record carries it |
| TableOut.SampleMapHas | km/tools/find_report.py:441-443 | a sample lists a key exactly when some record pairs them |
| TableOut.DataMapShape | km/tools/find_report.py:441-447 | `data` has a ratio for exactly the keys `samples` lists, so the lookup of line 464 never fails |
| TableOut.DataMapLast | km/tools/find_report.py:445-447 | the stored ratio is that of the last record with the sample and key |
| TableOut.AddStep | km/tools/find_report.py:437-447 | one more record updates each dictionary only at its own sample and key |
| TableOut.HeaderCells | km/tools/find_report.py:453-457 | one header cell per column |
| TableOut.Cells | km/tools/find_report.py:461-469 | one cell per column |
| TableOut.CellCases | km/tools/find_report.py:461-469 | "." when the sample lacks the key, or when the key's name does not mention Reference and the ratio is zero; the ratio otherwise |
| TableOut.RowIsJoin | km/tools/find_report.py:453-458 | writing cell by cell is the tab-join of the row |
| TableOut.RowFields | km/tools/find_report.py:453-470 | a row of tab-free cells splits into its first cell and one cell per column |
| TableOut.MaxKey | km/tools/find_report.py:450 | a key of the rest with the largest count |
| TableOut.SortByCount | km/tools/find_report.py:450 | every counted key is listed once, by non-increasing count |
| TableOut.HeaderRow | km/tools/find_report.py:452-458 | the header row is "Sample" and the header cells |
| TableOut.SampleRow | km/tools/find_report.py:460-470 | a sample's row is its name and its cells |
| TableOut.SampleRows | km/tools/find_report.py:460-470 | one row per sample, each sample once |
| TableOut.Tally | km/tools/find_report.py:437-439 | one more occurrence of the key |
| TableOut.Collect | km/tools/find_report.py:441-443 | the key is added to the sample's set |
| TableOut.Store | km/tools/find_report.py:445-447 | the ratio is stored over any earlier one |
| TableOut.Aggregator.constructor | km/tools/find_report.py:135-137 | the three dictionaries start empty |
| TableOut.Aggregator.Add | km/tools/find_report.py:434-447 | the record is appended and the dictionaries stay the functions of all records |
| TableOut.Aggregator.Matrix | km/tools/find_report.py:449-470 | columns sorted by non-increasing count, one row per sample, a header row, and each row the sample's cells |
| Report.CommentStep | km/tools/find_report.py:159-164 | a comment sets the header flag; one mentioning "mode" names the mode after the first ":", and fails without one |
| Report.TableEmit | km/tools/find_report.py:433-447 | the table entry under the record's key; `float(ratio)` failing stops the run |
| Report.PlainRecord | km/tools/find_report.py:177-196 | a record before any comment needs at least sixteen fields; the flat report writes the first sixteen joined; VCF skips it |
| Report.UpstreamFields | km/tools/find_report.py:204-217 | an upstream record needs thirteen fields |
| Report.ReferenceRecord | km/tools/find_report.py:247-261 | a record without a mutation needs a non-empty window, and VCF skips it |
| Report.MutationRecord | km/tools/find_report.py:413-447 | in VCF mode a mutation is written exactly when `VcfRecord` writes it |
| Report.UpstreamRecord | km/tools/find_report.py:198-245 | too few fields and a non-numeric coverage stop the run, and a coverage below the minimum skips the record |
| Report.Step | km/tools/find_report.py:157-175 | an empty line fails; only comments change the state; after a comment, a record without a target stops the run; a line the info filter rejects is skipped; a contribution fits the format |
| Report.PlainLinePassesThrough | km/tools/find_report.py:177-196 | before any comment, a flat report writes a sixteen-column record back exactly as read |
| Report.RunErrorPersists | km/tools/find_report.py:167-168 | once a line fails, the report fails |
| Report.RunFits | km/tools/find_report.py:417-447 | when every contribution of a reading fits the format, a flat or VCF run tallies nothing and a table run writes no line |
| Report.RunKinds | km/tools/find_report.py:417-447 | the flat and VCF reports tally nothing and the table writes no line |
| Report.Absorb | km/tools/find_report.py:417-447 | a contribution is written or tallied |
| Report.MatrixLines | km/tools/find_report.py:449-470 | the table is the matrix of everything tallied |
| Report.Advance | km/tools/find_report.py:157 | one line moves the run on by its contribution, or fails with it |
| Report.Drive | km/tools/find_report.py:157-447 | the loop fails exactly when the run fails; otherwise the lines written follow the prefix, and the aggregator holds the entries tallied |
| Report.Finish | km/tools/find_report.py:449-470 | the flat report keeps its header and lines, the VCF body its lines, the table becomes the matrix of the entries |
| Report.Fold | km/tools/find_report.py:157-470 | the flat report is its header and the lines written; the VCF body is the lines written; the table is the matrix of the entries; the report fails exactly when some line does |
| Report.StreamReport | km/tools/find_report.py:146-470 | the same for the reading the configuration selects |
| Report.CreateReport | km/tools/find_report.py:134-470 | an unacceptable target file stops the report before any record; an acceptable one is indexed as `init_ref_seq` returns it; with that reference, or none without a target, the report succeeds exactly when the record stream runs through and is the flat header and lines written, the VCF lines, or the matrix of the tallied entries |

## Specification functions

The contracts above are stated about these functions, which carry the source's behaviour directly:

- `Normalise.Classified`: km/tools/find_report.py:312-411, one record with a mutation, by type.
- `Normalise.InsertionPlaced` and `Normalise.InsertionRecord`: km/tools/find_report.py:329-377, an insertion, ITD or I&I once its flanks are known.
- `Normalise.DeletionPlaced`: km/tools/find_report.py:383-397, a deletion once its flanks are known.
- `Normalise.FlanksOf`: km/tools/find_report.py:332-333 and 383-385, the two `get_full_mut` calls.
- `VcfOut.FlatLine`: km/tools/find_report.py:8-15, `print_line`.
- `VcfOut.VcfLine`: km/tools/find_report.py:34-38, `print_vcf_line`.
- `VcfOut.Complement`: km/tools/find_report.py:424, the `maketrans` table.
- `Cigar.MinusRewrite`: km/tools/find_report.py:83-85, the minus-strand CIGAR rewrite.
- `Cigar.RunLengths`: km/tools/find_report.py:87-88, the run lengths and their `int` conversion.
- `RefIndex.Scan` (with `RefIndex.ScanInv`): km/tools/find_report.py:54-115, the loop variables of `init_ref_seq`.
- `RefIndex.Indexes`: km/tools/find_report.py:117-132, the value `init_ref_seq` returns.
- `Report.Run`: km/tools/find_report.py:157-470, the record loop of `create_report`.
- `TableOut.CountMap`, `TableOut.SampleMap`, `TableOut.DataMap`: km/tools/find_report.py:437-447, the `variants`, `samples` and `data` dictionaries.
- `TableOut.Cell`: km/tools/find_report.py:463-469, one cell of the matrix.

## Findings

| source | as written | input that shows it | evidently intended | confidence | as-written member | corrected member |
|---|---|---|---|---|---|---|
| km/tools/find_report.py:110 | `all_ref_seq += ref_seq` appends the record's whole sequence so far at every sequence line | a record whose sequence spans two lines "AC" and "GT" pools "ACACGT" | the pooled sequence is the concatenation of the sequence lines, "ACGT" | not executed; the pooled sequence is never read downstream | RefIndex.PooledSeqAsWritten (RefIndex.PooledSeqAsWrittenRepeats) | RefIndex.PooledSeq |

## Left out

- `km/tools/find_fusion.py` is not part of this model. It only wires the k-mer database, the mutation finder and the output together.
- The exclusive-coverage column (lines 413-415) is left out. `uc.get_cov` is a call into the k-mer index. The column keeps the value read (records before any comment) or stays empty (upstream records).
- File and stream I/O is left out. The target file and the record file are given as lists of lines, and the report is returned as a list of lines. Warnings written to the error stream are not modelled. Neither is the output a run has already written when it stops on an error.
- `print_vcf_header` is left out: its text is constant. The VCF model gives the body lines only.
- `re.search(args.info, line)` is a predicate in the configuration; no regular-expression engine is modelled.
- `float(ratio)` and its printing are a function in the configuration. A ratio is kept as its zero test and the text it prints.
- The "Target file is empty" exit of `init_ref_seq` (lines 42-43) is not modelled: `create_report` calls it only under `if args.target:` (line 143), so an empty target name behaves as an absent one, which is the `None` target of `Report.CreateReport`.
- TableOut.SortByCount: the order among keys of equal count is not modelled. Python's `sorted` keeps them in dictionary order.
- TableOut.Aggregator.Matrix: the order of the sample rows is not modelled. `samples.iteritems()` follows dictionary order; the model states only that every sample gets exactly one row.
- Report.Step: a line after a comment that has at most one field, or whose first field is "Database", contributes nothing. The source falls through and writes a line from the previous record's variables, or fails with a NameError when there is none.
- Coordinates.AssembleWindow: a mode other than "fusion" or "mutation" is an error here. The source goes on with the previous record's variables.
- RefIndex.IndexReference: attribute keys are compared as sets. The source compares the `|`-joined key order of Python 2 dictionaries, which for the same keys depends on the interpreter.
- RefIndex.IndexReference: the pooled reference sequence it returns is the corrected concatenation of the sequence lines (`PooledSeq`), not the repeated appending of line 110 (`PooledSeqAsWritten`, see "## Findings"), because nothing downstream reads it.
- RefIndex.IndexReference: the per-exon `seq`, `refstart` and `refstop` attributes are not kept, because nothing downstream reads them.
- Python 2 specifics (`xrange`, `string.maketrans`, `iteritems`) are modelled by what they compute.
