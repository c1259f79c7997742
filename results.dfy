/** Failure-carrying values shared by every module of the model.

    The report tool stops the whole run on each of these conditions (an explicit
    exit, a failed assertion, or an uncaught Python exception such as IndexError,
    ValueError or KeyError). The model returns them as values instead. */
module Results {

  datatype Option<+T> = None | Some(value: T)

  datatype Error =
    // reference (target) file
    | BlankReferenceLine           // `line[0]` on an empty stripped line
    | SequenceBeforeHeader         // `ref_seq += ...` before any header defined it
    | BadLocation                  // first token lacks "chr", ":" or "-"
    | MalformedAttribute           // an attribute segment without "="
    | AttributeMismatch            // attribute keys differ from the first header's
    | MalformedLocation            // location does not split into chr:start-stop
    | NotANumber                   // int() of something that is not an integer
    | MalformedCigar               // int("") on an empty CIGAR length
    | CigarTooShort                // match mask shorter than the genomic interval
    | NotSingleChromosome          // zero or several chromosomes in the file
    | NotSingleStrand              // several strands in the file
    // records
    | MissingTarget                // record lines after comments without a target file
    | TooFewFields                 // a tab-separated record with too few columns
    | UnknownMode                  // `#mode:` names neither "mutation" nor "fusion"
    | MalformedModeLine            // a comment mentioning "mode" without ":"
    | MalformedVariantName         // fusion variant name without exactly one "/"
    | MalformedExonList            // exon token without an "e"
    | UnknownExon                  // exon key absent from the reference index
    | MissingPooledTarget          // mutation mode against an exon-keyed reference
    | WindowTooShort               // coordinate array shorter than the reference window
    | MalformedEdit                // variant edit not of the form start:del/ins:stop
    | IndexOutOfRange              // a Python index outside the sequence
    | UnknownVariantType(tag: string)
    | MalformedType                // VCF type label with more than one "/"
    | BadRatio                     // float() of the ratio column failed

  datatype Result<+T> = Ok(value: T) | Err(error: Error)
}
