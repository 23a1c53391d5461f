/**
 * The two ends of a chat stream together: the handlers write one JSON
 * record per model fragment with `writeln`, and the chat page's reader
 * loop reassembles them from whatever chunks the transport delivers.
 * JSON itself is not modelled: `encode` stands for `JSON.stringify` and
 * `parse` for `JSON.parse`, related only by the round trip the lemmas
 * below require of them.
 */
module StreamContract {
  import opened Wrappers
  import opened Text
  import opened Seqs
  import opened Handlers
  import opened Framer

  /** The lines a writer emits for the records, before framing. */
  function Encoded(records: seq<StreamRecord>, encode: StreamRecord -> string): (r: seq<string>)
    ensures |r| == |records|
    ensures forall i :: 0 <= i < |records| ==> r[i] == encode(records[i])
  {
    seq(|records|, i requires 0 <= i < |records| => encode(records[i]))
  }

  /**
   * `JSON.stringify` writes the record as one line that is not blank, and
   * `JSON.parse` of that line, trimmed, gives back its `text` and `name`.
   */
  predicate RoundTripsAt(encode: StreamRecord -> string, parse: string -> LineParse, r: StreamRecord) {
    NEWLINE !in encode(r) && !IsBlank(encode(r)) && parse(Trim(encode(r))) == Parsed(Some(r.text), r.name)
  }

  /** The round trip holds for every record. */
  ghost predicate RoundTrips(encode: StreamRecord -> string, parse: string -> LineParse) {
    forall r :: RoundTripsAt(encode, parse, r)
  }

  /** One encoded record read back as a complete line. */
  lemma EncodedLine(r: StreamRecord, encode: StreamRecord -> string, parse: string -> LineParse)
    requires RoundTrips(encode, parse)
    ensures NEWLINE !in encode(r) && !IsBlank(encode(r))
    ensures LineText(encode(r), parse) == r.text
    ensures LineName(encode(r), parse) == if r.name.Some? && r.name.value != "" then r.name else None
  {
    assert RoundTripsAt(encode, parse, r);
  }

  /** The lines the handlers write for a turn, as the page reads each of them. */
  lemma RecordLines(fragments: seq<string>, name: Option<string>, id: string, userId: string,
                    encode: StreamRecord -> string, parse: string -> LineParse)
    requires RoundTrips(encode, parse)
    ensures var lines := Encoded(Records(fragments, name, id, userId), encode);
      && |lines| == |fragments|
      && (forall i :: 0 <= i < |lines| ==> NEWLINE !in lines[i] && !IsBlank(lines[i]))
      && (forall i :: 0 <= i < |lines| ==> LineText(lines[i], parse) == fragments[i])
      && (forall i :: 0 <= i < |lines| ==>
            LineName(lines[i], parse) == if name.Some? && name.value != "" then name else None)
  {
    var records := Records(fragments, name, id, userId);
    forall i | 0 <= i < |records| {
      EncodedLine(records[i], encode, parse);
    }
  }

  /**
   * Reading what the handlers write for a turn, the page's reader loop ends
   * with the server's `fullResponse` (the concatenation of the model's
   * fragments), sees the summary name exactly when there was a fragment and
   * the summary is non-empty, and clears the session hand-over keys exactly
   * when there was a fragment. `ReadStream` depends only on the
   * concatenation of its chunks, so this holds however the transport cuts
   * the text.
   */
  lemma ClientReassemblesServerStream(fragments: seq<string>, name: Option<string>, id: string, userId: string,
                                      encode: StreamRecord -> string, parse: string -> LineParse)
    requires RoundTrips(encode, parse)
    ensures Reads(Framed(Encoded(Records(fragments, name, id, userId), encode)), parse, Concat(fragments),
                  if |fragments| > 0 && name.Some? && name.value != "" then name else None,
                  |fragments| > 0)
  {
    var lines := Encoded(Records(fragments, name, id, userId), encode);
    RecordLines(fragments, name, id, userId, encode, parse);
    ReadFramed(lines, fragments, if name.Some? && name.value != "" then name else None, parse);
  }

  /**
   * A stream cut off inside a record: the complete records are read and
   * the unterminated rest is dropped, never parsed.
   */
  lemma TruncatedStreamDropsPartialRecord(fragments: seq<string>, name: Option<string>, id: string, userId: string,
                                          partial: string, encode: StreamRecord -> string,
                                          parse: string -> LineParse)
    requires RoundTrips(encode, parse)
    requires NEWLINE !in partial
    ensures ResponseOf(CompleteLines(Framed(Encoded(Records(fragments, name, id, userId), encode)) + partial), parse)
         == Concat(fragments)
  {
    var lines := Encoded(Records(fragments, name, id, userId), encode);
    RecordLines(fragments, name, id, userId, encode, parse);
    CompleteLinesOfFramed(lines, partial);
    ResponseOfTexts(lines, fragments, parse);
  }
}
