/**
 * The reader loop of the chat page's `sendMessage`: the response body
 * arrives as decoded text chunks; the page appends each chunk to a line
 * buffer, consumes every complete line (blank lines skipped, lines that
 * fail to parse logged and skipped) and keeps the unterminated tail for the
 * next chunk. When the reader reports done, the tail is dropped unparsed.
 */
module Framer {
  import opened Wrappers
  import opened Text
  import opened Seqs

  /**
   * What `JSON.parse(line.trim())` gives for a line: a failure (including
   * `null`, whose `.text` throws), or an object with a `text` and a
   * non-empty `name` when it has them.
   */
  datatype LineParse = Malformed | Parsed(text: Option<string>, name: Option<string>)

  /** A record's `text` as `+=` appends it: a missing one reads `undefined`. */
  function TextOf(p: LineParse): string
    requires p.Parsed?
  {
    p.text.GetOr("undefined")
  }

  /** What one complete line adds to `fullResponse`. */
  function LineText(line: string, parse: string -> LineParse): string {
    if IsBlank(line) then ""
    else
      var p := parse(Trim(line));
      if p.Parsed? then TextOf(p) else ""
  }

  /** The thread name a complete line carries, if any. */
  function LineName(line: string, parse: string -> LineParse): Option<string> {
    if IsBlank(line) then None
    else
      var p := parse(Trim(line));
      if p.Parsed? && p.name.Some? && p.name.value != "" then p.name else None
  }

  /** `fullResponse` after the given complete lines, in order. */
  function ResponseOf(lines: seq<string>, parse: string -> LineParse): string {
    if |lines| == 0 then ""
    else ResponseOf(lines[..|lines| - 1], parse) + LineText(lines[|lines| - 1], parse)
  }

  /** The last non-empty name among the given complete lines. */
  function LastName(lines: seq<string>, parse: string -> LineParse): Option<string> {
    if |lines| == 0 then None
    else
      var n := LineName(lines[|lines| - 1], parse);
      if n.Some? then n else LastName(lines[..|lines| - 1], parse)
  }

  /** Some line is not blank (each such line clears the session hand-over keys). */
  predicate HasNonBlank(lines: seq<string>) {
    exists i :: 0 <= i < |lines| && !IsBlank(lines[i])
  }

  /** The complete lines of a text: every `split("\n")` piece but the last. */
  function CompleteLines(received: string): (r: seq<string>)
    ensures forall i :: 0 <= i < |r| ==> NEWLINE !in r[i]
  {
    var pieces := Split(received, NEWLINE);
    SplitPieces(received, NEWLINE);
    pieces[..|pieces| - 1]
  }

  /** What a writer emits for a list of lines with `writeln`: each line followed by a newline. */
  function Framed(lines: seq<string>): string {
    if |lines| == 0 then "" else lines[0] + [NEWLINE] + Framed(lines[1..])
  }

  /** The framed text grows line by line. */
  lemma {:induction false} FramedAppend(a: seq<string>, b: seq<string>)
    ensures Framed(a + b) == Framed(a) + Framed(b)
  {
    if |a| == 0 {
      assert a + b == b;
    } else {
      assert (a + b)[0] == a[0] && (a + b)[1..] == a[1..] + b;
      FramedAppend(a[1..], b);
    }
  }

  /**
   * Framing inverts splitting: the complete lines of newline-terminated
   * lines followed by an unterminated tail are exactly those lines, so
   * every complete line is consumed and the tail is never parsed.
   */
  lemma {:induction false} CompleteLinesOfFramed(lines: seq<string>, tail: string)
    requires forall i :: 0 <= i < |lines| ==> NEWLINE !in lines[i]
    requires NEWLINE !in tail
    ensures Split(Framed(lines) + tail, NEWLINE) == lines + [tail]
    ensures CompleteLines(Framed(lines) + tail) == lines
  {
    if |lines| == 0 {
      SplitWithoutSep(tail, NEWLINE);
      assert Framed(lines) + tail == tail;
    } else {
      CompleteLinesOfFramed(lines[1..], tail);
      assert Framed(lines) + tail == lines[0] + [NEWLINE] + (Framed(lines[1..]) + tail);
      SplitAfterPiece(lines[0], Framed(lines[1..]) + tail, NEWLINE);
      assert lines == [lines[0]] + lines[1..];
    }
    var pieces := Split(Framed(lines) + tail, NEWLINE);
    assert pieces[..|pieces| - 1] == lines;
  }

  /** One more line adds its text at the end. */
  lemma ResponseOfSnoc(init: seq<string>, line: string, parse: string -> LineParse)
    ensures ResponseOf(init + [line], parse) == ResponseOf(init, parse) + LineText(line, parse)
  {
    assert (init + [line])[..|init|] == init;
  }

  /** The text each line contributes, in order. */
  function LineTexts(lines: seq<string>, parse: string -> LineParse): seq<string> {
    if |lines| == 0 then []
    else LineTexts(lines[..|lines| - 1], parse) + [LineText(lines[|lines| - 1], parse)]
  }

  /** The response is the concatenation of what each line contributes. */
  lemma {:induction false} ResponseOfLineTexts(lines: seq<string>, parse: string -> LineParse)
    ensures ResponseOf(lines, parse) == Concat(LineTexts(lines, parse))
  {
    if |lines| > 0 {
      var n := |lines| - 1;
      ResponseOfLineTexts(lines[..n], parse);
      ConcatSnoc(LineTexts(lines[..n], parse), LineText(lines[n], parse));
    }
  }

  /** `LineTexts` lists, position by position, the text of each line. */
  lemma {:induction false} LineTextsAre(lines: seq<string>, texts: seq<string>, parse: string -> LineParse)
    requires |lines| == |texts|
    requires forall i :: 0 <= i < |lines| ==> LineText(lines[i], parse) == texts[i]
    ensures LineTexts(lines, parse) == texts
  {
    if |lines| > 0 {
      var n := |lines| - 1;
      var init, prefix := lines[..n], texts[..n];
      forall i | 0 <= i < n ensures LineText(init[i], parse) == prefix[i] {
        assert init[i] == lines[i] && prefix[i] == texts[i];
      }
      LineTextsAre(init, prefix, parse);
      assert prefix + [texts[n]] == texts;
    }
  }

  /** Lines that each contribute a known text contribute their concatenation. */
  lemma ResponseOfTexts(lines: seq<string>, texts: seq<string>, parse: string -> LineParse)
    requires |lines| == |texts|
    requires forall i :: 0 <= i < |lines| ==> LineText(lines[i], parse) == texts[i]
    ensures ResponseOf(lines, parse) == Concat(texts)
  {
    LineTextsAre(lines, texts, parse);
    ResponseOfLineTexts(lines, parse);
  }

  /** Lines that all carry the same name leave that name, once there is a line. */
  lemma {:induction false} LastNameOfUniform(lines: seq<string>, name: Option<string>, parse: string -> LineParse)
    requires forall i :: 0 <= i < |lines| ==> LineName(lines[i], parse) == name
    ensures LastName(lines, parse) == if |lines| > 0 then name else None
  {
    if |lines| > 0 {
      LastNameOfUniform(lines[..|lines| - 1], name, parse);
    }
  }

  /**
   * What the reader loop ends with for everything `received`: the
   * response text, the last thread name, and whether a non-blank line came.
   */
  predicate Reads(received: string, parse: string -> LineParse,
                  fullResponse: string, name: Option<string>, touched: bool) {
    var lines := CompleteLines(received);
    && ResponseOf(lines, parse) == fullResponse
    && LastName(lines, parse) == name
    && HasNonBlank(lines) == touched
  }

  /**
   * Reading a framed text whose every line is non-blank and contributes a
   * known text and name: the reader ends with the concatenated texts, the
   * shared name once there is a line, and a non-blank line iff there is one.
   */
  lemma ReadFramed(lines: seq<string>, texts: seq<string>, name: Option<string>, parse: string -> LineParse)
    requires |lines| == |texts|
    requires forall i :: 0 <= i < |lines| ==> NEWLINE !in lines[i] && !IsBlank(lines[i])
    requires forall i :: 0 <= i < |lines| ==> LineText(lines[i], parse) == texts[i]
    requires forall i :: 0 <= i < |lines| ==> LineName(lines[i], parse) == name
    ensures CompleteLines(Framed(lines)) == lines
    ensures Reads(Framed(lines), parse, Concat(texts), if |lines| > 0 then name else None, |lines| > 0)
  {
    CompleteLinesOfFramed(lines, "");
    assert Framed(lines) + "" == Framed(lines);
    ResponseOfTexts(lines, texts, parse);
    LastNameOfUniform(lines, name, parse);
    if |lines| > 0 {
      assert !IsBlank(lines[0]);
    }
  }

  lemma HasNonBlankAppend(a: seq<string>, b: seq<string>)
    ensures HasNonBlank(a + b) <==> HasNonBlank(a) || HasNonBlank(b)
  {
    if HasNonBlank(a + b) {
      var i :| 0 <= i < |a + b| && !IsBlank((a + b)[i]);
      if i >= |a| { assert b[i - |a|] == (a + b)[i]; } else { assert a[i] == (a + b)[i]; }
    }
    if HasNonBlank(a) {
      var i :| 0 <= i < |a| && !IsBlank(a[i]);
      assert (a + b)[i] == a[i];
    }
    if HasNonBlank(b) {
      var i :| 0 <= i < |b| && !IsBlank(b[i]);
      assert (a + b)[|a| + i] == b[i];
    }
  }

  /** Replacing the last piece of a list by its own split pieces does not change the joined text. */
  lemma JoinSplitLast(a: seq<string>, b: string)
    ensures Join(a + Split(b, NEWLINE), NEWLINE) == Join(a + [b], NEWLINE)
  {
    JoinSplit(b, NEWLINE);
    if |a| == 0 {
      assert a + Split(b, NEWLINE) == Split(b, NEWLINE);
      assert a + [b] == [b];
    } else {
      JoinConcat(a, Split(b, NEWLINE), NEWLINE);
      JoinConcat(a, [b], NEWLINE);
    }
  }

  /**
   * One chunk's framing step: appending the chunk to the buffer and
   * splitting keeps "consumed lines, then buffer" equal to everything
   * received, with the last piece as the new buffer.
   */
  lemma ChunkStep(consumed: seq<string>, buffer: string, chunk: string)
    ensures var lines := Split(buffer + chunk, NEWLINE);
      Join((consumed + lines[..|lines| - 1]) + [lines[|lines| - 1]], NEWLINE)
      == Join(consumed + [buffer], NEWLINE) + chunk
  {
    JoinExtendLast(consumed, buffer, chunk, NEWLINE);
    JoinSplitLast(consumed, buffer + chunk);
    AppendSplitLast(consumed, Split(buffer + chunk, NEWLINE));
  }

  /** What one more complete line does to the three results. */
  lemma LineStep(done: seq<string>, line: string, parse: string -> LineParse)
    ensures ResponseOf(done + [line], parse) == ResponseOf(done, parse) + LineText(line, parse)
    ensures LastName(done + [line], parse)
         == if LineName(line, parse).Some? then LineName(line, parse) else LastName(done, parse)
    ensures HasNonBlank(done + [line]) <==> HasNonBlank(done) || !IsBlank(line)
  {
    assert (done + [line])[..|done|] == done;
    HasNonBlankAppend(done, [line]);
    assert HasNonBlank([line]) <==> !IsBlank(line) by {
      if !IsBlank(line) { assert [line][0] == line; }
    }
  }

  /** `LineStep` for the next line of `lines` after those already consumed. */
  lemma PrefixStep(before: seq<string>, lines: seq<string>, j: int, parse: string -> LineParse)
    requires 0 <= j < |lines|
    ensures ResponseOf(before + lines[..j + 1], parse) == ResponseOf(before + lines[..j], parse) + LineText(lines[j], parse)
    ensures LastName(before + lines[..j + 1], parse)
         == if LineName(lines[j], parse).Some? then LineName(lines[j], parse) else LastName(before + lines[..j], parse)
    ensures HasNonBlank(before + lines[..j + 1]) <==> HasNonBlank(before + lines[..j]) || !IsBlank(lines[j])
  {
    assert before + lines[..j + 1] == (before + lines[..j]) + [lines[j]];
    LineStep(before + lines[..j], lines[j], parse);
  }

  /**
   * The `for (const line of lines)` loop: continuing from the state the
   * lines `before` left, it leaves the state of `before + lines`.
   */
  method ConsumeLines(ghost before: seq<string>, lines: seq<string>, parse: string -> LineParse,
                      fullResponse0: string, name0: Option<string>, touched0: bool)
    returns (fullResponse: string, name: Option<string>, touched: bool)
    requires fullResponse0 == ResponseOf(before, parse)
    requires name0 == LastName(before, parse)
    requires touched0 == HasNonBlank(before)
    ensures fullResponse == ResponseOf(before + lines, parse)
    ensures name == LastName(before + lines, parse)
    ensures touched == HasNonBlank(before + lines)
  {
    fullResponse, name, touched := fullResponse0, name0, touched0;
    var j := 0;
    assert before + lines[..0] == before;
    while j < |lines|
      invariant 0 <= j <= |lines|
      invariant fullResponse == ResponseOf(before + lines[..j], parse)
      invariant name == LastName(before + lines[..j], parse)
      invariant touched == HasNonBlank(before + lines[..j])
    {
      PrefixStep(before, lines, j, parse);
      fullResponse, name, touched := ConsumeLine(lines[j], parse, fullResponse, name, touched);
      j := j + 1;
    }
    assert lines[..j] == lines;
  }

  /**
   * The body of the line loop: a non-blank line marks the reply as
   * touched, and when it parses it adds its text and, if it carries a
   * non-empty name, makes that the name.
   */
  method ConsumeLine(line: string, parse: string -> LineParse, fullResponse0: string, name0: Option<string>, touched0: bool)
    returns (fullResponse: string, name: Option<string>, touched: bool)
    ensures fullResponse == fullResponse0 + LineText(line, parse)
    ensures name == if LineName(line, parse).Some? then LineName(line, parse) else name0
    ensures touched == (touched0 || !IsBlank(line))
  {
    fullResponse, name, touched := fullResponse0, name0, touched0;
    if !IsBlank(line) {
      touched := true;
      var p := parse(Trim(line));
      if p.Parsed? {
        if p.name.Some? && p.name.value != "" {
          name := p.name;
        }
        fullResponse := fullResponse + TextOf(p);
      }
    } else {
      assert fullResponse0 + "" == fullResponse0;
    }
  }

  /**
   * The reader loop. For the chunks the reader delivers, `fullResponse` is
   * what the complete lines of their concatenation contribute, `name` is
   * the last non-empty thread name they carry, and `touched` says whether
   * any of them was non-blank. Where the text was cut into chunks plays no
   * part.
   */
  method ReadStream(chunks: seq<string>, parse: string -> LineParse)
    returns (fullResponse: string, name: Option<string>, touched: bool)
    ensures fullResponse == ResponseOf(CompleteLines(Concat(chunks)), parse)
    ensures name == LastName(CompleteLines(Concat(chunks)), parse)
    ensures touched == HasNonBlank(CompleteLines(Concat(chunks)))
  {
    fullResponse, name, touched := "", None, false;
    var buffer := "";
    ghost var consumed: seq<string> := [];
    var k := 0;
    while k < |chunks|
      invariant 0 <= k <= |chunks|
      invariant Join(consumed + [buffer], NEWLINE) == Concat(chunks[..k])
      invariant NEWLINE !in buffer
      invariant forall i :: 0 <= i < |consumed| ==> NEWLINE !in consumed[i]
      invariant fullResponse == ResponseOf(consumed, parse)
      invariant name == LastName(consumed, parse)
      invariant touched == HasNonBlank(consumed)
    {
      ChunkStep(consumed, buffer, chunks[k]);
      ConcatSnoc(chunks[..k], chunks[k]);
      TakeSnoc(chunks, k);
      var lines := Split(buffer + chunks[k], NEWLINE);
      SplitPieces(buffer + chunks[k], NEWLINE);
      var complete := lines[..|lines| - 1];
      buffer := lines[|lines| - 1];
      fullResponse, name, touched := ConsumeLines(consumed, complete, parse, fullResponse, name, touched);
      consumed := consumed + complete;
      k := k + 1;
    }
    assert chunks[..k] == chunks;
    SplitJoin(consumed + [buffer], NEWLINE);
    assert CompleteLines(Concat(chunks)) == consumed;
  }
}
