/** The server's side of the wire: reading one request's header block from the
    connection's lines, and framing a plain-text body as an HTTP response. */
module Http {
  import opened Wrappers
  import opened Strings
  import opened Numbers

  /** One read of a request from the connection's remaining `lines` (already split
      at line breaks, terminators removed). `block` is every line before the first
      empty one; the empty line is consumed, and `rest` is what the next read sees.
      With no empty line left, the block runs to the end of the stream. */
  function ReadHeaderBlock(lines: seq<string>): (r: (seq<string>, seq<string>))
    ensures forall i :: 0 <= i < |r.0| ==> r.0[i] != ""
    ensures lines == r.0 + [""] + r.1 || (lines == r.0 && r.1 == [])
    ensures lines != [] ==> |r.1| < |lines|
    decreases |lines|
  {
    if lines == [] then ([], [])
    else if lines[0] == "" then ([], lines[1..])
    else
      var (block, rest) := ReadHeaderBlock(lines[1..]);
      assert lines == [lines[0]] + lines[1..];
      ([lines[0]] + block, rest)
  }

  /** The request lines a client sends for one request: `block` then the empty line. */
  lemma {:induction false} ReadHeaderBlockSent(block: seq<string>, more: seq<string>)
    requires forall i :: 0 <= i < |block| ==> block[i] != ""
    ensures ReadHeaderBlock(block + [""] + more) == (block, more)
  {
    var lines := block + [""] + more;
    if block != [] {
      assert lines[0] == block[0] && lines[0] != "";
      assert lines[1..] == block[1..] + [""] + more;
      ReadHeaderBlockSent(block[1..], more);
      assert [block[0]] + block[1..] == block;
    } else {
      assert block + [""] + more == [""] + more;
    }
  }

  const StatusLine: string := "HTTP/1.1 200 OK"
  const LengthField: string := "Content-Length: "
  const TypeLine: string := "Content-Type: text/plain; charset=utf-8"

  /** Status line and headers of a response whose body is `length` bytes long. */
  function Head(length: nat): string
  {
    StatusLine + ("\r\n" + LengthField) + Decimal(length) + ("\r\n" + TypeLine)
  }

  /** The response written for `body`: always status 200, with the body's byte length. */
  function Response(body: string): string
  {
    Head(Utf8Length(body)) + "\r\n\r\n" + body
  }

  /** What an HTTP client reads from a response: the head and body, split at the
      first blank line. */
  function SplitResponse(response: string): Option<(string, string)>
  {
    SplitOnce(response, "\r\n\r\n")
  }

  /** The value of the `Content-Length` header in a response head. */
  function ContentLengthOf(head: string): Option<nat>
  {
    match SplitOnce(head, LengthField)
    case None => None
    case Some((_, after)) =>
      match SplitOnce(after, "\r\n")
      case None => ParseUsize(after)
      case Some((value, _)) => ParseUsize(value)
  }

  /** A line break followed by a header field does not start a blank line. */
  lemma HeaderBreakSkipped(field: string, rest: string)
    requires |field| > 0 && field[0] == 'C' && '\r' !in field
    ensures FindFirst("\r\n" + field + rest, "\r\n\r\n") == Offset(2 + |field|, FindFirst(rest, "\r\n\r\n"))
  {
    var p := "\r\n\r\n";
    var s := "\r" + ("\n" + field + rest);
    assert s == "\r\n" + field + rest;
    assert s[2] == field[0];
    assert !OccursAt(s, p, 0) by {
      if |s| >= 4 {
        assert s[0..4][2] == field[0];
      }
    }
    FindFirstPast("\r", "\n" + field + rest, p);
    assert '\r' !in "\n" + field;
    FindFirstSkip("\n" + field, rest, p);
  }

  /** A header field, then the blank line: the blank line is found after the field. */
  lemma BlankLineAfterField(v: string, f: string, body: string)
    requires '\r' !in v
    requires |f| > 0 && f[0] == 'C' && '\r' !in f
    ensures FindFirst(v + (("\r\n" + f) + ("\r\n\r\n" + body)), "\r\n\r\n") == Some(|v| + (2 + |f|))
  {
    var rest := "\r\n\r\n" + body;
    FindFirstAtStart(body, "\r\n\r\n");
    HeaderBreakSkipped(f, rest);
    FindFirstSkip(v, ("\r\n" + f) + rest, "\r\n\r\n");
  }

  /** In a head made of a status line and two header fields, the first blank line
      is the one that ends the head. */
  lemma BlankLineAfterFields(status: string, f1: string, v: string, f2: string, body: string)
    requires '\r' !in status && '\r' !in v
    requires |f1| > 0 && f1[0] == 'C' && '\r' !in f1
    requires |f2| > 0 && f2[0] == 'C' && '\r' !in f2
    ensures FindFirst(status + ("\r\n" + f1) + v + ("\r\n" + f2) + "\r\n\r\n" + body, "\r\n\r\n")
         == Some(|status| + (2 + |f1|) + |v| + (2 + |f2|))
  {
    var p := "\r\n\r\n";
    var inner := v + (("\r\n" + f2) + (p + body));
    BlankLineAfterField(v, f2, body);
    HeaderBreakSkipped(f1, inner);
    FindFirstSkip(status, ("\r\n" + f1) + inner, p);
    NestRight6(status, "\r\n" + f1, v, "\r\n" + f2, p, body);
  }

  /** Searching "\r\n\r\n" in the response finds the blank line after the head. */
  lemma HeadEndFound(n: nat, body: string)
    ensures FindFirst(Head(n) + "\r\n\r\n" + body, "\r\n\r\n") == Some(|Head(n)|)
  {
    var d := Decimal(n);
    assert '\r' !in d by {
      assert forall i :: 0 <= i < |d| ==> IsDigit(d[i]);
    }
    assert TypeLine[0] == 'C' && '\r' !in TypeLine;
    assert LengthField[0] == 'C' && '\r' !in LengthField;
    assert '\r' !in StatusLine;
    BlankLineAfterFields(StatusLine, LengthField, d, TypeLine, body);
  }

  /** The Content-Length header of `Head(n)` reads back as `n`. */
  lemma ContentLengthOfHead(n: nat)
    requires n <= UsizeMax
    ensures ContentLengthOf(Head(n)) == Some(n)
  {
    var d := Decimal(n);
    var y := "\r\n" + TypeLine;
    var rest := d + y;
    var pre := StatusLine + "\r\n";
    // The Content-Length field starts right after the status line.
    assert 'C' !in pre;
    ShiftSplitRight(StatusLine, "\r\n", LengthField, d, y);
    FindFirstAtStart(rest, LengthField);
    FindFirstSkip(pre, LengthField + rest, LengthField);
    assert SplitOnce(Head(n), LengthField).value.1 == rest;
    // Its value ends at the next line break.
    assert '\r' !in d by {
      assert forall i :: 0 <= i < |d| ==> IsDigit(d[i]);
    }
    FindFirstAtStart(TypeLine, "\r\n");
    FindFirstSkip(d, y, "\r\n");
    assert SplitOnce(rest, "\r\n").value.0 == d;
    DecimalRoundTrip(n);
  }

  /** A client recovers exactly the body from a response, and the Content-Length
      header it reads is the body's byte length. */
  lemma ResponseFraming(body: string)
    requires Utf8Length(body) <= UsizeMax
    ensures SplitResponse(Response(body)) == Some((Head(Utf8Length(body)), body))
    ensures ContentLengthOf(Head(Utf8Length(body))) == Some(Utf8Length(body))
  {
    var n := Utf8Length(body);
    HeadEndFound(n, body);
    assert Response(body)[..|Head(n)|] == Head(n);
    assert Response(body)[|Head(n)| + 4..] == body;
    ContentLengthOfHead(n);
  }
}
