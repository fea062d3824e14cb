/**
 * Server-Sent Events framing (section 9.2 of the WHATWG HTML Living
 * Standard): the `data: <payload>\n\n` frame the hub writes, and the part
 * of the standard's event-stream interpretation (section 9.2.6) that such
 * frames exercise, so that what a browser's EventSource receives can be
 * stated.
 */
module Sse {

  /** One event carrying `payload` as its data. */
  function Frame(payload: string): string {
    "data: " + payload + "\n\n"
  }

  /** The frames of `payloads`, back to back. */
  function Wire(payloads: seq<string>): string
    decreases |payloads|
  {
    if |payloads| == 0 then "" else Frame(payloads[0]) + Wire(payloads[1..])
  }

  predicate IsBreak(c: char) {
    c == '\n' || c == '\r'
  }

  predicate NoBreaks(s: string) {
    forall k :: 0 <= k < |s| ==> !IsBreak(s[k])
  }

  /** The index of the first CR or LF, or `|s|` when there is none. */
  function BreakAt(s: string): (i: nat)
    ensures i <= |s|
    ensures i < |s| ==> IsBreak(s[i])
    ensures NoBreaks(s[..i])
  {
    if |s| == 0 then 0
    else if IsBreak(s[0]) then 0
    else
      var i := 1 + BreakAt(s[1..]);
      assert s[..i] == [s[0]] + s[1..][..i - 1];
      i
  }

  /**
   * The complete lines of a stream. A line ends at CR LF, at LF or at CR;
   * text after the last line end is an unfinished line and is dropped.
   */
  function Lines(s: string): seq<string>
    decreases |s|
  {
    var i := BreakAt(s);
    if i == |s| then []
    else if s[i] == '\r' && i + 1 < |s| && s[i + 1] == '\n' then [s[..i]] + Lines(s[i + 2..])
    else [s[..i]] + Lines(s[i + 1..])
  }

  /** The index of the first colon, or `|s|` when there is none. */
  function ColonAt(s: string): (i: nat)
    ensures i <= |s|
    ensures i < |s| ==> s[i] == ':'
    ensures forall k :: 0 <= k < i ==> s[k] != ':'
  {
    if |s| == 0 then 0
    else if s[0] == ':' then 0
    else 1 + ColonAt(s[1..])
  }

  /** The field name of a non-empty line that is not a comment. */
  function FieldName(line: string): string {
    line[..ColonAt(line)]
  }

  /** The field value: after the first colon, without one leading space. */
  function FieldValue(line: string): string {
    var i := ColonAt(line);
    if i == |line| then ""
    else
      var raw := line[i + 1..];
      if |raw| > 0 && raw[0] == ' ' then raw[1..] else raw
  }

  /** The data of a dispatched event: the buffer without its final LF. */
  function DropFinalLf(buf: string): string {
    if |buf| > 0 && buf[|buf| - 1] == '\n' then buf[..|buf| - 1] else buf
  }

  /**
   * The data of each event dispatched while the lines are processed, with
   * `buf` the data buffer. Only the `data` field is acted on; a buffer still
   * pending when the lines run out is discarded.
   */
  function Interpret(lines: seq<string>, buf: string): seq<string>
    decreases |lines|
  {
    if |lines| == 0 then []
    else
      var line := lines[0];
      if line == "" then
        if buf == "" then Interpret(lines[1..], "")
        else [DropFinalLf(buf)] + Interpret(lines[1..], "")
      else if line[0] == ':' then Interpret(lines[1..], buf)
      else if FieldName(line) == "data" then Interpret(lines[1..], buf + FieldValue(line) + "\n")
      else Interpret(lines[1..], buf)
  }

  /** The data of every event a client receives from a stream. */
  function Decode(stream: string): seq<string> {
    Interpret(Lines(stream), "")
  }

  lemma {:induction false} BreakAtAfter(a: string, b: string)
    requires NoBreaks(a)
    requires |b| > 0 && IsBreak(b[0])
    ensures BreakAt(a + b) == |a|
    decreases |a|
  {
    if |a| == 0 {
      assert a + b == b;
    } else {
      assert (a + b)[0] == a[0];
      assert (a + b)[1..] == a[1..] + b;
      BreakAtAfter(a[1..], b);
    }
  }

  /** A frame is two lines: its `data:` line and the blank line that ends it. */
  lemma FrameLines(p: string, rest: string)
    requires NoBreaks(p)
    ensures Lines(Frame(p) + rest) == ["data: " + p, ""] + Lines(rest)
  {
    var head := "data: " + p;
    assert NoBreaks(head) by {
      forall k | 0 <= k < |head| ensures !IsBreak(head[k]) {
        if k >= 6 { assert head[k] == p[k - 6]; }
      }
    }
    var s := Frame(p) + rest;
    var t := "\n" + rest;
    assert s == head + ("\n" + t);
    BreakAtAfter(head, "\n" + t);
    assert s[..|head|] == head;
    assert s[|head| + 1..] == t;
    BreakAtAfter("", t);
    assert "" + t == t;
    assert t[..0] == "";
    assert t[1..] == rest;
  }

  /** The `data:` line of a frame appends its payload to the data buffer. */
  lemma DataLine(p: string)
    ensures FieldName("data: " + p) == "data"
    ensures FieldValue("data: " + p) == p
  {
    var line := "data: " + p;
    assert line[4] == ':';
    assert forall k :: 0 <= k < 4 ==> line[k] != ':';
    assert ColonAt(line) == 4 by {
      assert line[..4] == "data";
      ColonAtIs(line, 4);
    }
    assert line[5..] == " " + p;
  }

  lemma {:induction false} ColonAtIs(s: string, i: nat)
    requires i < |s| && s[i] == ':'
    requires forall k :: 0 <= k < i ==> s[k] != ':'
    ensures ColonAt(s) == i
    decreases i
  {
    if i > 0 {
      ColonAtIs(s[1..], i - 1);
    }
  }

  /** Processing a frame's two lines dispatches one event with its payload. */
  lemma InterpretFrame(p: string, more: seq<string>)
    ensures Interpret(["data: " + p, ""] + more, "") == [p] + Interpret(more, "")
  {
    DataLine(p);
    var ls := ["data: " + p, ""] + more;
    assert ls[0] == "data: " + p && ls[0] != "" && ls[0][0] == 'd';
    assert "" + p + "\n" == p + "\n";
    assert Interpret(ls, "") == Interpret(ls[1..], p + "\n");
    assert ls[1..][0] == "";
    assert ls[1..][1..] == more;
    assert DropFinalLf(p + "\n") == p;
  }

  /**
   * A client decodes back exactly the payloads that were framed, in order,
   * as long as no payload contains a line break.
   */
  lemma {:induction false} DecodeWire(payloads: seq<string>)
    requires forall i :: 0 <= i < |payloads| ==> NoBreaks(payloads[i])
    ensures Decode(Wire(payloads)) == payloads
    decreases |payloads|
  {
    if |payloads| > 0 {
      var p := payloads[0];
      var rest := payloads[1..];
      FrameLines(p, Wire(rest));
      DecodeWire(rest);
      InterpretFrame(p, Lines(Wire(rest)));
      assert Wire(payloads) == Frame(p) + Wire(rest);
    }
  }
}
