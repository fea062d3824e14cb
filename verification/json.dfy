/**
 * The JSON documents the server writes on the event stream, and the text
 * `JSON.stringify` produces for them. `Stringify` agrees with it on integers
 * of magnitude at most 2^53 and on strings of Unicode scalar values; other
 * numbers and lone surrogates are not modelled.
 */
module Json {

  datatype Json =
    | Null
    | Bool(b: bool)
    | Number(n: int)
    | Str(s: string)
    | Array(items: seq<Json>)
    | Object(fields: seq<Field>)

  /** One member of an object; members keep their insertion order. */
  datatype Field = Field(name: string, value: Json)

  /** True of text that holds no control character (in particular no CR or LF). */
  predicate Printable(s: string) {
    forall k :: 0 <= k < |s| ==> s[k] as int >= 0x20
  }

  function HexDigit(d: nat): (c: char)
    requires d < 16
    ensures c as int >= 0x20
  {
    "0123456789abcdef"[d]
  }

  /** The escape `JSON.stringify` writes for one character of a string. */
  function EscapeChar(c: char): (r: string)
    ensures Printable(r)
    ensures c as int >= 0x20 && c != '"' && c != '\\' ==> r == [c]
  {
    if c == '"' then "\\\""
    else if c == '\\' then "\\\\"
    else if c == '\n' then "\\n"
    else if c == '\r' then "\\r"
    else if c == '\t' then "\\t"
    else if c as int == 0x08 then "\\b"
    else if c as int == 0x0C then "\\f"
    else if c as int < 0x20 then "\\u00" + [HexDigit(c as int / 16), HexDigit(c as int % 16)]
    else [c]
  }

  function EscapeString(s: string): (r: string)
    ensures Printable(r)
    ensures |r| >= |s|
  {
    if |s| == 0 then "" else EscapeChar(s[0]) + EscapeString(s[1..])
  }

  function Quote(s: string): (r: string)
    ensures Printable(r)
  {
    "\"" + EscapeString(s) + "\""
  }

  function NatToDecimal(n: nat): (r: string)
    ensures Printable(r)
    ensures |r| > 0
  {
    if n < 10 then ["0123456789"[n]] else NatToDecimal(n / 10) + ["0123456789"[n % 10]]
  }

  function IntToDecimal(n: int): (r: string)
    ensures Printable(r)
  {
    if n < 0 then "-" + NatToDecimal(-n) else NatToDecimal(n)
  }

  /**
   * The compact text of a document, as `JSON.stringify` writes it for
   * integers of magnitude at most 2^53. Larger numbers are written here
   * with all their decimal digits, where JavaScript writes the shortest
   * digits that round-trip, or an exponent from 10^21 on.
   */
  function Stringify(j: Json): string
    decreases j, 1
  {
    match j
    case Null => "null"
    case Bool(b) => if b then "true" else "false"
    case Number(n) => IntToDecimal(n)
    case Str(s) => Quote(s)
    case Array(items) => "[" + Items(j, items) + "]"
    case Object(fields) => "{" + Members(j, fields) + "}"
  }

  /** The comma-separated items of `parent`'s array suffix `items`. */
  function Items(ghost parent: Json, items: seq<Json>): string
    requires forall i :: 0 <= i < |items| ==> items[i] < parent
    decreases parent, 0, |items|
  {
    if |items| == 0 then ""
    else if |items| == 1 then Stringify(items[0])
    else Stringify(items[0]) + "," + Items(parent, items[1..])
  }

  /** The comma-separated `"name":value` members of `parent`'s object suffix `fields`. */
  function Members(ghost parent: Json, fields: seq<Field>): string
    requires forall i :: 0 <= i < |fields| ==> fields[i].value < parent
    decreases parent, 0, |fields|
  {
    if |fields| == 0 then ""
    else
      var member := Quote(fields[0].name) + ":" + Stringify(fields[0].value);
      if |fields| == 1 then member else member + "," + Members(parent, fields[1..])
  }

  lemma PrintableConcat(a: string, b: string)
    requires Printable(a) && Printable(b)
    ensures Printable(a + b)
  {
    forall k | 0 <= k < |a + b|
      ensures (a + b)[k] as int >= 0x20
    {
      if k < |a| { assert (a + b)[k] == a[k]; } else { assert (a + b)[k] == b[k - |a|]; }
    }
  }

  /**
   * No document is written with a control character, so none contains a line
   * break: this is what lets a document travel as a single `data:` line.
   */
  lemma {:induction false} StringifyPrintable(j: Json)
    ensures Printable(Stringify(j))
    decreases j, 1
  {
    match j
    case Null =>
    case Bool(b) =>
    case Number(n) =>
    case Str(s) =>
    case Array(items) =>
      ItemsPrintable(j, items);
      PrintableConcat("[", Items(j, items));
      PrintableConcat("[" + Items(j, items), "]");
    case Object(fields) =>
      MembersPrintable(j, fields);
      PrintableConcat("{", Members(j, fields));
      PrintableConcat("{" + Members(j, fields), "}");
  }

  lemma {:induction false} ItemsPrintable(parent: Json, items: seq<Json>)
    requires forall i :: 0 <= i < |items| ==> items[i] < parent
    ensures Printable(Items(parent, items))
    decreases parent, 0, |items|
  {
    if |items| == 1 {
      StringifyPrintable(items[0]);
    } else if |items| > 1 {
      StringifyPrintable(items[0]);
      ItemsPrintable(parent, items[1..]);
      PrintableConcat(Stringify(items[0]), ",");
      PrintableConcat(Stringify(items[0]) + ",", Items(parent, items[1..]));
    }
  }

  lemma {:induction false} MembersPrintable(parent: Json, fields: seq<Field>)
    requires forall i :: 0 <= i < |fields| ==> fields[i].value < parent
    ensures Printable(Members(parent, fields))
    decreases parent, 0, |fields|
  {
    if |fields| > 0 {
      var member := Quote(fields[0].name) + ":" + Stringify(fields[0].value);
      StringifyPrintable(fields[0].value);
      PrintableConcat(Quote(fields[0].name), ":");
      PrintableConcat(Quote(fields[0].name) + ":", Stringify(fields[0].value));
      if |fields| > 1 {
        MembersPrintable(parent, fields[1..]);
        PrintableConcat(member, ",");
        PrintableConcat(member + ",", Members(parent, fields[1..]));
      }
    }
  }
}
