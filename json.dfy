/** JSON values (RFC 8259), `JSON.stringify` of an array of strings, and a
    parser for exactly the texts that stringify writes for such arrays. */
module Json {
  import opened Common
  import opened Text

  datatype Json =
    | JNull
    | JBool(b: bool)
    | JNumber(n: int)
    | JString(s: string)
    | JArray(items: seq<Json>)
    | JObject(members: seq<(string, Json)>)

  /** A string that `JSON.stringify` writes as its own characters between
      quotation marks: no quotation mark, reverse solidus or control character. */
  predicate Plain(s: string) {
    forall i :: 0 <= i < |s| ==> s[i] != '"' && s[i] != '\\' && s[i] as int >= 0x20
  }

  function HexDigit(v: int): char
    requires 0 <= v < 16
  {
    if v < 10 then ('0' as int + v) as char else ('a' as int + v - 10) as char
  }

  /** How `JSON.stringify` writes one character inside a string literal. */
  function EscapeChar(c: char): (r: string)
    ensures |r| >= 1
    ensures c != '"' && c != '\\' && c as int >= 0x20 <==> r == [c]
  {
    if c == '"' then ['\\', '"']
    else if c == '\\' then ['\\', '\\']
    else if c == '\U{0008}' then ['\\', 'b']
    else if c == '\t' then ['\\', 't']
    else if c == '\n' then ['\\', 'n']
    else if c == '\U{000C}' then ['\\', 'f']
    else if c == '\r' then ['\\', 'r']
    else if c as int < 0x20 then ['\\', 'u', '0', '0', HexDigit(c as int / 16), HexDigit(c as int % 16)]
    else [c]
  }

  function Escape(s: string): string {
    if s == [] then [] else EscapeChar(s[0]) + Escape(s[1..])
  }

  /** Plain strings are written as they are. */
  lemma {:induction false} EscapePlain(s: string)
    requires Plain(s)
    ensures Escape(s) == s
  {
    if s != [] {
      EscapePlain(s[1..]);
      assert s == [s[0]] + s[1..];
    }
  }

  /** A string literal as `JSON.stringify` writes it. */
  function Quote(s: string): string {
    "\"" + Escape(s) + "\""
  }

  function QuoteAll(xs: seq<string>): seq<string> {
    seq(|xs|, i requires 0 <= i < |xs| => Quote(xs[i]))
  }

  /** `JSON.stringify(xs)` for an array of strings. */
  function StringifyStrings(xs: seq<string>): string
  {
    "[" + Join(QuoteAll(xs), ",") + "]"
  }

  /** The JSON array whose elements are the strings `xs`. */
  function StringArray(xs: seq<string>): Json {
    JArray(seq(|xs|, i requires 0 <= i < |xs| => JString(xs[i])))
  }

  /** Index of the first quotation mark, or `|s|` when there is none. */
  function FirstQuote(s: string): (i: nat)
    ensures i <= |s|
    ensures i < |s| ==> s[i] == '"'
    ensures forall j :: 0 <= j < i ==> s[j] != '"'
  {
    if s == [] || s[0] == '"' then 0 else 1 + FirstQuote(s[1..])
  }

  /** Parses an array of plain strings written without whitespace; `None`
      for every other text. */
  function ParseStringArray(s: string): Option<Json> {
    if |s| < 2 || s[0] != '[' || s[|s| - 1] != ']' then None
    else if |s| == 2 then Some(JArray([]))
    else
      match ParseItems(s[1..|s| - 1])
      case None => None
      case Some(items) => Some(JArray(items))
  }

  /** Comma-separated quoted plain strings. */
  function ParseItems(s: string): Option<seq<Json>>
    decreases |s|, 1
  {
    if |s| < 2 || s[0] != '"' then None
    else
      var n := FirstQuote(s[1..]);
      if n == |s| - 1 then None
      else ParseItemsAfter(s[1..n + 1], s[n + 2..])
  }

  /** The item list once the string `str` has been read and `after` remains. */
  function ParseItemsAfter(str: string, after: string): Option<seq<Json>>
    decreases |after| + 1, 0
  {
    if !Plain(str) then None
    else if after == [] then Some([JString(str)])
    else if after[0] != ',' then None
    else
      match ParseItems(after[1..])
      case None => None
      case Some(rest) => Some([JString(str)] + rest)
  }

  lemma {:induction false} FirstQuoteAfterPlain(x: string, t: string)
    requires Plain(x) && t != [] && t[0] == '"'
    ensures FirstQuote(x + t) == |x|
  {
    if x != [] {
      assert (x + t)[1..] == x[1..] + t;
      FirstQuoteAfterPlain(x[1..], t);
    } else {
      assert x + t == t;
    }
  }

  /** One step of the item parser: a quoted plain string, then `after`. */
  lemma ParseOneItem(x: string, after: string)
    requires Plain(x)
    ensures ParseItems(Quote(x) + after) == ParseItemsAfter(x, after)
  {
    EscapePlain(x);
    var s := Quote(x) + after;
    assert s[1..] == x + ("\"" + after);
    FirstQuoteAfterPlain(x, "\"" + after);
    assert s[1..|x| + 1] == x;
    assert s[|x| + 2..] == after;
  }

  lemma {:induction false} ParseItemsJoin(xs: seq<string>)
    requires |xs| >= 1
    requires forall i :: 0 <= i < |xs| ==> Plain(xs[i])
    ensures ParseItems(Join(QuoteAll(xs), ",")) == Some(StringArray(xs).items)
  {
    var q := QuoteAll(xs);
    var x := xs[0];
    assert q[0] == Quote(x);
    var items := StringArray(xs).items;
    if |xs| == 1 {
      var j := Join(q, ",");
      assert j == Quote(x) + "" by {
        JoinStep(q, ",");
      }
      ParseOneItem(x, "");
      assert items == [JString(x)];
    } else {
      assert q[1..] == QuoteAll(xs[1..]);
      var rest := Join(q[1..], ",");
      var tail := StringArray(xs[1..]).items;
      ParseItemsJoin(xs[1..]);
      assert ParseItems(rest) == Some(tail);
      var j := Join(q, ",");
      assert j == Quote(x) + ("," + rest) by {
        JoinStep(q, ",");
      }
      calc {
        ParseItems(j);
        { ParseOneItem(x, "," + rest); }
        ParseItemsAfter(x, "," + rest);
        { ParseAfterComma(x, rest, tail); }
        Some([JString(x)] + tail);
        { assert items == [JString(x)] + tail; }
        Some(items);
      }
    }
  }

  lemma ParseAfterComma(x: string, rest: string, items: seq<Json>)
    requires Plain(x) && ParseItems(rest) == Some(items)
    ensures ParseItemsAfter(x, "," + rest) == Some([JString(x)] + items)
  {
    assert ("," + rest)[1..] == rest;
  }

  lemma JoinStep(parts: seq<string>, sep: string)
    requires |parts| >= 1
    ensures |parts| == 1 ==> Join(parts, sep) == parts[0] + ""
    ensures |parts| > 1 ==> Join(parts, sep) == parts[0] + (sep + Join(parts[1..], sep))
  {
  }

  /** The parser reads back what `JSON.stringify` writes for an array of plain strings. */
  lemma ParseStringify(xs: seq<string>)
    requires forall i :: 0 <= i < |xs| ==> Plain(xs[i])
    ensures ParseStringArray(StringifyStrings(xs)) == Some(StringArray(xs))
  {
    var s := StringifyStrings(xs);
    if xs == [] {
      assert QuoteAll(xs) == [];
      assert s == "[]";
      assert StringArray(xs).items == [];
    } else {
      ParseItemsJoin(xs);
      assert s[1..|s| - 1] == Join(QuoteAll(xs), ",");
      var j := Join(QuoteAll(xs), ",");
      assert j[0] == '"' by {
        assert QuoteAll(xs)[0] == Quote(xs[0]);
        JoinFirst(QuoteAll(xs), ",");
      }
    }
  }
}
