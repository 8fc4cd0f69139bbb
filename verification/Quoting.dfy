/** Strings as JSON writes them, for the line that tells a streaming client of an error: quotes around,
    escapes for quotes, backslashes and control characters, everything else as it is. */
module Quoting {
  import opened Wrappers

  const HEX := "0123456789abcdef"

  function Escape(c: char): string {
    if c == '"' then "\\\""
    else if c == '\\' then "\\\\"
    else if c == '\U{8}' then "\\b"
    else if c == '\U{C}' then "\\f"
    else if c == '\n' then "\\n"
    else if c == '\r' then "\\r"
    else if c == '\t' then "\\t"
    else if c < ' ' then "\\u00" + [HEX[c as int / 16], HEX[c as int % 16]]
    else [c]
  }

  function Escapes(s: string): string {
    if s == "" then "" else Escape(s[0]) + Escapes(s[1..])
  }

  /** `serde_json::json!(s)`. */
  function Quoted(s: string): string {
    "\"" + Escapes(s) + "\""
  }

  predicate Plain(c: char) {
    c != '"' && c != '\\'
  }

  /** A plain character, or a backslash with one character, or with a code of plain ones. */
  predicate WellEscaped(e: string) {
    || (|e| == 1 && Plain(e[0]))
    || (|e| == 2 && e[0] == '\\')
    || (|e| == 6 && e[0] == '\\' && Plain(e[2]) && Plain(e[3]) && Plain(e[4]) && Plain(e[5]))
  }

  lemma EscapesWell(c: char)
    ensures WellEscaped(Escape(c))
  {}

  // ------------------------------------------------------------------ reading back

  function HexValue(c: char): Option<nat> {
    if '0' <= c <= '9' then Some((c as int) - ('0' as int))
    else if 'a' <= c <= 'f' then Some((c as int) - ('a' as int) + 10)
    else None
  }

  /** One character of a JSON string, and what follows it; none at the closing quote. */
  function ReadOne(s: string): (r: Option<(char, string)>)
    ensures r.Some? ==> |r.value.1| < |s|
  {
    if s == "" || s[0] == '"' || s[0] < ' ' then None
    else if s[0] != '\\' then Some((s[0], s[1..]))
    else if |s| < 2 then None
    else match s[1]
      case '"' => Some(('"', s[2..]))
      case '\\' => Some(('\\', s[2..]))
      case 'b' => Some(('\U{8}', s[2..]))
      case 'f' => Some(('\U{C}', s[2..]))
      case 'n' => Some(('\n', s[2..]))
      case 'r' => Some(('\r', s[2..]))
      case 't' => Some(('\t', s[2..]))
      case 'u' => ReadCode(s)
      case _ => None
  }

  /** A character below 256, by its code. */
  function ReadCode(s: string): (r: Option<(char, string)>)
    ensures r.Some? ==> |r.value.1| < |s|
  {
    if |s| < 6 || s[2..4] != "00" then None
    else match (HexValue(s[4]), HexValue(s[5]))
      case (Some(a), Some(b)) => Some(((16 * a + b) as char, s[6..]))
      case _ => None
  }

  /** A string up to its closing quote, and what follows the quote. */
  function Read(s: string): Option<(string, string)> {
    if s != "" && s[0] == '"' then Some(("", s[1..]))
    else match ReadOne(s)
      case None => None
      case Some((c, rest)) =>
        match Read(rest) case Some((text, after)) => Some(([c] + text, after)) case None => None
  }

  lemma ReadEscape(c: char, rest: string)
    ensures var s := Escape(c) + rest; s[0] != '"' && ReadOne(s) == Some((c, rest))
  {
    var e := Escape(c);
    assert (e + rest)[|e|..] == rest;
    if |e| == 6 { ReadControl(c, rest); }
  }

  lemma ReadControl(c: char, rest: string)
    requires |Escape(c)| == 6
    ensures ReadCode(Escape(c) + rest) == Some((c, rest))
  {
    var v := c as int;
    var s := Escape(c) + rest;
    assert s[2..4] == "00" && s[6..] == rest;
    HexDigit(v / 16);
    HexDigit(v % 16);
  }

  lemma HexDigit(v: nat)
    requires v < 16
    ensures HexValue(HEX[v]) == Some(v)
  {}

  /** Whatever the message, it is read back whole and unchanged, and ends where it ends. */
  lemma {:induction false} QuotedReadsBack(s: string, rest: string)
    ensures Read(Escapes(s) + "\"" + rest) == Some((s, rest))
  {
    if s == "" {
      assert "" + "\"" + rest == "\"" + rest;
    } else {
      var e, more := Escape(s[0]), Escapes(s[1..]);
      QuotedReadsBack(s[1..], rest);
      ReadNext(s[0], more + "\"" + rest, s[1..], rest);
      Regroup(e, more, "\"", rest);
      assert [s[0]] + s[1..] == s;
    }
  }

  lemma Regroup(a: string, b: string, c: string, d: string)
    ensures a + b + c + d == a + (b + c + d)
  {}

  lemma ReadNext(c: char, tail: string, text: string, after: string)
    requires Read(tail) == Some((text, after))
    ensures Read(Escape(c) + tail) == Some(([c] + text, after))
  {
    ReadEscape(c, tail);
  }

  /** And it stays on one line. */
  lemma {:induction false} QuotedIsOneLine(s: string)
    ensures '\n' !in Quoted(s) && '\r' !in Quoted(s)
  {
    if s != "" {
      QuotedIsOneLine(s[1..]);
      EscapeIsOneLine(s[0]);
      assert forall c :: c in Escapes(s[1..]) ==> c in Quoted(s[1..]);
    }
  }

  lemma EscapeIsOneLine(c: char)
    ensures '\n' !in Escape(c) && '\r' !in Escape(c)
  {
    if c < ' ' && |Escape(c)| == 6 {
      assert forall k :: 0 <= k < 16 ==> HEX[k] != '\n' && HEX[k] != '\r';
    }
  }
}
