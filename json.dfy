/** `JSON.stringify` applied to a string, and the reading of a JSON string literal that
    undoes it. The dev server uses the former to embed a module url in generated code. */
module Json {
  import opened Wrappers

  function HexDigit(d: nat): char
    requires d < 16
  {
    "0123456789abcdef"[d]
  }

  predicate IsHexDigit(c: char)
  {
    ('0' <= c <= '9') || ('a' <= c <= 'f') || ('A' <= c <= 'F')
  }

  function HexValue(c: char): (d: nat)
    requires IsHexDigit(c)
    ensures d < 16
  {
    if '0' <= c <= '9' then (c as int) - ('0' as int)
    else if 'a' <= c <= 'f' then (c as int) - ('a' as int) + 10
    else (c as int) - ('A' as int) + 10
  }

  /** How `JSON.stringify` writes one character inside the quotes. */
  function EscapeChar(c: char): (r: string)
    ensures |r| > 0
  {
    if c == '"' then "\\\""
    else if c == '\\' then "\\\\"
    else if c as int == 0x08 then "\\b"
    else if c as int == 0x0C then "\\f"
    else if c == '\n' then "\\n"
    else if c == '\r' then "\\r"
    else if c == '\t' then "\\t"
    else if (c as int) < 0x20 then "\\u00" + [HexDigit((c as int) / 16), HexDigit((c as int) % 16)]
    else [c]
  }

  function Escape(s: string): string
  {
    if |s| == 0 then "" else EscapeChar(s[0]) + Escape(s[1..])
  }

  /** `JSON.stringify(s)` for a string `s`. */
  function Stringify(s: string): (r: string)
    ensures |r| >= 2 && r[0] == '"' && r[|r| - 1] == '"'
  {
    "\"" + Escape(s) + "\""
  }

  function Cons(c: char, rest: Option<string>): Option<string>
  {
    if rest.Some? then Some([c] + rest.value) else None
  }

  /** The character named by a one-letter escape, `\"`, `\\`, `\/`, `\b`, `\f`, `\n`, `\r`, `\t`. */
  function SimpleEscape(c: char): Option<char>
  {
    if c == '"' || c == '\\' || c == '/' then Some(c)
    else if c == 'b' then Some(0x08 as char)
    else if c == 'f' then Some(0x0C as char)
    else if c == 'n' then Some('\n')
    else if c == 'r' then Some('\r')
    else if c == 't' then Some('\t')
    else None
  }

  /** The body of a JSON string literal read back into the string it denotes. Escapes of
      UTF-16 surrogates are refused rather than paired. */
  function Unescape(t: string): Option<string>
    decreases |t|
  {
    if |t| == 0 then Some("")
    else if t[0] == '\\' then
      if |t| < 2 then None
      else if t[1] == 'u' then
        if |t| >= 6 && IsHexDigit(t[2]) && IsHexDigit(t[3]) && IsHexDigit(t[4]) && IsHexDigit(t[5]) then
          var v := ((HexValue(t[2]) * 16 + HexValue(t[3])) * 16 + HexValue(t[4])) * 16 + HexValue(t[5]);
          if 0xD800 <= v < 0xE000 then None else Cons(v as char, Unescape(t[6..]))
        else None
      else
        var e := SimpleEscape(t[1]);
        if e.Some? then Cons(e.value, Unescape(t[2..])) else None
    else if t[0] == '"' || (t[0] as int) < 0x20 then None
    else Cons(t[0], Unescape(t[1..]))
  }

  /** `JSON.parse` restricted to a string literal. */
  function ParseString(t: string): Option<string>
  {
    if |t| >= 2 && t[0] == '"' && t[|t| - 1] == '"' then Unescape(t[1..|t| - 1]) else None
  }

  lemma HexDigitValue(d: nat)
    requires d < 16
    ensures IsHexDigit(HexDigit(d)) && HexValue(HexDigit(d)) == d
  {
  }

  /** A `\u00XX` escape of a control character reads back as that character. */
  lemma UnescapeControl(c: char, rest: string)
    requires (c as int) < 0x20
    ensures var hi, lo := (c as int) / 16, (c as int) % 16;
            Unescape("\\u00" + [HexDigit(hi), HexDigit(lo)] + rest) == Cons(c, Unescape(rest))
  {
    var hi, lo := (c as int) / 16, (c as int) % 16;
    var t := "\\u00" + [HexDigit(hi), HexDigit(lo)] + rest;
    HexDigitValue(hi);
    HexDigitValue(lo);
    assert t[..6] == ['\\', 'u', '0', '0', HexDigit(hi), HexDigit(lo)];
    assert t[6..] == rest;
  }

  /** A two-character escape reads back as the character it names. */
  lemma UnescapeShort(c: char, e: string, rest: string)
    requires |e| == 2 && e[0] == '\\' && SimpleEscape(e[1]) == Some(c)
    ensures Unescape(e + rest) == Cons(c, Unescape(rest))
  {
    var t := e + rest;
    assert t[0] == '\\' && t[1] == e[1];
    assert t[2..] == rest;
  }

  /** A character written as itself reads back as itself. */
  lemma UnescapePlain(c: char, rest: string)
    requires c != '\\' && c != '"' && (c as int) >= 0x20
    ensures Unescape([c] + rest) == Cons(c, Unescape(rest))
  {
    assert ([c] + rest)[1..] == rest;
  }

  lemma UnescapeEscapeChar(c: char, rest: string)
    ensures Unescape(EscapeChar(c) + rest) == Cons(c, Unescape(rest))
  {
    if c == '"' || c == '\\' {
      UnescapeShort(c, EscapeChar(c), rest);
    } else if c as int == 0x08 || c as int == 0x0C || c == '\n' || c == '\r' || c == '\t' {
      UnescapeShort(c, EscapeChar(c), rest);
    } else if (c as int) < 0x20 {
      UnescapeControl(c, rest);
    } else {
      UnescapePlain(c, rest);
    }
  }

  lemma {:induction false} UnescapeEscape(s: string)
    ensures Unescape(Escape(s)) == Some(s)
  {
    if |s| > 0 {
      UnescapeEscapeChar(s[0], Escape(s[1..]));
      UnescapeEscape(s[1..]);
      assert [s[0]] + s[1..] == s;
    }
  }

  /** What `JSON.stringify` writes, `JSON.parse` reads back unchanged. */
  lemma StringifyRoundTrip(s: string)
    ensures ParseString(Stringify(s)) == Some(s)
  {
    var t := Stringify(s);
    assert t[1..|t| - 1] == Escape(s);
    UnescapeEscape(s);
  }
}
