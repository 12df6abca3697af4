/** The CSS plugin's `transform` (src/node/plugins/css.ts): a stylesheet request is turned
    into a JavaScript module that injects the stylesheet into the page and exports its text. */
module CssPlugin {
  import opened Wrappers
  import opened Strings
  import opened PluginHooks

  const CssSuffix := ".css"

  /** The stylesheet as embedded in the module: `code.replace(/\n/g, "").replace(/"/g, "'")`.
      It holds neither a double quote nor a line feed, and it loses exactly its line feeds.
      Carriage returns and backslashes are kept as they are. */
  function CssString(code: string): (r: string)
    ensures '"' !in r && '\n' !in r
    ensures |r| == |code| - multiset(code)['\n']
  {
    var flat := RemoveAll(code, '\n');
    var r := ReplaceAll(flat, '"', '\'');
    assert forall k :: 0 <= k < |r| ==> r[k] != '"' && r[k] != '\n';
    r
  }

  /** A stylesheet with neither a double quote nor a line feed is embedded as it is. */
  lemma CssStringKeepsPlainText(code: string)
    requires '"' !in code && '\n' !in code
    ensures CssString(code) == code
  {
    RemoveAbsent(code, '\n');
  }

  /** Embedding is idempotent. */
  lemma CssStringIdempotent(code: string)
    ensures CssString(CssString(code)) == CssString(code)
  {
    CssStringKeepsPlainText(CssString(code));
  }

  /** The indentation of the template's lines. */
  const Indent := "          "

  const Opening := "const css = \""

  /** The statements after the string literal, up to the export. */
  const StyleStatements :=
    "\";\n" +
    Indent + "const style = document.createElement(\"style\");\n" +
    Indent + "style.setAttribute(\"type\", \"text/css\");\n" +
    Indent + "style.innerHTML = css;\n" +
    Indent + "document.head.appendChild(style);\n" +
    Indent

  const ExportLine := "export default css;"

  /** The white space the template starts and ends with. */
  const Margin := "\n" + Indent

  /** The template literal before `.trim()`. */
  function Template(css: string): string
  {
    Margin + Opening + css + StyleStatements + ExportLine + Margin
  }

  /** `String.prototype.trim`'s white space and line terminators. */
  predicate IsJsWhitespace(c: char)
  {
    c == ' ' || c == '\t' || c == '\n' || c == '\U{000B}' || c == '\U{000C}' || c == '\r' ||
    c == '\U{00A0}' || c == '\U{1680}' || ('\U{2000}' <= c <= '\U{200A}') ||
    c == '\U{2028}' || c == '\U{2029}' || c == '\U{202F}' || c == '\U{205F}' ||
    c == '\U{3000}' || c == '\U{FEFF}'
  }

  function TrimStart(s: string): (r: string)
    ensures |r| <= |s| && r == s[|s| - |r|..]
    ensures |r| > 0 ==> !IsJsWhitespace(r[0])
    ensures forall k :: 0 <= k < |s| - |r| ==> IsJsWhitespace(s[k])
  {
    if |s| > 0 && IsJsWhitespace(s[0]) then TrimStart(s[1..]) else s
  }

  function TrimEnd(s: string): (r: string)
    ensures |r| <= |s| && r == s[..|r|]
    ensures |r| > 0 ==> !IsJsWhitespace(r[|r| - 1])
    ensures forall k :: |r| <= k < |s| ==> IsJsWhitespace(s[k])
  {
    if |s| > 0 && IsJsWhitespace(s[|s| - 1]) then TrimEnd(s[..|s| - 1]) else s
  }

  /** `trim()`: the result starts and ends with non-white characters, and it is empty
      exactly when the input is all white space. */
  function Trim(s: string): (r: string)
    ensures |r| <= |s|
    ensures |r| > 0 ==> !IsJsWhitespace(r[0]) && !IsJsWhitespace(r[|r| - 1])
    ensures r == "" <==> forall k :: 0 <= k < |s| ==> IsJsWhitespace(s[k])
  {
    TrimAllWhite(s);
    TrimEnd(TrimStart(s))
  }

  lemma TrimAllWhite(s: string)
    ensures TrimEnd(TrimStart(s)) == "" <==> forall k :: 0 <= k < |s| ==> IsJsWhitespace(s[k])
  {
    var t := TrimStart(s);
    if |t| > 0 {
      assert t[0] == s[|s| - |t|];
    }
  }

  /** Trimming removes exactly a run of white space around text that starts and ends with
      something else. */
  lemma {:induction false} TrimSurrounded(lead: string, body: string, trail: string)
    requires forall k :: 0 <= k < |lead| ==> IsJsWhitespace(lead[k])
    requires forall k :: 0 <= k < |trail| ==> IsJsWhitespace(trail[k])
    requires |body| > 0 && !IsJsWhitespace(body[0]) && !IsJsWhitespace(body[|body| - 1])
    ensures Trim(lead + body + trail) == body
  {
    TrimStartSkips(lead, body + trail);
    assert lead + body + trail == lead + (body + trail);
    TrimEndSkips(body, trail);
  }

  lemma {:induction false} TrimStartSkips(lead: string, rest: string)
    requires forall k :: 0 <= k < |lead| ==> IsJsWhitespace(lead[k])
    requires |rest| > 0 && !IsJsWhitespace(rest[0])
    ensures TrimStart(lead + rest) == rest
  {
    if |lead| == 0 {
      assert lead + rest == rest;
    } else {
      assert (lead + rest)[1..] == lead[1..] + rest;
      TrimStartSkips(lead[1..], rest);
    }
  }

  lemma {:induction false} TrimEndSkips(rest: string, trail: string)
    requires forall k :: 0 <= k < |trail| ==> IsJsWhitespace(trail[k])
    requires |rest| > 0 && !IsJsWhitespace(rest[|rest| - 1])
    ensures TrimEnd(rest + trail) == rest
  {
    if |trail| == 0 {
      assert rest + trail == rest;
    } else {
      var init := trail[..|trail| - 1];
      assert (rest + trail)[..|rest + trail| - 1] == rest + init;
      TrimEndSkips(rest, init);
    }
  }

  /** `transform(code, id)`: the module for a stylesheet request, without a source map; no
      result for any other id. */
  function Transform(code: string, id: string): (r: Option<SourceDescription>)
    ensures r.Some? <==> EndsWith(id, CssSuffix)
    ensures r.Some? ==> r.value.sourceMap == None
  {
    if EndsWith(id, CssSuffix)
    then Some(SourceDescription(Trim(Template(CssString(code))), None))
    else None
  }

  /** Where the parts of a concatenation sit. */
  lemma Framed(o: string, css: string, st: string, ex: string)
    ensures var m := o + css + st + ex;
            && StartsWith(m, o) && EndsWith(m, ex)
            && m[|o|..] == css + st + ex
  {
    var m := o + css + st + ex;
    assert m == o + (css + st + ex);
    assert m == (o + css + st) + ex;
  }

  lemma MarginIsWhitespace()
    ensures forall k :: 0 <= k < |Margin| ==> IsJsWhitespace(Margin[k])
  {
  }

  /** The text `trim()` keeps: from the opening statement to the export. */
  function Body(css: string): string
  {
    Opening + css + StyleStatements + ExportLine
  }

  lemma Regroup(m: string, o: string, css: string, st: string, ex: string)
    ensures m + o + css + st + ex + m == m + (o + css + st + ex) + m
  {
  }

  lemma BodyBounds(css: string)
    ensures Template(css) == Margin + Body(css) + Margin
    ensures |Body(css)| > 0 && Body(css)[0] == 'c' && Body(css)[|Body(css)| - 1] == ';'
  {
    Regroup(Margin, Opening, css, StyleStatements, ExportLine);
    Framed(Opening, css, StyleStatements, ExportLine);
    OpeningStartsWithC();
    ExportEndsWithSemicolon();
  }

  lemma OpeningStartsWithC()
    ensures |Opening| > 0 && Opening[0] == 'c'
  {
  }

  lemma ExportEndsWithSemicolon()
    ensures |ExportLine| > 0 && ExportLine[|ExportLine| - 1] == ';'
  {
  }

  /** The module for a stylesheet starts with `const css = "`, holds the embedded stylesheet,
      and ends with `export default css;`. */
  lemma TransformShape(code: string, id: string)
    requires EndsWith(id, CssSuffix)
    ensures var m := Transform(code, id).value.code;
            && m == Opening + CssString(code) + StyleStatements + ExportLine
            && StartsWith(m, Opening)
            && EndsWith(m, ExportLine)
  {
    var css := CssString(code);
    BodyBounds(css);
    MarginIsWhitespace();
    TrimSurrounded(Margin, Body(css), Margin);
    Framed(Opening, css, StyleStatements, ExportLine);
  }

  /** In the module's text, the characters after `const css = "` up to the next double
      quote are exactly the embedded stylesheet. */
  lemma LiteralHoldsStylesheet(code: string, id: string)
    requires EndsWith(id, CssSuffix)
    ensures var m := Transform(code, id).value.code;
            |Opening| <= |m| &&
            var afterOpening := m[|Opening|..];
            afterOpening[..FirstIndexOf(afterOpening, '"')] == CssString(code)
  {
    TransformShape(code, id);
    var css := CssString(code);
    Framed(Opening, css, StyleStatements, ExportLine);
    StatementsStartWithQuote();
    QuoteFirst3(css, StyleStatements, ExportLine);
  }

  lemma QuoteFirst3(css: string, st: string, ex: string)
    requires '"' !in css && |st| > 0 && st[0] == '"'
    ensures (css + st + ex)[..FirstIndexOf(css + st + ex, '"')] == css
  {
    assert css + st + ex == css + (st + ex);
    QuoteFirst(css, st + ex);
  }

  lemma StatementsStartWithQuote()
    ensures |StyleStatements| > 0 && StyleStatements[0] == '"'
  {
  }

  /** A text without double quotes followed by one that starts with a double quote. */
  lemma QuoteFirst(css: string, rest: string)
    requires '"' !in css && |rest| > 0 && rest[0] == '"'
    ensures (css + rest)[..FirstIndexOf(css + rest, '"')] == css
  {
    FirstIndexOfAppend(css, rest, '"');
    assert (css + rest)[..|css|] == css;
  }
}
