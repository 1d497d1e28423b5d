/** Redaction of string literals in diagnostics (crates/proxy/src/lib.rs). */
module Redaction {
  import opened Common
  import opened AmbiguityPolicy

  const MAX_DIAGNOSTIC_LENGTH: nat := 1024
  const MARK := "'<redacted>"
  const ELLIPSIS := "\U{2026}"

  /** The output once scanning stops. */
  function Finish(output: string, inString: bool): string { if inString then output + "'" else output }

  /** The scan of the remaining characters. */
  function Scan(rest: string, output: string, inString: bool): string
    decreases |rest|
  {
    if rest == "" then Finish(output, inString)
    else if inString then
      if rest[0] != '\'' then Scan(rest[1..], output, true)
      else if |rest| > 1 && rest[1] == '\'' then Scan(rest[2..], output, true)
      else Scan(rest[1..], output + "'", false)
    else
      var output' := output + if rest[0] == '\'' then MARK else [rest[0]];
      if Utf8Length(output') >= MAX_DIAGNOSTIC_LENGTH then Finish(output' + ELLIPSIS, rest[0] == '\'')
      else Scan(rest[1..], output', rest[0] == '\'')
  }

  /** `redact_sql_literals`: one pass with a one-character lookahead. */
  method RedactSqlLiterals(query: string) returns (redacted: string)
    ensures redacted == Scan(query, "", false)
  {
    redacted := "";
    var i, inString := 0, false;
    while i < |query|
      invariant 0 <= i <= |query|
      invariant Scan(query, "", false) == Scan(query[i..], redacted, inString)
    {
      var character := query[i];
      i := i + 1;
      assert query[i - 1..][0] == character && query[i - 1..][1..] == query[i..];
      if inString {
        if character == '\'' {
          if i < |query| && query[i] == '\'' {
            assert query[i - 1..][2..] == query[i + 1..];
            i := i + 1;
            continue;
          }
          inString := false;
          redacted := redacted + "'";
        }
        continue;
      }
      if character == '\'' {
        inString := true;
        redacted := redacted + MARK;
      } else {
        redacted := redacted + [character];
      }
      if Utf8Length(redacted) >= MAX_DIAGNOSTIC_LENGTH {
        redacted := redacted + ELLIPSIS;
        break;
      }
    }
    if inString {
      redacted := redacted + "'";
    }
  }

  lemma Utf8Append(s: string, c: char)
    ensures Utf8Length(s + [c]) == Utf8Length(s) + Utf8Size(c)
  {
    assert (s + [c])[..|s|] == s;
  }

  lemma {:induction false} Utf8Concat(s: string, t: string)
    ensures Utf8Length(s + t) == Utf8Length(s) + Utf8Length(t)
  {
    if t == "" {
      assert s + t == s;
    } else {
      var n := |t| - 1;
      Utf8Concat(s, t[..n]);
      assert (s + t)[..|s + t| - 1] == s + t[..n];
    }
  }

  lemma {:induction false} AsciiLength(s: string)
    requires forall i :: 0 <= i < |s| ==> s[i] as int < 0x80
    ensures Utf8Length(s) == |s|
  {
    if s != "" {
      AsciiLength(s[..|s| - 1]);
    }
  }

  lemma MarkLength()
    ensures Utf8Length(MARK) == 11 && Utf8Length(ELLIPSIS) == 3 && Utf8Length("'") == 1
  {
    AsciiLength(MARK);
    AsciiLength("'");
    assert ELLIPSIS[..0] == "";
    assert Utf8Size(ELLIPSIS[0]) == 3;
  }

  /** The room left while scanning: one byte past the limit is possible only right after a closing
      quote, and then the lookahead guarantees that no quote follows. */
  predicate WithinBudget(rest: string, output: string, inString: bool)
  {
    || Utf8Length(output) < MAX_DIAGNOSTIC_LENGTH
    || (!inString && Utf8Length(output) == MAX_DIAGNOSTIC_LENGTH && (rest == "" || rest[0] != '\''))
  }

  lemma {:induction false} ScanIsBounded(rest: string, output: string, inString: bool)
    requires WithinBudget(rest, output, inString)
    ensures Utf8Length(Scan(rest, output, inString)) <= 1038
    decreases |rest|
  {
    MarkLength();
    Utf8Concat(output, "'");
    if rest != "" {
      if inString {
        if rest[0] != '\'' {
          ScanIsBounded(rest[1..], output, true);
        } else if |rest| > 1 && rest[1] == '\'' {
          ScanIsBounded(rest[2..], output, true);
        } else {
          ScanIsBounded(rest[1..], output + "'", false);
        }
      } else {
        var output' := output + if rest[0] == '\'' then MARK else [rest[0]];
        Utf8Concat(output, MARK);
        Utf8Append(output, rest[0]);
        Utf8Concat(output', ELLIPSIS);
        Utf8Concat(output' + ELLIPSIS, "'");
        if Utf8Length(output') < MAX_DIAGNOSTIC_LENGTH {
          ScanIsBounded(rest[1..], output', rest[0] == '\'');
        }
      }
    }
  }

  /** No diagnostic exceeds 1038 bytes. */
  lemma RedactionIsBounded(query: string)
    ensures Utf8Length(Scan(query, "", false)) <= 1038
  {
    ScanIsBounded(query, "", false);
  }

  function Repeat(c: char, n: nat): (s: string)
    ensures |s| == n && forall i :: 0 <= i < n ==> s[i] == c
  {
    seq(n, i => c)
  }

  lemma ScanOnePlain(output: string, rest: string)
    requires Utf8Length(output) + 1 < MAX_DIAGNOSTIC_LENGTH
    ensures Scan(['x'] + rest, output, false) == Scan(rest, output + ['x'], false)
    ensures Utf8Length(output + ['x']) == Utf8Length(output) + 1
  {
    Utf8Append(output, 'x');
    assert (['x'] + rest)[1..] == rest;
  }

  lemma {:induction false} ScanPlain(n: nat, output: string, rest: string)
    requires Utf8Length(output) + n < MAX_DIAGNOSTIC_LENGTH
    ensures Scan(Repeat('x', n) + rest, output, false) == Scan(rest, output + Repeat('x', n), false)
    ensures Utf8Length(output + Repeat('x', n)) == Utf8Length(output) + n
    decreases n
  {
    if n == 0 {
      assert Repeat('x', 0) + rest == rest && output + Repeat('x', 0) == output;
    } else {
      assert Repeat('x', n) + rest == ['x'] + (Repeat('x', n - 1) + rest);
      assert output + ['x'] + Repeat('x', n - 1) == output + Repeat('x', n);
      ScanOnePlain(output, Repeat('x', n - 1) + rest);
      ScanPlain(n - 1, output + ['x'], rest);
    }
  }

  /** The bound is attained: 1023 plain characters followed by an opening quote. */
  lemma BoundIsTight()
    ensures Utf8Length(Scan(Repeat('x', 1023) + "'", "", false)) == 1038
  {
    MarkLength();
    ScanPlain(1023, "", "'");
    var output := "" + Repeat('x', 1023);
    assert Scan("'", output, false) == Finish(output + MARK + ELLIPSIS, true) by {
      Utf8Concat(output, MARK);
    }
    Utf8Concat(output, MARK);
    Utf8Concat(output + MARK, ELLIPSIS);
    Utf8Concat(output + MARK + ELLIPSIS, "'");
  }

  // ---------------------------------------------------------------------------
  // Non-interference
  // ---------------------------------------------------------------------------

  /** A query with holes for the contents of its string literals. */
  datatype Template =
    | Plain(text: string)
    | Unterminated(text: string)
    | Quoted(text: string, rest: Template)

  function TemplateSize(t: Template): nat
  {
    |t.text| + if t.Quoted? then 1 + TemplateSize(t.rest) else 0
  }

  predicate QuoteFree(s: string) { '\'' !in s }

  /** Texts contain no quote, and no literal follows another immediately: `'a''b'` is one literal. */
  predicate WellFormed(t: Template)
  {
    QuoteFree(t.text) && (t.Quoted? ==> WellFormed(t.rest) && (t.rest.text != "" || t.rest == Plain("")))
  }

  function Holes(t: Template): nat
  {
    match t case Plain(_) => 0 case Unterminated(_) => 1 case Quoted(_, rest) => 1 + Holes(rest)
  }

  /** A literal's content as it is written: every quote doubled. */
  function Escape(content: string): string
  {
    if content == "" then ""
    else (if content[0] == '\'' then "''" else [content[0]]) + Escape(content[1..])
  }

  function Fill(t: Template, contents: seq<string>): string
    requires |contents| == Holes(t)
  {
    match t
    case Plain(text) => text
    case Unterminated(text) => text + ("'" + Escape(contents[0]))
    case Quoted(text, rest) => text + ("'" + Escape(contents[0]) + "'" + Fill(rest, contents[1..]))
  }

  /** What can be observed of a template. */
  function Visible(t: Template, output: string): string
    decreases TemplateSize(t)
  {
    if t.text != "" then
      var output' := output + [t.text[0]];
      if Utf8Length(output') >= MAX_DIAGNOSTIC_LENGTH then output' + ELLIPSIS
      else Visible(t.(text := t.text[1..]), output')
    else if t.Plain? then output
    else if Utf8Length(output + MARK) >= MAX_DIAGNOSTIC_LENGTH then output + MARK + ELLIPSIS + "'"
    else if t.Unterminated? then output + MARK + "'"
    else Visible(t.rest, output + MARK + "'")
  }

  lemma {:induction false} ScanLiteral(content: string, rest: string, output: string)
    requires rest == "" || rest[0] != '\''
    ensures Scan(Escape(content) + "'" + rest, output, true) == Scan(rest, output + "'", false)
  {
    var text := Escape(content) + "'" + rest;
    if content == "" {
      assert text == "'" + rest && text[1..] == rest;
    } else if content[0] == '\'' {
      ScanLiteral(content[1..], rest, output);
      assert text[2..] == Escape(content[1..]) + "'" + rest;
    } else {
      ScanLiteral(content[1..], rest, output);
      assert text[1..] == Escape(content[1..]) + "'" + rest;
    }
  }

  lemma {:induction false} ScanOpenLiteral(content: string, output: string)
    ensures Scan(Escape(content), output, true) == output + "'"
  {
    if content != "" {
      ScanOpenLiteral(content[1..], output);
      var text := Escape(content);
      if content[0] == '\'' {
        assert text[2..] == Escape(content[1..]);
      } else {
        assert text[1..] == Escape(content[1..]);
      }
    }
  }

  lemma FillStart(t: Template, contents: seq<string>)
    requires |contents| == Holes(t) && WellFormed(t) && (t.text != "" || t == Plain(""))
    ensures Fill(t, contents) == "" || Fill(t, contents)[0] != '\''
  {
  }

  lemma {:induction false} ScanShowsVisible(t: Template, contents: seq<string>, output: string)
    requires |contents| == Holes(t) && WellFormed(t)
    ensures Scan(Fill(t, contents), output, false) == Visible(t, output)
    decreases TemplateSize(t)
  {
    var text := Fill(t, contents);
    if t.text != "" {
      var t' := t.(text := t.text[1..]);
      assert text[1..] == Fill(t', contents);
      ScanShowsVisible(t', contents, output + [t.text[0]]);
    } else if t.Unterminated? {
      assert text[1..] == Escape(contents[0]);
      ScanOpenLiteral(contents[0], output + MARK);
    } else if t.Quoted? {
      var rest := Fill(t.rest, contents[1..]);
      assert text[1..] == Escape(contents[0]) + "'" + rest;
      FillStart(t.rest, contents[1..]);
      ScanLiteral(contents[0], rest, output + MARK);
      ScanShowsVisible(t.rest, contents[1..], output + MARK + "'");
    }
  }

  /** Non-interference: queries that differ only inside their string literals look the same. */
  lemma {:induction false} LiteralsDoNotLeak(t: Template, a: seq<string>, b: seq<string>)
    requires WellFormed(t) && |a| == |b| == Holes(t)
    ensures Scan(Fill(t, a), "", false) == Scan(Fill(t, b), "", false)
  {
    ScanShowsVisible(t, a, "");
    ScanShowsVisible(t, b, "");
  }

  // ---------------------------------------------------------------------------
  // Every query is covered
  // ---------------------------------------------------------------------------

  /** The content of the literal whose opening quote was just read, and what follows its closing
      quote, if there is one. */
  function Unescape(rest: string): (string, Option<string>)
  {
    if rest == "" then ("", None)
    else if rest[0] != '\'' then
      var (content, after) := Unescape(rest[1..]);
      ([rest[0]] + content, after)
    else if |rest| > 1 && rest[1] == '\'' then
      var (content, after) := Unescape(rest[2..]);
      ("'" + content, after)
    else ("", Some(rest[1..]))
  }

  lemma {:induction false} UnescapeExact(rest: string)
    ensures var (content, after) := Unescape(rest);
            && rest == Escape(content) + (if after.Some? then "'" + after.value else "")
            && (after.Some? ==> |after.value| < |rest| && (after.value == "" || after.value[0] != '\''))
  {
    if rest != "" {
      if rest[0] != '\'' {
        UnescapeExact(rest[1..]);
        EscapeFirst(rest[0], Unescape(rest[1..]).0);
        assert rest == [rest[0]] + rest[1..];
      } else if |rest| > 1 && rest[1] == '\'' {
        UnescapeExact(rest[2..]);
        EscapeFirst('\'', Unescape(rest[2..]).0);
        assert rest == "''" + rest[2..];
      } else {
        assert rest == "'" + rest[1..];
      }
    }
  }

  lemma EscapeFirst(c: char, content: string)
    ensures Escape([c] + content) == (if c == '\'' then "''" else [c]) + Escape(content)
  {
    assert ([c] + content)[1..] == content;
  }

  /** A template and contents that make up the query. */
  function Decompose(query: string): (Template, seq<string>)
    decreases |query|
  {
    if query == "" then (Plain(""), [])
    else if query[0] != '\'' then
      var (t, contents) := Decompose(query[1..]);
      (t.(text := [query[0]] + t.text), contents)
    else
      UnescapeExact(query[1..]);
      match Unescape(query[1..])
      case (content, None) => (Unterminated(""), [content])
      case (content, Some(after)) =>
        var (t, contents) := Decompose(after);
        (Quoted("", t), [content] + contents)
  }

  /** The query is its own template filled with its own contents. */
  predicate Decomposed(query: string)
  {
    var (t, contents) := Decompose(query);
    WellFormed(t) && |contents| == Holes(t) && Fill(t, contents) == query
  }

  /** Every query is a well-formed template filled with contents. */
  lemma {:induction false} EveryQueryDecomposes(query: string)
    ensures Decomposed(query)
    decreases |query|
  {
    if query != "" {
      if query[0] != '\'' {
        EveryQueryDecomposes(query[1..]);
        PlainDecomposed(query);
      } else {
        UnescapeExact(query[1..]);
        match Unescape(query[1..]).1 {
          case None => assert query == [query[0]] + query[1..];
          case Some(after) =>
            EveryQueryDecomposes(after);
            LiteralDecomposed(query, after);
        }
      }
    }
  }

  lemma PlainDecomposed(query: string)
    requires query != "" && query[0] != '\'' && Decomposed(query[1..])
    ensures Decomposed(query)
  {
    assert query == [query[0]] + query[1..];
  }

  lemma LiteralDecomposed(query: string, after: string)
    requires query != "" && query[0] == '\'' && Unescape(query[1..]).1 == Some(after) && Decomposed(after)
    ensures Decomposed(query)
  {
    UnescapeExact(query[1..]);
    TextFirst(after);
    FillQuoted(Unescape(query[1..]).0, Decompose(after).0, Decompose(after).1);
    assert query == [query[0]] + query[1..];
  }

  /** A literal in front of a filled template fills the template with one more hole. */
  lemma FillQuoted(content: string, t: Template, contents: seq<string>)
    requires WellFormed(t) && |contents| == Holes(t) && (t.text != "" || t == Plain(""))
    ensures WellFormed(Quoted("", t)) && |[content] + contents| == Holes(Quoted("", t))
    ensures Fill(Quoted("", t), [content] + contents) == "'" + (Escape(content) + ("'" + Fill(t, contents)))
  {
    assert ([content] + contents)[1..] == contents;
  }

  /** A query that does not begin with a quote has plain text in front. */
  lemma TextFirst(query: string)
    requires query == "" || query[0] != '\''
    ensures Decompose(query).0.text != "" || Decompose(query).0 == Plain("")
  {
  }

  /** Non-interference on all queries: the output depends on the template of the query alone. */
  lemma OutputDependsOnTemplate(a: string, b: string)
    requires Decompose(a).0 == Decompose(b).0
    ensures Scan(a, "", false) == Scan(b, "", false)
  {
    EveryQueryDecomposes(a);
    EveryQueryDecomposes(b);
    LiteralsDoNotLeak(Decompose(a).0, Decompose(a).1, Decompose(b).1);
  }

  // ---------------------------------------------------------------------------
  // Instances
  // ---------------------------------------------------------------------------

  /** Short plain text is copied. */
  lemma {:induction false} ScanShortText(text: string, rest: string, output: string)
    requires QuoteFree(text) && Utf8Length(output + text) < MAX_DIAGNOSTIC_LENGTH
    ensures Scan(text + rest, output, false) == Scan(rest, output + text, false)
    decreases |text|
  {
    if text == "" {
      assert text + rest == rest && output + text == output;
    } else {
      var output' := output + [text[0]];
      assert (text + rest)[1..] == text[1..] + rest && output' + text[1..] == output + text;
      Utf8Concat(output', text[1..]);
      ScanShortText(text[1..], rest, output');
    }
  }

  lemma ScanQuoted(content: string, right: string, output: string)
    requires right == "" || right[0] != '\''
    requires Utf8Length(output) + 11 < MAX_DIAGNOSTIC_LENGTH
    ensures Scan("'" + (Escape(content) + "'" + right), output, false) == Scan(right, output + "'<redacted>'", false)
  {
    MarkLength();
    Utf8Concat(output, MARK);
    var tail := Escape(content) + "'" + right;
    assert ("'" + tail)[1..] == tail;
    ScanLiteral(content, right, output + MARK);
    assert output + MARK + "'" == output + "'<redacted>'";
  }

  /** A query with one literal shows the text around it, and the mark in place of the literal. */
  lemma OneLiteralRedacted(left: string, content: string, right: string)
    requires QuoteFree(left) && QuoteFree(right) && Utf8Length(left) + 12 + Utf8Length(right) < MAX_DIAGNOSTIC_LENGTH
    ensures Scan(left + ("'" + (Escape(content) + "'" + right)), "", false) == left + "'<redacted>'" + right
  {
    assert "" + left == left;
    ScanShortText(left, "'" + (Escape(content) + "'" + right), "");
    ScanQuoted(content, right, left);
    MarkedLength(left, right);
    ScanTail(right, left + "'<redacted>'");
  }

  lemma MarkedLength(left: string, right: string)
    ensures Utf8Length(left + "'<redacted>'" + right) == Utf8Length(left) + 12 + Utf8Length(right)
  {
    AsciiLength("'<redacted>'");
    Utf8Concat(left, "'<redacted>'");
    Utf8Concat(left + "'<redacted>'", right);
  }

  lemma ScanTail(text: string, output: string)
    requires QuoteFree(text) && Utf8Length(output + text) < MAX_DIAGNOSTIC_LENGTH
    ensures Scan(text, output, false) == output + text
  {
    assert text + "" == text;
    ScanShortText(text, "", output);
  }

  /** Text that reaches the limit is cut off with an ellipsis, whatever follows. */
  lemma TruncationExact(text: string, last: char, rest: string)
    requires QuoteFree(text) && last != '\''
    requires Utf8Length(text) < 1024 && Utf8Length(text + [last]) >= 1024
    ensures Scan(text + ([last] + rest), "", false) == text + [last] + "\U{2026}"
  {
    assert "" + text == text;
    ScanShortText(text, [last] + rest, "");
    assert ([last] + rest)[1..] == rest;
  }

  /** Shorter plain text is copied whole. */
  lemma PlainTextKept(text: string)
    requires QuoteFree(text) && Utf8Length(text) < 1024
    ensures Scan(text, "", false) == text
  {
    assert "" + text == text;
    ScanTail(text, "");
  }
}
