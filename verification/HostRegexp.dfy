/** Hostname patterns like "foo.{[^.]+}.example.com" and the regular expressions they stand for. */
module HostRegexp {
  import opened Permutations
  import opened Strings

  function EscapeChar(c: char): string {
    if c == '.' then "\\." else [c]
  }

  /** Go's `strings.ReplaceAll(s, ".", "\.")`. */
  function Escape(s: string): string {
    if s == "" then "" else EscapeChar(s[0]) + Escape(s[1..])
  }

  /** Go's `strings.ReplaceAll(s, "\.", ".")`: from the left, without overlaps. */
  function Unescape(s: string): string {
    if s == "" then ""
    else if "\\." <= s then "." + Unescape(s[2..])
    else [s[0]] + Unescape(s[1..])
  }

  /** Where the match of `\{[^}]+\}` that begins at the first character ends (0: there is none). */
  function Close(s: string): (k: nat)
    ensures k > 0 ==> 1 < k < |s| && s[0] == '{' && s[k] == '}' && '}' !in s[1..k]
  {
    if s == "" || s[0] != '{' then 0
    else
      var k := IndexOf(s, '}');
      if 1 < k < |s| then k else 0
  }

  /** `ReplaceAllStringFunc` with the function that strips the braces and unescapes the rest. */
  function ReplacePlaceholders(s: string): string {
    if s == "" then ""
    else if Close(s) > 0 then Unescape(s[1..Close(s)]) + ReplacePlaceholders(s[Close(s) + 1..])
    else [s[0]] + ReplacePlaceholders(s[1..])
  }

  /** What is handed to the regular expression compiler. */
  function ToRegexp(pattern: string): string {
    "^" + ReplacePlaceholders(Escape(pattern)) + "$"
  }

  /** Without the detour: placeholders verbatim, dots escaped everywhere else. */
  function Render(s: string): string {
    if s == "" then ""
    else if Close(s) > 0 then s[1..Close(s)] + Render(s[Close(s) + 1..])
    else EscapeChar(s[0]) + Render(s[1..])
  }

  /** Also for texts that contain backslashes, or look escaped already. */
  lemma {:induction false} UnescapeEscape(s: string)
    ensures Unescape(Escape(s)) == s
  {
    if s != "" {
      UnescapeEscape(s[1..]);
      var rest := Escape(s[1..]);
      if s[0] == '.' {
        assert Escape(s)[2..] == rest;
      } else {
        assert Escape(s)[1..] == rest && Escape(s)[0] == s[0];
        assert rest != "" ==> rest[0] != '.';
      }
    }
  }

  lemma {:induction false} EscapeConcat(a: string, b: string)
    ensures Escape(a + b) == Escape(a) + Escape(b)
  {
    if a == "" {
      assert a + b == b;
    } else {
      assert (a + b)[1..] == a[1..] + b && (a + b)[0] == a[0];
      EscapeConcat(a[1..], b);
      JoinLeft(EscapeChar(a[0]), Escape(a[1..]), Escape(b));
    }
  }

  lemma {:induction false} EscapeKeepsBraces(s: string)
    ensures '}' in Escape(s) <==> '}' in s
    ensures |Escape(s)| >= |s|
  {
    if s != "" {
      EscapeKeepsBraces(s[1..]);
      assert s == [s[0]] + s[1..];
    }
  }

  /** Escaping neither makes nor breaks a placeholder, and goes through it piece by piece. */
  lemma CloseOfEscaped(s: string)
    ensures var k := Close(s);
            var k', e := Close(Escape(s)), Escape(s);
            if k == 0 then k' == 0
            else k' > 0 && e[1..k'] == Escape(s[1..k]) && e[k' + 1..] == Escape(s[k + 1..])
  {
    var k := Close(s);
    if k > 0 {
      assert s == "{" + s[1..k] + "}" + s[k + 1..];
      EscapePieces(s[1..k], s[k + 1..]);
      EscapeKeepsBraces(s[1..k]);
      CloseIs(Escape(s[1..k]), Escape(s[k + 1..]));
    } else if s != "" && s[0] == '{' {
      NoClose(s);
    }
  }

  lemma EscapePieces(inner: string, rest: string)
    ensures Escape("{" + inner + "}" + rest) == "{" + Escape(inner) + "}" + Escape(rest)
  {
    EscapeConcat("{" + inner + "}", rest);
    EscapeConcat("{" + inner, "}");
    EscapeConcat("{", inner);
    assert Escape("{") == "{" && Escape("}") == "}";
  }

  /** Text between braces is a placeholder. */
  lemma CloseIs(inner: string, rest: string)
    requires inner != "" && '}' !in inner
    ensures var s, k := "{" + inner + "}" + rest, |inner| + 1;
            Close(s) == k && s[1..k] == inner && s[k + 1..] == rest
  {
    var s := "{" + inner + "}" + rest;
    IndexOfUnique(s, '}', |inner| + 1);
  }

  lemma NoClose(s: string)
    requires s != "" && s[0] == '{' && Close(s) == 0
    ensures Close(Escape(s)) == 0
  {
    var rest := s[1..];
    assert Escape(s) == "{" + Escape(rest);
    EscapeKeepsBraces(rest);
    var k := IndexOf(s, '}');
    if k == |s| {
      assert '}' !in rest;
    } else {
      assert k == 1 && rest[0] == '}';
      assert Escape(rest)[0] == '}' && Escape(s)[1] == '}';
      IndexOfUnique(Escape(s), '}', 1);
    }
  }

  lemma ReplaceHead(c: char, s: string)
    requires Close([c] + s) == 0
    ensures ReplacePlaceholders([c] + s) == [c] + ReplacePlaceholders(s)
  {
    assert ([c] + s)[1..] == s;
  }

  lemma ReplaceDot(rest: string)
    ensures ReplacePlaceholders("\\." + rest) == "\\." + ReplacePlaceholders(rest)
  {
    JoinLeft("\\", ".", rest);
    ReplaceHead('\\', "." + rest);
    ReplaceHead('.', rest);
    JoinLeft("\\", ".", ReplacePlaceholders(rest));
  }

  /** Outside placeholders every character is on its own. */
  lemma ReplaceChar(s: string)
    requires s != "" && Close(s) == 0
    ensures ReplacePlaceholders(Escape(s)) == EscapeChar(s[0]) + ReplacePlaceholders(Escape(s[1..]))
  {
    var rest := Escape(s[1..]);
    assert Escape(s) == EscapeChar(s[0]) + rest;
    if s[0] == '.' {
      ReplaceDot(rest);
    } else {
      CloseOfEscaped(s);
      ReplaceHead(s[0], rest);
    }
  }

  lemma {:induction false} ReplaceIsRender(s: string)
    ensures ReplacePlaceholders(Escape(s)) == Render(s)
    decreases |s|
  {
    if s != "" {
      var k := Close(s);
      if k > 0 {
        CloseOfEscaped(s);
        UnescapeEscape(s[1..k]);
        ReplaceIsRender(s[k + 1..]);
      } else {
        ReplaceIsRender(s[1..]);
        ReplaceChar(s);
      }
    }
  }

  /** For every pattern there is. */
  lemma ToRegexpIsRender(pattern: string)
    ensures ToRegexp(pattern) == "^" + Render(pattern) + "$"
  {
    ReplaceIsRender(pattern);
  }

  // --- patterns as people write them ---

  datatype Part = Literal(text: string) | Placeholder(regexp: string)

  predicate PartOk(part: Part) {
    if part.Literal? then '{' !in part.text else part.regexp != "" && '}' !in part.regexp
  }

  function Written(parts: seq<Part>): string {
    if parts == [] then ""
    else (if parts[0].Literal? then parts[0].text else "{" + parts[0].regexp + "}") + Written(parts[1..])
  }

  function Meant(parts: seq<Part>): string {
    if parts == [] then ""
    else (if parts[0].Literal? then Escape(parts[0].text) else parts[0].regexp) + Meant(parts[1..])
  }

  lemma RenderChar(text: string, rest: string)
    requires text != "" && '{' !in text
    ensures Render([text[0]] + rest) == EscapeChar(text[0]) + Render(rest)
  {
    var s := [text[0]] + rest;
    assert text[0] in text && Close(s) == 0 && s[1..] == rest;
  }

  lemma {:induction false} RenderLiteral(text: string, rest: string)
    requires '{' !in text
    ensures Render(text + rest) == Escape(text) + Render(rest)
  {
    if text == "" {
      assert text + rest == rest;
    } else {
      RenderChar(text, text[1..] + rest);
      assert text + rest == [text[0]] + (text[1..] + rest);
      RenderLiteral(text[1..], rest);
      JoinLeft(EscapeChar(text[0]), Escape(text[1..]), Render(rest));
    }
  }

  /** Literals come out escaped and placeholders as they are, between anchors. */
  lemma {:induction false} WrittenIsMeant(parts: seq<Part>)
    requires forall part :: part in parts ==> PartOk(part)
    ensures Render(Written(parts)) == Meant(parts)
    ensures ToRegexp(Written(parts)) == "^" + Meant(parts) + "$"
  {
    ToRegexpIsRender(Written(parts));
    if parts != [] {
      var rest := Written(parts[1..]);
      assert PartOk(parts[0]);
      WrittenIsMeant(parts[1..]);
      if parts[0].Literal? {
        RenderLiteral(parts[0].text, rest);
      } else {
        CloseIs(parts[0].regexp, rest);
      }
    }
  }
}
