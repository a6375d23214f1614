/** `agentbox/tmux.py`: rendering an argv for the shell, against the tokenising rules of
    sections 2.2 and 2.3 of the POSIX.1-2017 Shell Command Language. */
module ShellQuote {
  import opened Prelude

  // ---- The renderer -------------------------------------------------------------

  /** `[A-Za-z0-9_@%+=:,./-]` */
  predicate Safe(c: char) {
    || 'A' <= c <= 'Z' || 'a' <= c <= 'z' || '0' <= c <= '9'
    || c in {'_', '@', '%', '+', '=', ':', ',', '.', '/', '-'}
  }

  predicate AllSafe(s: string) {
    forall i :: 0 <= i < |s| ==> Safe(s[i])
  }

  /** `value.replace("'", "'\\''")` */
  function Escape(s: string): string {
    if s == [] then []
    else (if s[0] == '\'' then "'\\''" else [s[0]]) + Escape(s[1..])
  }

  /** `_shell_quote` */
  function Quote(s: string): string {
    if s != [] && AllSafe(s) then s else "'" + Escape(s) + "'"
  }

  /** `" ".join(_shell_quote(part) for part in command)` */
  function Join(argv: seq<string>): string {
    if argv == [] then []
    else if |argv| == 1 then Quote(argv[0])
    else Quote(argv[0]) + " " + Join(argv[1..])
  }

  /** `_command_for_shell` for an argv. */
  function CommandForShell(argv: seq<string>, stdout: Option<string>, stderr: Option<string>): string {
    Join(argv)
    + (if stdout.Some? then " >> " + Quote(stdout.value) else "")
    + (if stderr.Some? then " 2>> " + Quote(stderr.value) else "")
  }

  /** An argument is left as it is exactly when it is not empty and has nothing but letters, digits and
      the ten marks the shell never interprets there. */
  lemma QuotedExactlyWhen(s: string)
    ensures Quote(s) == s <==>
      s != "" && forall c :: c in s ==> 'A' <= c <= 'Z' || 'a' <= c <= 'z' || '0' <= c <= '9' || c in "_@%+=:,./-"
    ensures Quote(s) != s ==> |Quote(s)| >= |s| + 2 && Quote(s)[0] == Quote(s)[|Quote(s)| - 1] == '\''
  {
    EscapeGrows(s);
    if AllSafe(s) {
      forall c | c in s ensures Safe(c) {
      }
    } else if s != "" {
      var i :| 0 <= i < |s| && !Safe(s[i]);
      assert s[i] in s;
    }
  }

  lemma {:induction false} EscapeGrows(s: string)
    ensures |Escape(s)| >= |s|
  {
    if s != [] {
      EscapeGrows(s[1..]);
    }
  }

  // ---- The shell's tokeniser --------------------------------------------------------

  datatype Token = Word(text: string) | IoNumber(text: string) | Redirect(append: bool)

  /** A token being collected: its text after quote removal, and whether any of it was quoted. */
  datatype Partial = Partial(text: string, quoted: bool)

  predicate Digits(s: string) {
    s != [] && forall i :: 0 <= i < |s| ==> '0' <= s[i] <= '9'
  }

  /** The characters that, unquoted, start something other than a word, a redirection of output or
      a quotation by apostrophe or backslash: control operators, input redirection, expansions,
      double quotes, comments, line ends. Their meaning is not needed here. */
  predicate Foreign(c: char) {
    c in {'|', '&', ';', '<', '(', ')', '$', '`', '"', '#', '\n', '\0'}
  }

  /** The finished token, if one is being collected (section 2.3, rules 1 and 7). */
  function Flush(cur: Option<Partial>): seq<Token> {
    match cur
    case None => []
    case Some(p) => [Word(p.text)]
  }

  /** Before a redirection operator an unquoted number is an IO number (section 2.10.1). */
  function FlushBeforeRedirect(cur: Option<Partial>): seq<Token> {
    match cur
    case None => []
    case Some(p) => [if !p.quoted && Digits(p.text) then IoNumber(p.text) else Word(p.text)]
  }

  function Grow(cur: Option<Partial>, c: char, quoted: bool): Partial {
    match cur
    case None => Partial([c], quoted)
    case Some(p) => Partial(p.text + [c], p.quoted || quoted)
  }

  function Prepend(tokens: seq<Token>, rest: Option<seq<Token>>): Option<seq<Token>> {
    match rest
    case None => None
    case Some(more) => Some(tokens + more)
  }

  /** Tokens of `s` outside quotes, continuing `cur`; None for text outside the fragment above. */
  function Lex(s: string, cur: Option<Partial>): Option<seq<Token>>
    decreases |s|
  {
    if s == [] then Some(Flush(cur))
    else if s[0] == '\'' then
      InQuote(s[1..], if cur.None? then Partial("", true) else Partial(cur.value.text, true))
    else if s[0] == '\\' then
      if |s| < 2 || s[1] == '\0' then None
      else if s[1] == '\n' then Lex(s[2..], cur)
      else Lex(s[2..], Some(Grow(cur, s[1], true)))
    else if s[0] == ' ' || s[0] == '\t' then Prepend(Flush(cur), Lex(s[1..], None))
    else if s[0] == '>' then
      if |s| >= 2 && s[1] in {'&', '|'} then None
      else if |s| >= 2 && s[1] == '>' then Prepend(FlushBeforeRedirect(cur) + [Redirect(true)], Lex(s[2..], None))
      else Prepend(FlushBeforeRedirect(cur) + [Redirect(false)], Lex(s[1..], None))
    else if Foreign(s[0]) then None
    else Lex(s[1..], Some(Grow(cur, s[0], false)))
  }

  /** Section 2.2.2: between apostrophes every character stands for itself. */
  function InQuote(s: string, cur: Partial): Option<seq<Token>>
    decreases |s|
  {
    if s == [] || s[0] == '\0' then None
    else if s[0] == '\'' then Lex(s[1..], Some(cur))
    else InQuote(s[1..], Partial(cur.text + [s[0]], true))
  }

  // ---- The round trip ---------------------------------------------------------------

  predicate NulFree(s: string) {
    forall i :: 0 <= i < |s| ==> s[i] != '\0'
  }

  lemma {:induction false} LexSafe(s: string, rest: string, w: string)
    requires AllSafe(s)
    ensures Lex(s + rest, Some(Partial(w, false))) == Lex(rest, Some(Partial(w + s, false)))
    decreases |s|
  {
    if s == [] {
      assert s + rest == rest && w + s == w;
    } else {
      assert (s + rest)[1..] == s[1..] + rest;
      LexSafe(s[1..], rest, w + [s[0]]);
      assert w + [s[0]] + s[1..] == w + s;
    }
  }

  lemma {:induction false} LexEscaped(s: string, rest: string, w: string)
    requires NulFree(s)
    ensures InQuote(Escape(s) + "'" + rest, Partial(w, true)) == Lex(rest, Some(Partial(w + s, true)))
    decreases |s|
  {
    var text := Escape(s) + "'" + rest;
    if s == [] {
      assert text[1..] == rest && w + s == w;
    } else {
      var tail := Escape(s[1..]) + "'" + rest;
      LexEscaped(s[1..], rest, w + [s[0]]);
      assert w + [s[0]] + s[1..] == w + s;
      if s[0] == '\'' {
        var inner := text[1..];
        assert text == "'\\''" + tail;
        assert inner == "\\''" + tail;
        assert inner[2..] == "'" + tail;
        assert inner[2..][1..] == tail;
        assert InQuote(text, Partial(w, true)) == Lex(inner, Some(Partial(w, true)));
        assert inner[0] == '\\' && inner[1] == '\'';
        assert Lex(inner, Some(Partial(w, true))) == Lex(inner[2..], Some(Partial(w + ['\''], true)));
        assert Lex(inner[2..], Some(Partial(w + ['\''], true))) == InQuote(tail, Partial(w + ['\''], true));
      } else {
        assert text[1..] == tail;
      }
    }
  }

  lemma LexUnquoted(s: string, rest: string)
    requires s != [] && AllSafe(s)
    ensures Lex(Quote(s) + rest, None) == Lex(rest, Some(Partial(s, false)))
  {
    LexSafe(s[1..], rest, [s[0]]);
    assert (s + rest)[1..] == s[1..] + rest;
    assert [s[0]] + s[1..] == s;
  }

  lemma LexQuoted(s: string, rest: string)
    requires NulFree(s) && !(s != [] && AllSafe(s))
    ensures Lex(Quote(s) + rest, None) == Lex(rest, Some(Partial(s, true)))
  {
    hide NulFree;
    hide AllSafe;
    hide Escape;
    LexEscaped(s, rest, "");
    assert (Quote(s) + rest)[1..] == Escape(s) + "'" + rest;
    assert "" + s == s;
  }

  /** One quoted argument followed by the rest of the line starts a token holding the argument. */
  lemma LexQuote(s: string, rest: string)
    requires NulFree(s)
    ensures exists quoted :: Lex(Quote(s) + rest, None) == Lex(rest, Some(Partial(s, quoted)))
  {
    hide *;
    if s != [] && AllSafe(s) {
      LexUnquoted(s, rest);
    } else {
      LexQuoted(s, rest);
    }
  }

  function Words(argv: seq<string>): seq<Token> {
    if argv == [] then [] else [Word(argv[0])] + Words(argv[1..])
  }

  /** What may follow the rendered words: the end, or a blank. */
  predicate Delimits(rest: string) {
    rest == [] || rest[0] == ' '
  }

  lemma PrependPrepend(a: seq<Token>, b: seq<Token>, rest: Option<seq<Token>>)
    ensures Prepend(a, Prepend(b, rest)) == Prepend(a + b, rest)
  {
    if rest.Some? { assert a + (b + rest.value) == a + b + rest.value; }
  }

  /** A delimited argument is one word, and tokenising starts afresh behind it. */
  lemma QuoteIsWord(s: string, rest: string)
    requires NulFree(s) && Delimits(rest)
    ensures Lex(Quote(s) + rest, None) == Prepend([Word(s)], Lex(rest, None))
  {
    LexQuote(s, rest);
    var quoted :| Lex(Quote(s) + rest, None) == Lex(rest, Some(Partial(s, quoted)));
    hide Quote;
    assert [Word(s)] + [] == [Word(s)];
    if rest == [] {
      assert Lex(rest, Some(Partial(s, quoted))) == Some([Word(s)]);
      assert Lex(rest, None) == Some([]);
    } else {
      LexBlank(rest[1..]);
      assert rest == " " + rest[1..];
      assert Lex(rest, Some(Partial(s, quoted))) == Prepend([Word(s)], Lex(rest[1..], None));
    }
  }

  lemma LexBlank(more: string)
    ensures Lex(" " + more, None) == Lex(more, None)
  {
    assert (" " + more)[1..] == more;
    assert Lex(" " + more, None) == Prepend([], Lex(more, None));
    EmptyPrefix(Lex(more, None));
  }

  lemma {:induction false} LexJoin(argv: seq<string>, rest: string)
    requires forall i :: 0 <= i < |argv| ==> NulFree(argv[i])
    requires Delimits(rest)
    ensures Lex(Join(argv) + rest, None) == Prepend(Words(argv), Lex(rest, None))
    decreases |argv|
  {
    hide Lex;
    hide Quote;
    hide Prepend;
    if argv == [] {
      assert Join(argv) + rest == rest;
      EmptyPrefix(Lex(rest, None));
    } else if |argv| == 1 {
      QuoteIsWord(argv[0], rest);
      assert Words(argv) == [Word(argv[0])];
    } else {
      var more := Join(argv[1..]) + rest;
      assert Join(argv) + rest == Quote(argv[0]) + (" " + more);
      QuoteIsWord(argv[0], " " + more);
      LexBlank(more);
      LexJoin(argv[1..], rest);
      PrependPrepend([Word(argv[0])], Words(argv[1..]), Lex(rest, None));
    }
  }

  lemma EmptyPrefix(rest: Option<seq<Token>>)
    ensures Prepend([], rest) == rest
  {
    if rest.Some? { assert [] + rest.value == rest.value; }
  }

  /** Tokenising the rendered argv gives back exactly the original arguments, empty ones and
      embedded quotes included. */
  lemma ArgvRoundTrip(argv: seq<string>)
    requires forall i :: 0 <= i < |argv| ==> NulFree(argv[i])
    ensures Lex(Join(argv), None) == Some(Words(argv))
  {
    LexJoin(argv, "");
    assert Join(argv) + "" == Join(argv);
    assert Words(argv) + [] == Words(argv);
  }

  /** The tokens a redirected command must have. */
  function RedirectTokens(stdout: Option<string>, stderr: Option<string>): seq<Token> {
    (if stdout.Some? then [Redirect(true), Word(stdout.value)] else [])
    + (if stderr.Some? then [IoNumber("2"), Redirect(true), Word(stderr.value)] else [])
  }

  /** Standard error's append operator, with its digit and the blank behind it. */
  lemma LexAppendTwo(q: string)
    ensures Lex("2>> " + q, None) == Prepend([IoNumber("2"), Redirect(true)], Lex(q, None))
  {
    LexBlank(q);
    assert ("2>> " + q)[1..] == ">> " + q;
    assert (">> " + q)[2..] == " " + q;
    assert "" + "2" == "2" && Digits("2");
    assert Lex("2>> " + q, None) == Lex(">> " + q, Some(Partial("2", false)));
    assert [IoNumber("2")] + [Redirect(true)] == [IoNumber("2"), Redirect(true)];
  }

  lemma LexStderr(stderr: string)
    requires NulFree(stderr)
    ensures Lex(" 2>> " + Quote(stderr), None) == Some([IoNumber("2"), Redirect(true), Word(stderr)])
  {
    var q := Quote(stderr);
    QuoteAlone(stderr);
    LexAppendTwo(q);
    LexBlank("2>> " + q);
    hide Quote;
    hide Lex;
    assert " 2>> " + q == " " + ("2>> " + q);
    assert [IoNumber("2"), Redirect(true)] + [Word(stderr)] == [IoNumber("2"), Redirect(true), Word(stderr)];
  }

  lemma QuoteAlone(s: string)
    requires NulFree(s)
    ensures Lex(Quote(s), None) == Some([Word(s)])
  {
    QuoteIsWord(s, "");
    assert Quote(s) + "" == Quote(s);
    assert [Word(s)] + [] == [Word(s)];
  }

  /** An append operator and the blank behind it. */
  lemma LexAppend(more: string)
    ensures Lex(" >> " + more, None) == Prepend([Redirect(true)], Lex(more, None))
  {
    LexBlank(">> " + more);
    assert " >> " + more == " " + (">> " + more);
    assert (">> " + more)[2..] == " " + more;
    LexBlank(more);
    assert [] + [Redirect(true)] == [Redirect(true)];
  }

  lemma LexStdout(stdout: string, tail: string, tokens: seq<Token>)
    requires NulFree(stdout) && Delimits(tail) && Lex(tail, None) == Some(tokens)
    ensures Lex(" >> " + Quote(stdout) + tail, None) == Some([Redirect(true), Word(stdout)] + tokens)
  {
    hide Lex;
    hide Quote;
    QuoteIsWord(stdout, tail);
    LexAppend(Quote(stdout) + tail);
    assert " >> " + Quote(stdout) + tail == " >> " + (Quote(stdout) + tail);
    assert [Redirect(true)] + ([Word(stdout)] + tokens) == [Redirect(true), Word(stdout)] + tokens;
  }

  lemma LexRedirects(stdout: Option<string>, stderr: Option<string>)
    requires (stdout.Some? ==> NulFree(stdout.value)) && (stderr.Some? ==> NulFree(stderr.value))
    ensures var text := (if stdout.Some? then " >> " + Quote(stdout.value) else "")
                        + (if stderr.Some? then " 2>> " + Quote(stderr.value) else "");
            Lex(text, None) == Some(RedirectTokens(stdout, stderr))
  {
    var tail := if stderr.Some? then " 2>> " + Quote(stderr.value) else "";
    var tokens := if stderr.Some? then [IoNumber("2"), Redirect(true), Word(stderr.value)] else [];
    assert Lex("", None) == Some([]);
    hide Lex;
    hide Quote;
    if stderr.Some? { LexStderr(stderr.value); }
    if stdout.Some? {
      LexStdout(stdout.value, tail, tokens);
    } else {
      assert "" + tail == tail && [] + tokens == tokens;
    }
  }

  /** The whole rendered command tokenises to the arguments followed by the two append
      redirections and nothing else: no argument or path becomes more or other tokens. */
  lemma CommandRoundTrip(argv: seq<string>, stdout: Option<string>, stderr: Option<string>)
    requires forall i :: 0 <= i < |argv| ==> NulFree(argv[i])
    requires (stdout.Some? ==> NulFree(stdout.value)) && (stderr.Some? ==> NulFree(stderr.value))
    ensures Lex(CommandForShell(argv, stdout, stderr), None) == Some(Words(argv) + RedirectTokens(stdout, stderr))
  {
    var redirects := (if stdout.Some? then " >> " + Quote(stdout.value) else "")
                     + (if stderr.Some? then " 2>> " + Quote(stderr.value) else "");
    assert CommandForShell(argv, stdout, stderr) == Join(argv) + redirects;
    LexJoin(argv, redirects);
    LexRedirects(stdout, stderr);
  }

  /** The renderer is injective: different argument lists never render alike. */
  lemma {:induction false} RenderingIsInjective(a: seq<string>, b: seq<string>)
    requires forall i :: 0 <= i < |a| ==> NulFree(a[i])
    requires forall i :: 0 <= i < |b| ==> NulFree(b[i])
    requires Join(a) == Join(b)
    ensures a == b
  {
    ArgvRoundTrip(a);
    ArgvRoundTrip(b);
    WordsInjective(a, b);
  }

  lemma {:induction false} WordsInjective(a: seq<string>, b: seq<string>)
    requires Words(a) == Words(b)
    ensures a == b
  {
    if a != [] && b != [] {
      assert Words(a)[0] == Words(b)[0];
      assert Words(a)[1..] == Words(a[1..]) && Words(b)[1..] == Words(b[1..]);
      WordsInjective(a[1..], b[1..]);
      assert a == [a[0]] + a[1..] && b == [b[0]] + b[1..];
    }
  }
}
