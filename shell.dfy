/** How the POSIX shell reads the path argument of a `uv venv` command line.
    The command pastes the path between double quotes without escaping it,
    so a path holding a double quote or an expansion character does not
    reach `uv` as it was given. `QuotedVenvCommand` escapes it first; on the
    names the lifecycle admits the two commands are equal.

    POSIX shells read `%` literally; `Paths.DoubleQuoteSafe` excludes it
    too, for cmd.exe, and so implies `InertInQuotes`. */
module Shell {
  import opened Paths

  /** What the shell makes of a word: the literal text it stands for, the
      start of an expansion (parameter, arithmetic or command substitution),
      or syntax this reader does not describe (a split word, an operator, a
      quote left open). */
  datatype Reading = Literal(text: string) | Expands | Unsupported

  function Prepend(x: string, w: Reading): Reading {
    if w.Literal? then Literal(x + w.text) else w
  }

  /** The characters a backslash escapes inside double quotes. */
  predicate DqEscapable(c: char) {
    c == '"' || c == '\\' || c == '$' || c == '`'
  }

  /** Text in which no character keeps a meaning inside double quotes. */
  predicate InertInQuotes(s: string) {
    forall i :: 0 <= i < |s| ==> !DqEscapable(s[i])
  }

  /** Characters that end a word, or begin other syntax, outside quotes. */
  predicate UnquotedSpecial(c: char) {
    c in " \t\n;&|<>()'*?[]{}#~"
  }

  /** The text the shell makes of one word built of literal characters,
      backslash escapes and double-quoted segments; `quoted` is whether a
      double quote is open. A `$` or a backquote the reader reaches begins an
      expansion; there the reading stops. */
  function Word(s: string, quoted: bool): Reading
    decreases |s|
  {
    if s == [] then (if quoted then Unsupported else Literal([]))
    else if s[0] == '"' then Word(s[1..], !quoted)
    else if s[0] == '$' || s[0] == '`' then Expands
    else if s[0] == '\\' then
      if |s| == 1 then Unsupported
      else if s[1] == '\n' then Word(s[2..], quoted)
      else if quoted && !DqEscapable(s[1]) then Prepend(['\\', s[1]], Word(s[2..], quoted))
      else Prepend([s[1]], Word(s[2..], quoted))
    else if !quoted && UnquotedSpecial(s[0]) then Unsupported
    else Prepend([s[0]], Word(s[1..], quoted))
  }

  /** The directory a `uv venv <word>` command line makes `uv` create. */
  function VenvArgument(cmd: string): Reading {
    var w := StripAround(cmd, "uv venv ", "");
    if w.Some? then Word(w.value, false) else Unsupported
  }

  /** A backslash before every character that keeps a meaning inside double
      quotes. */
  function Escape(s: string): string {
    if s == [] then [] else (if DqEscapable(s[0]) then ['\\', s[0]] else [s[0]]) + Escape(s[1..])
  }

  /** `uv venv "<path>"` with the path escaped. */
  function QuotedVenvCommand(path: string): string {
    VenvPrefix() + Escape(path) + "\""
  }

  lemma PrependEmpty(w: Reading)
    ensures Prepend([], w) == w
  {
    if w.Literal? {
      assert [] + w.text == w.text;
    }
  }

  lemma PrependTwice(x: string, y: string, w: Reading)
    ensures Prepend(x, Prepend(y, w)) == Prepend(x + y, w)
  {
    if w.Literal? {
      assert x + (y + w.text) == (x + y) + w.text;
    }
  }

  /** Inside double quotes, text without quote, backslash, `$` or backquote
      stands for itself. */
  lemma {:induction false} LiteralInQuotes(x: string, rest: string)
    requires InertInQuotes(x)
    ensures Word(x + rest, true) == Prepend(x, Word(rest, true))
    decreases |x|
  {
    if x == [] {
      assert x + rest == rest;
      PrependEmpty(Word(rest, true));
    } else {
      var s := x + rest;
      assert s[0] == x[0] && s[1..] == x[1..] + rest;
      LiteralInQuotes(x[1..], rest);
      PrependTwice([x[0]], x[1..], Word(rest, true));
      assert [x[0]] + x[1..] == x;
    }
  }

  /** Inside double quotes, escaped text stands for the text escaped. */
  lemma {:induction false} EscapedInQuotes(x: string, rest: string)
    ensures Word(Escape(x) + rest, true) == Prepend(x, Word(rest, true))
    decreases |x|
  {
    if x == [] {
      assert Escape(x) + rest == rest;
      PrependEmpty(Word(rest, true));
    } else {
      var more := Escape(x[1..]) + rest;
      EscapedInQuotes(x[1..], rest);
      EscapedStep(x[0], more);
      PrependTwice([x[0]], x[1..], Word(rest, true));
      assert [x[0]] + x[1..] == x;
      assert Escape(x) + rest == (if DqEscapable(x[0]) then ['\\', x[0]] else [x[0]]) + more;
    }
  }

  /** One escaped character inside double quotes. */
  lemma EscapedStep(c: char, more: string)
    ensures Word((if DqEscapable(c) then ['\\', c] else [c]) + more, true) == Prepend([c], Word(more, true))
  {
    if DqEscapable(c) {
      var s := ['\\', c] + more;
      assert s[0] == '\\' && s[1] == c && s[2..] == more;
    } else {
      var s := [c] + more;
      assert s[0] == c && s[1..] == more;
    }
  }

  lemma {:induction false} EscapeLiteral(x: string)
    requires InertInQuotes(x)
    ensures Escape(x) == x
    decreases |x|
  {
    if x != [] {
      EscapeLiteral(x[1..]);
      assert [x[0]] + x[1..] == x;
    }
  }

  /** How the shell reads a command `uv venv "<inner>`. */
  lemma OpenQuoteArgument(inner: string)
    ensures VenvArgument(VenvPrefix() + inner) == Word(inner, true)
  {
    var w := "\"" + inner;
    assert VenvPrefix() + inner == "uv venv " + w + "";
    StripAroundWrap("uv venv ", w, "");
    assert w[1..] == inner;
  }

  /** The command as written hands `uv` the path unchanged when the path
      holds nothing the shell interprets inside double quotes. */
  lemma VenvCommandLiteral(path: string)
    requires InertInQuotes(path)
    ensures VenvArgument(VenvCommand(path)) == Literal(path)
  {
    assert VenvCommand(path) == VenvPrefix() + (path + "\"");
    OpenQuoteArgument(path + "\"");
    LiteralInQuotes(path, "\"");
    assert "\""[1..] == "";
    assert Word("\"", true) == Word("", false) == Literal("");
    assert path + "" == path;
  }

  /** The command as written, for the name `a"b"`: `uv venv "<root>/a"b""`
      makes `uv` create `<root>/ab`, not the environment guv names. */
  lemma VenvCommandDropsQuotes(root: string)
    requires InertInQuotes(root)
    ensures VenvArgument(VenvCommand(EnvPath(root, "a\"b\""))) == Literal(root + "/ab")
    ensures root + "/ab" != EnvPath(root, "a\"b\"")
  {
    var lit := root + "/a";
    var tail := "\"b\"\"";
    assert VenvCommand(EnvPath(root, "a\"b\"")) == VenvPrefix() + (lit + tail);
    OpenQuoteArgument(lit + tail);
    assert InertInQuotes(lit) by {
      assert forall i :: 0 <= i < |root| ==> lit[i] == root[i];
    }
    LiteralInQuotes(lit, tail);
    assert tail[1..] == "b\"\"";
    assert Word(tail, true) == Word("b\"\"", false);
    var b := "b\"\"";
    assert b[0] == 'b' && b[1..] == "\"\"" && !UnquotedSpecial('b');
    assert Word(b, false) == Prepend("b", Word("\"\"", false));
    assert "\"\""[1..] == "\"";
    assert Word("\"\"", false) == Word("\"", true);
    assert "\""[1..] == "";
    assert Word("\"", true) == Word("", false) == Literal("");
    assert "b" + "" == "b";
    assert Word(tail, true) == Literal("b");
    assert lit + "b" == root + "/ab";
    assert |root + "/ab"| != |EnvPath(root, "a\"b\"")|;
  }

  /** The command as written, for the name `$(touch pwn)`: the shell reaches
      the unescaped `$` inside the quotes, so the argument begins an
      expansion (here a command substitution) instead of being literal text. */
  lemma VenvCommandSubstitutes(root: string)
    requires InertInQuotes(root)
    ensures VenvArgument(VenvCommand(EnvPath(root, "$(touch pwn)"))) == Expands
  {
    var lit := root + "/";
    var tail := "$(touch pwn)\"";
    assert VenvCommand(EnvPath(root, "$(touch pwn)")) == VenvPrefix() + (lit + tail);
    OpenQuoteArgument(lit + tail);
    assert InertInQuotes(lit) by {
      assert forall i :: 0 <= i < |root| ==> lit[i] == root[i];
    }
    LiteralInQuotes(lit, tail);
  }

  /** The escaped command hands `uv` exactly the path, whatever it holds. */
  lemma QuotedVenvRoundTrip(path: string)
    ensures VenvArgument(QuotedVenvCommand(path)) == Literal(path)
  {
    OpenQuoteArgument(Escape(path) + "\"");
    assert QuotedVenvCommand(path) == VenvPrefix() + (Escape(path) + "\"");
    EscapedInQuotes(path, "\"");
    assert "\""[1..] == "";
    assert Word("\"", true) == Word("", false) == Literal("");
    assert path + "" == path;
  }

  /** Every name `MakeVenv` or `CloneEnv` admits is inert inside double
      quotes. */
  lemma AdmittedNamesInert(n: string)
    requires DoubleQuoteSafe(n) || BareWord(n)
    ensures InertInQuotes(n)
  {
  }

  /** On a path without those four characters, the escaped command is the command as
      written. */
  lemma QuotedVenvAgrees(path: string)
    requires InertInQuotes(path)
    ensures QuotedVenvCommand(path) == VenvCommand(path)
  {
    EscapeLiteral(path);
  }
}
