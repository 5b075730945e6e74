/** The quoting printers and what reads them back: Route 53 TXT values and words of a remote shell command. */
module Quoting {
  import opened Wrappers

  /** strings.ReplaceAll for a non-empty pattern: left to right, non-overlapping. */
  function ReplaceAll(s: string, pattern: string, put: string): string
    requires pattern != ""
    decreases |s|
  {
    if |s| < |pattern| then s
    else if s[..|pattern|] == pattern then put + ReplaceAll(s[|pattern|..], pattern, put)
    else [s[0]] + ReplaceAll(s[1..], pattern, put)
  }

  // ---------- Route 53 TXT values ----------

  function Escape(s: string): string {
    ReplaceAll(s, "\"", "\\\"")
  }

  function Unescape(s: string): string {
    ReplaceAll(s, "\\\"", "\"")
  }

  function Txt(s: string): string {
    "\"" + Escape(s) + "\""
  }

  function Untxt(s: string): string {
    Unescape(if |s| >= 2 && s[0] == '\"' && s[|s| - 1] == '\"' then s[1..|s| - 1] else s)
  }

  lemma EscapeStep(s: string)
    requires s != ""
    ensures Escape(s) == (if s[0] == '\"' then "\\\"" else [s[0]]) + Escape(s[1..])
  {
    assert s[..1] == [s[0]];
  }

  /** An escaped string never begins with a bare quote. */
  lemma EscapeHead(s: string)
    ensures Escape(s) != "" ==> Escape(s)[0] != '\"'
  {
    if s != "" { EscapeStep(s); }
  }

  lemma {:induction false} UnescapeEscape(s: string)
    ensures Unescape(Escape(s)) == s
  {
    if s != "" {
      EscapeStep(s);
      UnescapeEscape(s[1..]);
      var rest := Escape(s[1..]);
      if s[0] == '\"' {
        var e := "\\\"" + rest;
        assert e[..2] == "\\\"" && e[2..] == rest;
      } else {
        var e := [s[0]] + rest;
        assert e[1..] == rest;
        EscapeHead(s[1..]);
        assert |e| >= 2 ==> e[..2] != "\\\"" by { if |e| >= 2 { assert e[..2][1] == rest[0]; } }
      }
      assert s == [s[0]] + s[1..];
    }
  }

  /** Main result: reading back a printed TXT value gives the value, whatever quotes and backslashes it holds. */
  lemma UntxtTxt(s: string)
    ensures Untxt(Txt(s)) == s
  {
    var t := Txt(s);
    assert t[1..|t| - 1] == Escape(s);
    UnescapeEscape(s);
  }

  /** A quoted string: a quote at either end, and every quote in between right after a backslash. */
  predicate QuotedString(t: string) {
    && |t| >= 2 && t[0] == '\"' && t[|t| - 1] == '\"'
    && forall i :: 0 < i < |t| - 1 && t[i] == '\"' ==> t[i - 1] == '\\'
  }

  predicate NoQuotes(s: string) {
    forall i :: 0 <= i < |s| ==> s[i] != '\"'
  }

  lemma {:induction false} EscapedQuotes(s: string)
    ensures var e := Escape(s);
      && (forall i :: 0 <= i < |e| && e[i] == '\"' ==> i > 0 && e[i - 1] == '\\')
      && (NoQuotes(s) ==> e == s)
  {
    if s != "" {
      EscapeStep(s);
      EscapedQuotes(s[1..]);
      var head, rest := if s[0] == '\"' then "\\\"" else [s[0]], Escape(s[1..]);
      assert s == [s[0]] + s[1..];
      forall i | 0 <= i < |head + rest| && (head + rest)[i] == '\"' ensures i > 0 && (head + rest)[i - 1] == '\\' {
        if i >= |head| { assert rest[i - |head|] == '\"'; }
      }
    }
  }

  /** Main result: every value is printed as a quoted string, and one without quotes as itself between two of them. */
  lemma TxtIsQuoted(s: string)
    ensures QuotedString(Txt(s))
    ensures NoQuotes(s) ==> Txt(s) == "\"" + s + "\""
  {
    hide Escape;
    EscapedQuotes(s);
    var e, t := Escape(s), Txt(s);
    assert forall i :: 0 < i < |t| - 1 ==> t[i] == e[i - 1];
  }

  /** A value that is stored bare, without quotes at its ends or escapes in it, is read as it stands. */
  lemma {:induction false} BareIsRead(s: string)
    requires NoQuotes(s)
    ensures Untxt(s) == s
  {
    NothingToUnescape(s);
  }

  lemma {:induction false} NothingToUnescape(s: string)
    requires NoQuotes(s)
    ensures Unescape(s) == s
  {
    if |s| >= 2 {
      assert s[..2][1] == s[1];
      assert s == [s[0]] + s[1..];
      NothingToUnescape(s[1..]);
    }
  }

  /** Printed values are distinct for distinct values. */
  lemma TxtInjective(s: string, t: string)
    ensures Txt(s) == Txt(t) <==> s == t
  {
    UntxtTxt(s);
    UntxtTxt(t);
  }

  // ---------- shell words ----------

  function ShellQuote(s: string): string {
    "'" + ReplaceAll(s, "'", "'\"'\"'") + "'"
  }

  // Quoting modes of a POSIX shell (sections 2.2.1 to 2.2.3 of the POSIX.1-2017 Shell Command Language).
  datatype Mode = Plain | Escaped | Single | Double | DoubleEscaped

  predicate Blank(c: char) {
    c == ' ' || c == '\t'
  }

  /** Unquoted, these end the command, redirect it, or stand for something else (section 2.2); = and % only may. */
  predicate Special(c: char) {
    c in {'|', '&', ';', '<', '>', '(', ')', '$', '`', '*', '?', '[', '#', '~', '\n'}
  }

  function Prefixed(word: string, words: Option<seq<string>>): Option<seq<string>> {
    if words.None? then None else Some([word] + words.value)
  }

  /**
   Splits a command into words and removes the quotes; None if the shell would do anything else with it: operators,
   comments, expansions, patterns, an open quote. word is the word under way, started tells whether there is one (a
   pair of quotes starts a word even when it encloses nothing).
   */
  function Words(s: string, mode: Mode, word: string, started: bool): Option<seq<string>> {
    if s == "" then if mode != Plain then None else Some(if started then [word] else [])
    else
      var c, rest := s[0], s[1..];
      match mode
      case Plain =>
        if c == '\'' then Words(rest, Single, word, true)
        else if c == '\"' then Words(rest, Double, word, true)
        else if c == '\\' then Words(rest, Escaped, word, started)
        else if Special(c) then None
        else if !Blank(c) then Words(rest, Plain, word + [c], true)
        else if started then Prefixed(word, Words(rest, Plain, "", false))
        else Words(rest, Plain, "", false)
      case Escaped => if c == '\n' then Words(rest, Plain, word, started) else Words(rest, Plain, word + [c], true)
      case Single => if c == '\'' then Words(rest, Plain, word, true) else Words(rest, Single, word + [c], true)
      case Double =>
        if c == '\"' then Words(rest, Plain, word, true)
        else if c == '\\' then Words(rest, DoubleEscaped, word, true)
        else if c == '$' || c == '`' then None
        else Words(rest, Double, word + [c], true)
      case DoubleEscaped =>
        Words(rest, Double,
              if c == '\n' then word
              else if c == '$' || c == '`' || c == '\"' || c == '\\' then word + [c] else word + ['\\', c],
              true)
  }

  function ShellWords(command: string): Option<seq<string>> {
    Words(command, Plain, "", false)
  }

  lemma QuoteStep(s: string)
    requires s != ""
    ensures ReplaceAll(s, "'", "'\"'\"'") == (if s[0] == '\'' then "'\"'\"'" else [s[0]]) + ReplaceAll(s[1..], "'", "'\"'\"'")
  {
    assert s[..1] == [s[0]];
  }

  lemma SingleChar(c: char, rest: string, word: string)
    requires c != '\''
    ensures Words([c] + rest, Single, word, true) == Words(rest, Single, word + [c], true)
  {
    assert ([c] + rest)[1..] == rest;
  }

  /** Inside single quotes, the five-character escape stands for one single quote. */
  lemma EscapedQuote(rest: string, word: string)
    ensures Words("'\"'\"'" + rest, Single, word, true) == Words(rest, Single, word + ['\''], true)
  {
    var s1 := "\"'\"'" + rest;
    var s2 := "'\"'" + rest;
    var s3 := "\"'" + rest;
    var s4 := "'" + rest;
    assert ("'\"'\"'" + rest)[1..] == s1 && s1[1..] == s2 && s2[1..] == s3 && s3[1..] == s4 && s4[1..] == rest;
    assert Words(s4, Plain, word + ['\''], true) == Words(rest, Single, word + ['\''], true);
    assert Words(s3, Double, word + ['\''], true) == Words(s4, Plain, word + ['\''], true);
    assert Words(s2, Double, word, true) == Words(s3, Double, word + ['\''], true);
    assert Words(s1, Plain, word, true) == Words(s2, Double, word, true);
  }

  lemma {:induction false} QuotedBody(s: string, rest: string, word: string)
    ensures Words(ReplaceAll(s, "'", "'\"'\"'") + "'" + rest, Single, word, true) == Words(rest, Plain, word + s, true)
    decreases |s|
  {
    var q := ReplaceAll(s, "'", "'\"'\"'");
    if s == "" {
      assert q + "'" + rest == "'" + rest && ("'" + rest)[1..] == rest;
      assert word + s == word;
    } else {
      var tail := ReplaceAll(s[1..], "'", "'\"'\"'") + "'" + rest;
      QuoteStep(s);
      QuotedBody(s[1..], rest, word + [s[0]]);
      assert word + [s[0]] + s[1..] == word + s;
      if s[0] == '\'' {
        assert q + "'" + rest == "'\"'\"'" + tail;
        EscapedQuote(tail, word);
      } else {
        assert q + "'" + rest == [s[0]] + tail;
        SingleChar(s[0], tail, word);
      }
    }
  }

  /** Wherever a word may continue, a quoted string contributes exactly itself to it. */
  lemma QuotedWord(s: string, rest: string, word: string, started: bool)
    ensures Words(ShellQuote(s) + rest, Plain, word, started) == Words(rest, Plain, word + s, true)
  {
    var q := ReplaceAll(s, "'", "'\"'\"'");
    assert ShellQuote(s) + rest == "'" + (q + "'" + rest);
    assert ("'" + (q + "'" + rest))[1..] == q + "'" + rest;
    QuotedBody(s, rest, word);
  }

  /** Main result: the shell reads a quoted string as the single word it quotes. */
  lemma ShellQuoteIsOneWord(s: string)
    ensures ShellWords(ShellQuote(s)) == Some([s])
  {
    QuotedWord(s, "", "", false);
    assert ShellQuote(s) + "" == ShellQuote(s) && "" + s == s;
  }

  // ---------- whole commands ----------

  predicate Bare(s: string) {
    forall i :: 0 <= i < |s| ==> !Blank(s[i]) && !Special(s[i]) && s[i] !in {'\'', '\"', '\\'}
  }

  lemma {:induction false} BareText(s: string, rest: string, word: string, started: bool)
    requires Bare(s)
    ensures Words(s + rest, Plain, word, started) == Words(rest, Plain, word + s, started || s != "")
    decreases |s|
  {
    if s == "" {
      assert s + rest == rest && word + s == word;
    } else {
      assert (s + rest)[1..] == s[1..] + rest && s == [s[0]] + s[1..];
      assert s[0] == (s + rest)[0] && !Blank(s[0]);
      BareText(s[1..], rest, word + [s[0]], true);
      assert word + [s[0]] + s[1..] == word + s;
    }
  }

  lemma Space(rest: string, word: string)
    ensures Words(" " + rest, Plain, word, true) == Prefixed(word, Words(rest, Plain, "", false))
  {
    assert (" " + rest)[1..] == rest;
  }

  // A command is a sequence of words, each a bare prefix followed by a quoted or an empty part.
  datatype Part = Part(bare: string, quoted: bool, arg: string)

  function Printed(p: Part): string {
    p.bare + if p.quoted then ShellQuote(p.arg) else ""
  }

  function Meant(p: Part): string {
    p.bare + if p.quoted then p.arg else ""
  }

  function Command(parts: seq<Part>): string {
    if parts == [] then ""
    else if |parts| == 1 then Printed(parts[0])
    else Printed(parts[0]) + " " + Command(parts[1..])
  }

  function Meanings(parts: seq<Part>): seq<string> {
    seq(|parts|, i requires 0 <= i < |parts| => Meant(parts[i]))
  }

  lemma PartWord(p: Part, rest: string)
    requires Bare(p.bare) && (p.quoted || p.bare != "")
    ensures Words(Printed(p) + rest, Plain, "", false) == Words(rest, Plain, Meant(p), true)
  {
    var tail := (if p.quoted then ShellQuote(p.arg) else "") + rest;
    assert Printed(p) + rest == p.bare + tail;
    BareText(p.bare, tail, "", false);
    assert "" + p.bare == p.bare;
    if p.quoted { QuotedWord(p.arg, rest, p.bare, p.bare != ""); } else { assert tail == rest && Meant(p) == p.bare; }
  }

  /** Main result: a command put together from bare and quoted parts is read back as the words meant, for any arguments. */
  lemma {:induction false} CommandWords(parts: seq<Part>)
    requires forall p :: p in parts ==> Bare(p.bare) && (p.quoted || p.bare != "")
    ensures ShellWords(Command(parts)).Some? && ShellWords(Command(parts)).value == Meanings(parts)
  {
    hide Words, Bare, Printed, Meant;
    if parts == [] {
      NoWords();
    } else if |parts| == 1 {
      PartWord(parts[0], "");
      LastWord(Meant(parts[0]));
      assert Printed(parts[0]) + "" == Printed(parts[0]);
      assert Meanings(parts) == [Meant(parts[0])];
    } else {
      var rest := Command(parts[1..]);
      PartWord(parts[0], " " + rest);
      assert Printed(parts[0]) + " " + rest == Printed(parts[0]) + (" " + rest);
      Space(rest, Meant(parts[0]));
      CommandWords(parts[1..]);
      assert ShellWords(Command(parts)) == Prefixed(Meant(parts[0]), ShellWords(rest));
      assert Meanings(parts) == [Meant(parts[0])] + Meanings(parts[1..]);
    }
  }

  lemma NoWords()
    ensures Words("", Plain, "", false) == Some([])
  {
  }

  lemma LastWord(word: string)
    ensures Words("", Plain, word, true) == Some([word])
  {
  }

  /** The compose provider's apply command: environment assignments and arguments arrive as meant. */
  function ApplyParts(artifact: string, name: string, file: string): seq<Part> {
    [Part("IMAGE_TAG=", true, artifact), Part("COMPOSE_PROJECT_NAME=", true, name), Part("docker", false, ""),
     Part("compose", false, ""), Part("-f", false, ""), Part("", true, file), Part("up", false, ""), Part("-d", false, "")]
  }

  lemma ApplyCommandWords(artifact: string, name: string, file: string)
    ensures ShellWords(Command(ApplyParts(artifact, name, file))) ==
      Some(["IMAGE_TAG=" + artifact, "COMPOSE_PROJECT_NAME=" + name, "docker", "compose", "-f", file, "up", "-d"])
  {
    hide ShellWords, Command, Meanings, Bare;
    PartsAreBare(artifact, name, file);
    CommandWords(ApplyParts(artifact, name, file));
    MeaningsOf(artifact, name, file);
  }

  lemma BareNames()
    ensures Bare("IMAGE_TAG=") && Bare("COMPOSE_PROJECT_NAME=") && Bare("docker") && Bare("compose")
  {
  }

  lemma BareFlags()
    ensures Bare("-f") && Bare("") && Bare("up") && Bare("-d")
  {
  }

  lemma PartsAreBare(artifact: string, name: string, file: string)
    ensures forall p :: p in ApplyParts(artifact, name, file) ==> Bare(p.bare) && (p.quoted || p.bare != "")
  {
    hide Bare;
    BareNames();
    BareFlags();
  }

  lemma MeaningsOf(artifact: string, name: string, file: string)
    ensures Meanings(ApplyParts(artifact, name, file)) ==
      ["IMAGE_TAG=" + artifact, "COMPOSE_PROJECT_NAME=" + name, "docker", "compose", "-f", file, "up", "-d"]
  {
    assert "" + file == file && "docker" + "" == "docker" && "compose" + "" == "compose" && "-f" + "" == "-f";
    assert "up" + "" == "up" && "-d" + "" == "-d";
  }
}
