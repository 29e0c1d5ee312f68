/** The remote command line of the Linux AppImage build: each argument is quoted, the shell on the other
    side takes the line apart again. */
module ShellQuote {
  import opened Wrappers

  // ---------------------------------------------------------------------------------------------
  // Quoting
  // ---------------------------------------------------------------------------------------------

  /** `value.replaceAll("'", "'\\''")` */
  function EscapeQuotes(value: string): string {
    if value == "" then ""
    else (if value[0] == '\'' then "'\\''" else [value[0]]) + EscapeQuotes(value[1..])
  }

  function Quote(value: string): string {
    ['\''] + EscapeQuotes(value) + ['\'']
  }

  /** `arguments_.map(shellQuote).join(" ")` */
  function QuoteAll(arguments: seq<string>): string {
    if arguments == [] then ""
    else if |arguments| == 1 then Quote(arguments[0])
    else Quote(arguments[0]) + [' '] + QuoteAll(arguments[1..])
  }

  function RemoteCommand(arguments: seq<string>): string {
    "bash" + [' '] + ("-s" + [' '] + ("--" + [' '] + QuoteAll(arguments)))
  }

  // ---------------------------------------------------------------------------------------------
  // The shell: section 2.3 of the POSIX Shell Command Language with the quotes of section 2.2
  // ---------------------------------------------------------------------------------------------

  predicate Blank(c: char) {
    c == ' ' || c == '\t'
  }

  /** Characters that mean more to the shell, when not quoted, than themselves. */
  predicate Special(c: char) {
    c in {'|', '&', ';', '<', '>', '(', ')', '$', '`', '"', '*', '?', '[', ']', '#', '~', '=', '%', '!', '{', '}',
          '\n', '\0'}
  }

  /** Up to the next single quote: what is quoted, and the rest after the closing quote. */
  function SingleQuoted(s: string): (r: Option<(string, string)>)
    ensures r.Some? ==> |r.value.1| < |s|
  {
    if s == "" || s[0] == '\0' then None
    else if s[0] == '\'' then Some(("", s[1..]))
    else
      match SingleQuoted(s[1..])
      case None => None
      case Some(r) => Some(([s[0]] + r.0, r.1))
  }

  function Finished(word: Option<string>): seq<string> {
    if word.Some? then [word.value] else []
  }

  function Begun(word: Option<string>): string {
    if word.Some? then word.value else ""
  }

  /** The words of a command line without expansions, operators or comments, quotes removed. `word` is the
      word begun before `s`; None is an unterminated quote, or a special character outside quotes. */
  function Words(s: string, word: Option<string>): Option<seq<string>>
    decreases |s|
  {
    if s == "" then Some(Finished(word))
    else if Blank(s[0]) then
      match Words(s[1..], None)
      case None => None
      case Some(words) => Some(Finished(word) + words)
    else if s[0] == '\'' then
      match SingleQuoted(s[1..])
      case None => None
      case Some(r) => Words(r.1, Some(Begun(word) + r.0))
    else if s[0] == '\\' then
      if |s| == 1 || s[1] == '\0' then None
      else if s[1] == '\n' then Words(s[2..], word)
      else Words(s[2..], Some(Begun(word) + [s[1]]))
    else if Special(s[0]) then None
    else Words(s[1..], Some(Begun(word) + [s[0]]))
  }

  // ---------------------------------------------------------------------------------------------
  // One quoted argument
  // ---------------------------------------------------------------------------------------------

  /** Without a quote inside, the text up to the closing quote is taken as it is. */
  lemma {:induction false} QuotedRun(plain: string, rest: string)
    requires '\'' !in plain && '\0' !in plain
    ensures SingleQuoted(plain + ['\''] + rest) == Some((plain, rest))
  {
    if plain == "" {
      assert plain + ['\''] + rest == ['\''] + rest;
    } else {
      QuotedRun(plain[1..], rest);
      assert (plain + ['\''] + rest)[1..] == plain[1..] + ['\''] + rest;
      assert [plain[0]] + plain[1..] == plain;
    }
  }

  /** The first quote in a value, or its length. */
  function Run(value: string): (n: nat)
    ensures n <= |value| && '\'' !in value[..n] && (n < |value| ==> value[n] == '\'')
  {
    if value == "" || value[0] == '\'' then 0 else 1 + Run(value[1..])
  }

  lemma {:induction false} EscapeRun(value: string, n: nat)
    requires n <= |value| && '\'' !in value[..n]
    ensures EscapeQuotes(value) == value[..n] + EscapeQuotes(value[n..])
  {
    if n == 0 {
      assert value[0..] == value;
    } else {
      EscapeRun(value[1..], n - 1);
      assert value[1..][..n - 1] == value[1..n] && value[1..][n - 1..] == value[n..];
      assert value[..n] == [value[0]] + value[1..n];
    }
  }

  lemma EscapeQuote(value: string)
    requires value != "" && value[0] == '\''
    ensures EscapeQuotes(value) == ['\''] + (['\\'] + (['\''] + (['\''] + EscapeQuotes(value[1..]))))
  {}

  /** A closing quote, an escaped quote and an opening quote add one quote to the word. */
  lemma EscapedQuote(rest: string, word: string)
    requires rest != ""
    ensures Words(['\\'] + (['\''] + rest), Some(word)) == Words(rest, Some(word + ['\'']))
  {
    assert (['\\'] + (['\''] + rest))[2..] == rest;
  }

  /** A quoted stretch adds what is quoted to the word. */
  lemma QuotedStretch(plain: string, word: Option<string>, rest: string)
    requires '\'' !in plain && '\0' !in plain
    ensures Words(['\''] + (plain + (['\''] + rest)), word) == Words(rest, Some(Begun(word) + plain))
    ensures Words(['\''] + (plain + ['\''] + rest), word) == Words(rest, Some(Begun(word) + plain))
  {
    assert plain + (['\''] + rest) == plain + ['\''] + rest;
    QuotedRun(plain, rest);
    assert (['\''] + (plain + ['\''] + rest))[1..] == plain + ['\''] + rest;
  }

  /** What a value with a quote in it becomes: the text before the quote, the quote closed, escaped and
      opened again, the rest. */
  function Reopened(tail: string): string {
    ['\''] + (['\\'] + (['\''] + (['\''] + tail)))
  }

  lemma EscapeHead(value: string, n: nat)
    requires n < |value| && '\'' !in value[..n] && value[n] == '\''
    ensures EscapeQuotes(value) == value[..n] + Reopened(EscapeQuotes(value[n + 1..]))
  {
    EscapeRun(value, n);
    EscapeQuote(value[n..]);
    assert value[n..][1..] == value[n + 1..];
  }

  lemma EscapeAt(value: string, n: nat, rest: string)
    requires n < |value| && '\'' !in value[..n] && value[n] == '\''
    ensures EscapeQuotes(value) + rest == value[..n] + Reopened(EscapeQuotes(value[n + 1..]) + rest)
  {
    hide EscapeQuotes, Reopened;
    EscapeHead(value, n);
    var tail := EscapeQuotes(value[n + 1..]);
    assert (value[..n] + Reopened(tail)) + rest == value[..n] + (Reopened(tail) + rest);
    ReopenedTail(tail, rest);
  }

  lemma ReopenedTail(tail: string, rest: string)
    ensures Reopened(tail) + rest == Reopened(tail + rest)
  {}

  lemma PlainEscape(value: string)
    requires '\'' !in value
    ensures EscapeQuotes(value) == value
  {
    EscapeRun(value, |value|);
    assert value[|value|..] == "";
  }

  /** Reading up to and including the escaped quote leaves the shell inside quotes again. */
  lemma QuoteReopens(before: string, word: Option<string>, tail: string)
    requires '\'' !in before && '\0' !in before
    ensures Words(['\''] + (before + Reopened(tail)), word)
         == Words(['\''] + tail, Some(Begun(word) + before + ['\'']))
  {
    hide Words;
    QuotedStretch(before, word, ['\\'] + (['\''] + (['\''] + tail)));
    EscapedQuote(['\''] + tail, Begun(word) + before);
  }

  /** Reading a quoted value anywhere outside quotes adds exactly the value to the word. */
  lemma {:induction false} QuotedValue(value: string, word: Option<string>, rest: string)
    requires '\0' !in value
    ensures Words(['\''] + (EscapeQuotes(value) + (['\''] + rest)), word) == Words(rest, Some(Begun(word) + value))
    decreases |value|
  {
    hide Words, SingleQuoted, EscapeQuotes, Reopened;
    var n := Run(value);
    if n == |value| {
      assert value[..n] == value;
      PlainEscape(value);
      QuotedStretch(value, word, rest);
    } else {
      var before, after := value[..n], value[n + 1..];
      EscapeAt(value, n, ['\''] + rest);
      QuoteReopens(before, word, EscapeQuotes(after) + (['\''] + rest));
      QuotedValue(after, Some(Begun(word) + before + ['\'']), rest);
      assert Begun(word) + before + ['\''] + after == Begun(word) + value;
    }
  }

  lemma QuoteIsOneWord(value: string, rest: string)
    requires '\0' !in value
    ensures Words(Quote(value) + rest, None) == Words(rest, Some(value))
  {
    QuotedValue(value, None, rest);
    assert Quote(value) + rest == ['\''] + (EscapeQuotes(value) + (['\''] + rest));
    assert "" + value == value;
  }

  // ---------------------------------------------------------------------------------------------
  // The command line
  // ---------------------------------------------------------------------------------------------

  ghost predicate Passable(arguments: seq<string>) {
    forall i :: 0 <= i < |arguments| ==> '\0' !in arguments[i]
  }

  /** A blank ends a word. */
  lemma BlankEnds(word: string, rest: string)
    requires Words(rest, None).Some?
    ensures Words([' '] + rest, Some(word)) == Some([word] + Words(rest, None).value)
  {
    assert ([' '] + rest)[1..] == rest;
  }

  lemma {:induction false} QuotedList(arguments: seq<string>)
    requires Passable(arguments)
    ensures Words(QuoteAll(arguments), None) == Some(arguments)
  {
    if |arguments| == 1 {
      QuoteIsOneWord(arguments[0], "");
      assert Quote(arguments[0]) + "" == Quote(arguments[0]) && arguments == [arguments[0]];
    } else if |arguments| > 1 {
      hide Words, Quote;
      QuotedList(arguments[1..]);
      QuoteIsOneWord(arguments[0], [' '] + QuoteAll(arguments[1..]));
      BlankEnds(arguments[0], QuoteAll(arguments[1..]));
      assert Quote(arguments[0]) + [' '] + QuoteAll(arguments[1..])
          == Quote(arguments[0]) + ([' '] + QuoteAll(arguments[1..]));
      assert [arguments[0]] + arguments[1..] == arguments;
    }
  }

  /** A word of ordinary characters stands for itself. */
  lemma {:induction false} PlainWord(plain: string, word: string, rest: string)
    requires forall c :: c in plain ==> !Blank(c) && c != '\'' && c != '\\' && !Special(c)
    ensures Words(plain + [' '] + rest, Some(word)) == Words([' '] + rest, Some(word + plain))
    decreases |plain|
  {
    if plain == "" {
      assert plain + [' '] + rest == [' '] + rest && word + plain == word;
    } else {
      PlainWord(plain[1..], word + [plain[0]], rest);
      assert (plain + [' '] + rest)[1..] == plain[1..] + [' '] + rest;
      assert word + [plain[0]] + plain[1..] == word + plain;
    }
  }

  lemma FirstCharacter(c: char, rest: string)
    requires !Blank(c) && c != '\'' && c != '\\' && !Special(c)
    ensures Words([c] + rest, None) == Words(rest, Some([c]))
  {
    assert ([c] + rest)[1..] == rest && "" + [c] == [c];
  }

  lemma LeadingWord(plain: string, rest: string)
    requires plain != "" && forall c :: c in plain ==> !Blank(c) && c != '\'' && c != '\\' && !Special(c)
    requires Words(rest, None).Some?
    ensures Words(plain + [' '] + rest, None) == Some([plain] + Words(rest, None).value)
  {
    hide Words, Special, Blank;
    assert forall c :: c in plain[1..] ==> c in plain;
    assert plain[0] in plain;
    PlainWord(plain[1..], [plain[0]], rest);
    FirstCharacter(plain[0], plain[1..] + [' '] + rest);
    assert plain + [' '] + rest == [plain[0]] + (plain[1..] + [' '] + rest) && [plain[0]] + plain[1..] == plain;
    BlankEnds(plain, rest);
  }

  /** The remote shell starts `bash -s --` with exactly the arguments given, whatever they hold. */
  lemma CommandRoundTrip(arguments: seq<string>)
    requires Passable(arguments)
    ensures Words(RemoteCommand(arguments), None) == Some(["bash", "-s", "--"] + arguments)
  {
    hide Words;
    QuotedList(arguments);
    LeadingWord("--", QuoteAll(arguments));
    LeadingWord("-s", "--" + [' '] + QuoteAll(arguments));
    LeadingWord("bash", "-s" + [' '] + ("--" + [' '] + QuoteAll(arguments)));
    assert ["bash"] + (["-s"] + (["--"] + arguments)) == ["bash", "-s", "--"] + arguments;
  }

  /** Different argument lists never share a command line. */
  lemma CommandsDistinct(a: seq<string>, b: seq<string>)
    requires Passable(a) && Passable(b) && RemoteCommand(a) == RemoteCommand(b)
    ensures a == b
  {
    CommandRoundTrip(a);
    CommandRoundTrip(b);
    assert a == (["bash", "-s", "--"] + a)[3..] && b == (["bash", "-s", "--"] + b)[3..];
  }
}
