/** The installer command line: every value goes through single quotes before the
    command string is handed to sh. */
module ShellQuote {

  import opened Prelude

  /** strings.ReplaceAll(value, "'", `'\''`), one character at a time. */
  function EscapeQuotes(value: string): string {
    if value == "" then ""
    else (if value[0] == '\'' then "'\\''" else [value[0]]) + EscapeQuotes(value[1..])
  }

  function Quote(value: string): string {
    "'" + EscapeQuotes(value) + "'"
  }

  // ---- Reading a command line back: sections 2.2.1 and 2.2.2 of the POSIX.1-2017 Shell Command Language ----

  /** Characters that mean something to the shell when they stand unquoted, other
      than the backslash, the single quote and the blanks handled by the tokenizer.
      A word with one of these unquoted is not read back at all. */
  predicate Special(c: char) {
    || c == '|' || c == '&' || c == ';' || c == '<' || c == '>' || c == '(' || c == ')'
    || c == '$' || c == '`' || c == '"' || c == '*' || c == '?' || c == '[' || c == ']'
    || c == '#' || c == '~' || c == '%' || c == '!' || c == '{' || c == '}' || c == '\0'
  }

  predicate Blank(c: char) {
    c == ' ' || c == '\t' || c == '\n'
  }

  /** `word` is the word being read, if one has begun; `quoted` says whether the
      reader stands between single quotes. A backslash or an open quote at the end
      of the input, and any unquoted special character, refuse the line. */
  function Tokenize(line: string, word: Option<string>, quoted: bool): (r: Option<seq<string>>)
    decreases |line|
  {
    var soFar := if word.Some? then word.value else "";
    if line == "" then
      if quoted then None
      else if word.Some? then Some([soFar])
      else Some([])
    else if quoted then
      if line[0] == '\'' then Tokenize(line[1..], Some(soFar), false)
      else Tokenize(line[1..], Some(soFar + [line[0]]), true)
    else if line[0] == '\'' then Tokenize(line[1..], Some(soFar), true)
    else if line[0] == '\\' then
      if |line| == 1 then None
      else if line[1] == '\n' then Tokenize(line[2..], word, false)
      else Tokenize(line[2..], Some(soFar + [line[1]]), false)
    else if Blank(line[0]) then
      var rest := Tokenize(line[1..], None, false);
      if word.None? || rest.None? then rest else Some([soFar] + rest.value)
    else if Special(line[0]) then None
    else Tokenize(line[1..], Some(soFar + [line[0]]), false)
  }

  /** What sh passes to the installer. */
  function Words(line: string): (r: Option<seq<string>>) {
    Tokenize(line, None, false)
  }

  // ---- The argument list ----

  /** One argument: a literal flag prefix that the program writes itself, then a quoted value. */
  datatype Arg = Arg(prefix: string, value: string)

  predicate Literal(s: string) {
    forall i | 0 <= i < |s| :: !Special(s[i]) && !Blank(s[i]) && s[i] != '\'' && s[i] != '\\'
  }

  function Render(a: Arg): string {
    a.prefix + Quote(a.value)
  }

  function Meaning(a: Arg): string {
    a.prefix + a.value
  }

  /** strings.Join(args, " ") */
  function Join(args: seq<string>): string {
    if |args| == 0 then ""
    else if |args| == 1 then args[0]
    else args[0] + " " + Join(args[1..])
  }

  function Rendered(args: seq<Arg>): seq<string> {
    seq(|args|, i requires 0 <= i < |args| => Render(args[i]))
  }

  function Meanings(args: seq<Arg>): seq<string> {
    seq(|args|, i requires 0 <= i < |args| => Meaning(args[i]))
  }

  /** Inside the quotes, the escaped text reads back as the text itself. */
  lemma {:induction false} ReadQuoted(value: string, rest: string, word: string)
    ensures Tokenize(EscapeQuotes(value) + "'" + rest, Some(word), true)
         == Tokenize(rest, Some(word + value), false)
    decreases |value|
  {
    var line := EscapeQuotes(value) + "'" + rest;
    if value == "" {
      assert line == "'" + rest && line[1..] == rest;
      assert word + value == word;
    } else {
      var tail := EscapeQuotes(value[1..]) + "'" + rest;
      assert (word + [value[0]]) + value[1..] == word + value;
      ReadQuoted(value[1..], rest, word + [value[0]]);
      if value[0] == '\'' {
        assert line == "'\\''" + tail;
        assert line[1..] == "\\''" + tail;
        var escaped := line[1..];
        assert escaped[2..] == "'" + tail && escaped[1] == '\'';
        assert ("'" + tail)[1..] == tail;
        assert Tokenize("'" + tail, Some(word + ['\'']), false) == Tokenize(tail, Some(word + ['\'']), true);
        assert Tokenize(escaped, Some(word), false) == Tokenize("'" + tail, Some(word + ['\'']), false);
      } else {
        assert line == [value[0]] + tail && line[1..] == tail;
      }
    }
  }

  lemma {:induction false} ReadLiteral(prefix: string, rest: string, word: Option<string>)
    requires Literal(prefix) && (prefix != "" || word.Some?)
    ensures Tokenize(prefix + rest, word, false)
         == Tokenize(rest, Some((if word.Some? then word.value else "") + prefix), false)
    decreases |prefix|
  {
    var soFar := if word.Some? then word.value else "";
    if prefix == "" {
      assert prefix + rest == rest && soFar + prefix == soFar;
    } else {
      assert (prefix + rest)[1..] == prefix[1..] + rest;
      assert (soFar + [prefix[0]]) + prefix[1..] == soFar + prefix;
      ReadLiteral(prefix[1..], rest, Some(soFar + [prefix[0]]));
    }
  }

  lemma ReadArg(a: Arg, rest: string)
    requires Literal(a.prefix)
    ensures Tokenize(Render(a) + rest, None, false) == Tokenize(rest, Some(Meaning(a)), false)
  {
    var quotedPart := Quote(a.value) + rest;
    assert Render(a) + rest == a.prefix + quotedPart;
    assert quotedPart[1..] == EscapeQuotes(a.value) + "'" + rest;
    ReadQuoted(a.value, rest, a.prefix);
    if a.prefix == "" {
      assert a.prefix + quotedPart == quotedPart;
    } else {
      ReadLiteral(a.prefix, quotedPart, None);
      assert "" + a.prefix == a.prefix;
    }
  }

  /** The round trip: whatever the values contain, sh reads back exactly one word
      per argument, each the flag prefix followed by the original value. */
  lemma {:induction false} RoundTrip(args: seq<Arg>)
    requires forall i | 0 <= i < |args| :: Literal(args[i].prefix)
    ensures Words(Join(Rendered(args))) == Some(Meanings(args))
    decreases |args|
  {
    if |args| == 0 {
    } else {
      var rest := args[1..];
      assert Rendered(args)[1..] == Rendered(rest);
      assert Meanings(args) == [Meaning(args[0])] + Meanings(rest);
      if |args| == 1 {
        ReadArg(args[0], "");
        assert Render(args[0]) + "" == Render(args[0]);
        assert Tokenize("", Some(Meaning(args[0])), false) == Some([Meaning(args[0])]);
        assert Meanings(args) == [Meaning(args[0])];
        assert Join(Rendered(args)) == Render(args[0]);
      } else {
        RoundTrip(rest);
        var tail := " " + Join(Rendered(rest));
        assert tail[1..] == Join(Rendered(rest));
        assert Join(Rendered(args)) == Render(args[0]) + tail;
        ReadArg(args[0], tail);
      }
    }
  }

  /** The arguments that buildInstallCommand writes, as flag prefix and value. */
  function InstallArgs(nodeId: string, apiKey: string, apiUrl: string, proxyUrl: string, extraFlags: seq<string>): seq<Arg> {
    [Arg("--node_id=", nodeId), Arg("--api_key=", apiKey), Arg("--api_url=", apiUrl)]
    + (if proxyUrl == "" then [] else [Arg("--proxy=", proxyUrl)])
    + seq(|extraFlags|, k requires 0 <= k < |extraFlags| => Arg("", extraFlags[k]))
  }

  /** The installer receives exactly the node's own words, one per argument. */
  lemma InstallerReadsItsArguments(nodeId: string, apiKey: string, apiUrl: string, proxyUrl: string, extraFlags: seq<string>)
    ensures Words(Join(Rendered(InstallArgs(nodeId, apiKey, apiUrl, proxyUrl, extraFlags))))
         == Some(["--node_id=" + nodeId, "--api_key=" + apiKey, "--api_url=" + apiUrl]
                 + (if proxyUrl == "" then [] else ["--proxy=" + proxyUrl]) + extraFlags)
  {
    var server := [Arg("--node_id=", nodeId), Arg("--api_key=", apiKey), Arg("--api_url=", apiUrl)];
    var proxy := if proxyUrl == "" then [] else [Arg("--proxy=", proxyUrl)];
    FlagsAreLiteral();
    RoundTrip(InstallArgs(nodeId, apiKey, apiUrl, proxyUrl, extraFlags));
    MeaningsOfFlags(server + proxy, extraFlags);
    assert Meanings(server + proxy) == Meanings(server) + Meanings(proxy);
    assert Meanings(server) == ["--node_id=" + nodeId, "--api_key=" + apiKey, "--api_url=" + apiUrl];
    assert Meanings(proxy) == if proxyUrl == "" then [] else ["--proxy=" + proxyUrl];
  }

  lemma FlagsAreLiteral()
    ensures Literal("--node_id=") && Literal("--api_key=") && Literal("--api_url=") && Literal("--proxy=")
    ensures Literal("--proxy") && Literal("")
  {
  }

  lemma MeaningsOfFlags(fixed: seq<Arg>, flags: seq<string>)
    ensures Meanings(fixed + seq(|flags|, k requires 0 <= k < |flags| => Arg("", flags[k]))) == Meanings(fixed) + flags
  {
    assert forall k | 0 <= k < |flags| :: "" + flags[k] == flags[k];
  }

  /** buildInstallCommand's argument list and the curl proxy flag beside it. */
  method InstallArguments(nodeId: string, apiKey: string, apiUrl: string, proxyUrl: string, extraFlags: seq<string>)
    returns (curlProxyFlag: string, args: seq<string>)
    ensures args == Rendered(InstallArgs(nodeId, apiKey, apiUrl, proxyUrl, extraFlags))
    ensures Words(curlProxyFlag) == Some(if proxyUrl == "" then [] else ["--proxy", proxyUrl])
  {
    args := ["--node_id=" + Quote(nodeId), "--api_key=" + Quote(apiKey), "--api_url=" + Quote(apiUrl)];
    curlProxyFlag := "";
    if proxyUrl != "" {
      curlProxyFlag := "--proxy " + Quote(proxyUrl) + " ";
      args := args + ["--proxy=" + Quote(proxyUrl)];
      ProxyFlagReadsBack(proxyUrl);
    }
    assert args == Rendered(InstallArgs(nodeId, apiKey, apiUrl, proxyUrl, []));
    for i := 0 to |extraFlags|
      invariant args == Rendered(InstallArgs(nodeId, apiKey, apiUrl, proxyUrl, extraFlags[..i]))
    {
      assert "" + Quote(extraFlags[i]) == Quote(extraFlags[i]);
      args := args + [Quote(extraFlags[i])];
    }
    assert extraFlags[..|extraFlags|] == extraFlags;
  }

  /** A blank ends the word being read. */
  lemma ReadBlank(rest: string, word: string)
    ensures Tokenize(" " + rest, Some(word), false)
         == var words := Words(rest); if words.None? then None else Some([word] + words.value)
  {
  }

  lemma ProxyFlagReadsBack(proxyUrl: string)
    ensures Words("--proxy " + Quote(proxyUrl) + " ") == Some(["--proxy", proxyUrl])
  {
    var flag := "--proxy";
    var value := Arg("", proxyUrl);
    FlagsAreLiteral();
    assert "--proxy " + Quote(proxyUrl) + " " == flag + (" " + (Render(value) + (" " + "")));
    ReadLiteral(flag, " " + (Render(value) + (" " + "")), None);
    assert "" + flag == flag;
    ReadBlank(Render(value) + (" " + ""), flag);
    ReadArg(value, " " + "");
    ReadBlank("", Meaning(value));
    assert Meaning(value) == proxyUrl;
    assert [flag] + ([proxyUrl] + []) == [flag, proxyUrl];
  }
}
