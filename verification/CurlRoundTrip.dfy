/** Printing a request as a curl command and importing it again
    (web/src/utils/curl.ts). The command quotes every word in single quotes. */
module CurlRoundTrip {
  import opened Common
  import opened CurlTokens
  import opened CurlImport

  datatype Header = Header(name: string, value: string)

  datatype Request = Request(url: string, httpMethod: string, headers: seq<Header>, body: string)

  // ---------------------------------------------------------------- the printer

  /** One word in single quotes, an apostrophe written as '\''. */
  function QuotedText(token: string): string
    decreases |token|
  {
    var i := IndexOf(token, '\'');
    if i == |token| then "'" + token + "'" else "'" + token[..i] + "'\\'" + QuotedText(token[i + 1..])
  }

  /** The quoted words with one space between them. */
  function CommandText(tokens: seq<string>): string {
    if tokens == [] then ""
    else if |tokens| == 1 then QuotedText(tokens[0])
    else QuotedText(tokens[0]) + (" " + CommandText(tokens[1..]))
  }

  function HeaderLine(h: Header): string {
    h.name + ": " + h.value
  }

  function HeaderArgs(headers: seq<Header>): seq<string> {
    if headers == [] then [] else ["-H", HeaderLine(headers[0])] + HeaderArgs(headers[1..])
  }

  function BodyArgs(body: string): seq<string> {
    if body == "" then [] else ["--data-raw", body]
  }

  function Args(r: Request): seq<string> {
    [r.url] + (["-X", r.httpMethod] + (HeaderArgs(r.headers) + BodyArgs(r.body)))
  }

  function Command(r: Request): string {
    CommandText(["curl"] + Args(r))
  }

  /** What the import of a request should be. */
  function Imported(r: Request): Import {
    Import(r.url, r.httpMethod, Flagged(r.headers), r.body != "", r.body)
  }

  function Flagged(headers: seq<Header>): seq<HeaderValue> {
    if headers == [] then [] else [MakeHeader(headers[0].name, headers[0].value)] + Flagged(headers[1..])
  }

  // ---------------------------------------------------------------- quoting is undone by the tokenizer

  function Quoted(token: string): seq<Item>
    decreases |token|
  {
    var i := IndexOf(token, '\'');
    if i == |token| then [Single(token)] else [Single(token[..i])] + ([Escape('\'')] + Quoted(token[i + 1..]))
  }

  function QuotedAll(tokens: seq<string>): seq<seq<Item>> {
    if tokens == [] then [] else [Quoted(tokens[0])] + QuotedAll(tokens[1..])
  }

  lemma TextCons(item: Item, rest: seq<Item>)
    ensures Text([item] + rest) == ItemText(item) + Text(rest)
  {
    assert ([item] + rest)[1..] == rest;
  }

  lemma TextSplitCons(item: Item, a: seq<Item>, b: seq<Item>)
    requires Text(a + b) == Text(a) + Text(b)
    ensures Text(([item] + a) + b) == Text([item] + a) + Text(b)
  {
    hide Text, ItemText;
    assert ([item] + a) + b == [item] + (a + b);
    TextCons(item, a + b);
    TextCons(item, a);
    Associates(ItemText(item), Text(a), Text(b));
  }

  lemma {:induction false} TextSplit(a: seq<Item>, b: seq<Item>)
    ensures Text(a + b) == Text(a) + Text(b)
    decreases |a|
  {
    hide ItemText;
    if a == [] {
      assert a + b == b;
    } else {
      TextSplit(a[1..], b);
      TextSplitCons(a[0], a[1..], b);
      assert a == [a[0]] + a[1..];
    }
  }

  lemma {:induction false} QuotedTextOfItems(token: string)
    ensures Text(Quoted(token)) == QuotedText(token)
    decreases |token|
  {
    var i := IndexOf(token, '\'');
    if i == |token| {
      TextCons(Single(token), []);
      assert [Single(token)] + [] == [Single(token)];
    } else {
      var pre, rest := token[..i], Quoted(token[i + 1..]);
      QuotedTextOfItems(token[i + 1..]);
      TextCons(Single(pre), [Escape('\'')] + rest);
      TextCons(Escape('\''), rest);
      assert "'" + pre + "'\\'" == ("'" + pre + "'") + "\\'";
      Associates("'" + pre + "'", "\\'", Text(rest));
    }
  }

  lemma {:induction false} CommandTextOfItems(tokens: seq<string>)
    ensures Text(SpaceJoined(QuotedAll(tokens))) == CommandText(tokens)
  {
    hide Quoted, QuotedText;
    if tokens != [] {
      CommandTextOfItems(tokens[1..]);
      QuotedTextOfItems(tokens[0]);
      var words, rest := QuotedAll(tokens), SpaceJoined(QuotedAll(tokens[1..]));
      assert words[0] == Quoted(tokens[0]) && words[1..] == QuotedAll(tokens[1..]);
      if |tokens| == 1 {
        assert |words| == 1;
      } else {
        assert words[1..] != [];
        assert SpaceJoined(words) == Quoted(tokens[0]) + ([Space(' ')] + rest);
        TextSplit(Quoted(tokens[0]), [Space(' ')] + rest);
        TextCons(Space(' '), rest);
      }
    }
  }

  lemma {:induction false} QuotedIsWord(token: string)
    ensures IsWord(Quoted(token))
    decreases |token|
  {
    var i := IndexOf(token, '\'');
    var word := Quoted(token);
    assert !word[0].Joined?;
    if i < |token| {
      QuotedIsWord(token[i + 1..]);
      var rest := Quoted(token[i + 1..]);
      forall k | 0 <= k < |word| ensures IsItem(word[k]) && !word[k].Space? {
        if k >= 2 {
          assert word[k] == rest[k - 2];
        }
      }
    }
  }

  lemma WordValueCons(item: Item, rest: seq<Item>)
    ensures WordValue([item] + rest) == ItemValue(item) + WordValue(rest)
  {
    assert ([item] + rest)[1..] == rest;
  }

  lemma SingleValue(text: string)
    ensures WordValue([Single(text)]) == text
  {
    assert text + "" == text;
  }

  lemma CutAt(token: string, i: nat)
    requires i < |token|
    ensures token == token[..i] + ([token[i]] + token[i + 1..])
  {
  }

  lemma ApostropheValue(token: string, i: nat, rest: seq<Item>)
    requires i < |token| && token[i] == '\'' && WordValue(rest) == token[i + 1..]
    ensures WordValue([Single(token[..i])] + ([Escape('\'')] + rest)) == token
  {
    hide WordValue;
    WordValueCons(Single(token[..i]), [Escape('\'')] + rest);
    WordValueCons(Escape('\''), rest);
    CutAt(token, i);
  }

  lemma {:induction false} QuotedValue(token: string)
    ensures WordValue(Quoted(token)) == token
    decreases |token|
  {
    var i := IndexOf(token, '\'');
    if i == |token| {
      SingleValue(token);
    } else {
      QuotedValue(token[i + 1..]);
      ApostropheValue(token, i, Quoted(token[i + 1..]));
    }
  }

  lemma WordValuesCons(first: seq<Item>, rest: seq<seq<Item>>)
    ensures WordValues([first] + rest) == [WordValue(first)] + WordValues(rest)
  {
    assert ([first] + rest)[1..] == rest;
  }

  lemma {:induction false} QuotedAllValues(tokens: seq<string>)
    ensures WordValues(QuotedAll(tokens)) == tokens
  {
    if tokens != [] {
      QuotedValue(tokens[0]);
      QuotedAllValues(tokens[1..]);
      WordValuesCons(Quoted(tokens[0]), QuotedAll(tokens[1..]));
      assert [tokens[0]] + tokens[1..] == tokens;
    }
  }

  lemma {:induction false} QuotedAllAreWords(tokens: seq<string>)
    ensures AreWords(QuotedAll(tokens))
  {
    if tokens != [] {
      QuotedIsWord(tokens[0]);
      QuotedAllAreWords(tokens[1..]);
    }
  }

  /** Whatever the words contain, their quoted command line tokenizes back to them. */
  lemma QuotingRoundTrip(tokens: seq<string>)
    ensures Scan(CommandText(tokens), "", Unquoted, false) == Ok(tokens)
  {
    QuotedAllAreWords(tokens);
    QuotedAllValues(tokens);
    CommandTextOfItems(tokens);
    TokenizeWords(QuotedAll(tokens));
  }

  // ---------------------------------------------------------------- replacing line ends commutes with printing

  lemma ReplaceCons(c: char, s: string)
    requires c != '\r' || s == "" || s[0] != '\n'
    ensures ReplaceCrlf([c] + s) == [c] + ReplaceCrlf(s)
  {
    assert ([c] + s)[1..] == s;
  }

  lemma ReplacePair(s: string)
    ensures ReplaceCrlf("\r\n" + s) == "\n" + ReplaceCrlf(s)
  {
    assert ("\r\n" + s)[2..] == s;
  }

  lemma ReplaceSplitCons(c: char, a: string, b: string)
    requires ReplaceCrlf(a + b) == ReplaceCrlf(a) + ReplaceCrlf(b)
    requires c != '\r' || (a + b == "" || (a + b)[0] != '\n')
    ensures ReplaceCrlf(([c] + a) + b) == ReplaceCrlf([c] + a) + ReplaceCrlf(b)
  {
    assert ([c] + a) + b == [c] + (a + b);
    assert a != "" ==> (a + b)[0] == a[0];
    ReplaceCons(c, a + b);
    ReplaceCons(c, a);
    Associates([c], ReplaceCrlf(a), ReplaceCrlf(b));
  }

  lemma ReplaceSplitPair(a: string, b: string)
    requires ReplaceCrlf(a + b) == ReplaceCrlf(a) + ReplaceCrlf(b)
    ensures ReplaceCrlf(("\r\n" + a) + b) == ReplaceCrlf("\r\n" + a) + ReplaceCrlf(b)
  {
    assert ("\r\n" + a) + b == "\r\n" + (a + b);
    ReplacePair(a + b);
    ReplacePair(a);
    Associates("\n", ReplaceCrlf(a), ReplaceCrlf(b));
  }

  lemma {:induction false} ReplaceSplit(a: string, b: string)
    requires a == "" || a[|a| - 1] != '\r' || b == "" || b[0] != '\n'
    ensures ReplaceCrlf(a + b) == ReplaceCrlf(a) + ReplaceCrlf(b)
    decreases |a|
  {
    if a == "" {
      assert a + b == b;
    } else if |a| >= 2 && a[0] == '\r' && a[1] == '\n' {
      ReplaceSplit(a[2..], b);
      ReplaceSplitPair(a[2..], b);
      assert a == "\r\n" + a[2..];
    } else {
      ReplaceSplit(a[1..], b);
      ReplaceSplitCons(a[0], a[1..], b);
      assert a == [a[0]] + a[1..];
    }
  }

  predicate HasReturn(s: string) {
    exists i :: 0 <= i < |s| && s[i] == '\r'
  }

  lemma {:induction false} ReplaceNone(s: string)
    requires !HasReturn(s)
    ensures ReplaceCrlf(s) == s
  {
    if s != "" {
      assert s[0] != '\r';
      assert !HasReturn(s[1..]);
      ReplaceNone(s[1..]);
      assert [s[0]] + s[1..] == s;
    }
  }

  lemma {:induction false} ReplaceShortens(s: string)
    ensures |ReplaceCrlf(s)| == |s| <==> !HasCrlf(s)
    ensures !HasCrlf(s) ==> ReplaceCrlf(s) == s
    ensures s != "" ==> ReplaceCrlf(s) != ""
    decreases |s|
  {
    if |s| >= 2 && s[0] == '\r' && s[1] == '\n' {
    } else if s != "" {
      ReplaceShortens(s[1..]);
      assert HasCrlf(s[1..]) ==> HasCrlf(s) by {
        if i :| 0 <= i < |s[1..]| - 1 && s[1..][i] == '\r' && s[1..][i + 1] == '\n' {
          assert s[i + 1] == '\r' && s[i + 2] == '\n';
        }
      }
      assert HasCrlf(s) ==> HasCrlf(s[1..]) by {
        if i :| 0 <= i < |s| - 1 && s[i] == '\r' && s[i + 1] == '\n' {
          assert i > 0 && s[1..][i - 1] == '\r' && s[1..][i] == '\n';
        }
      }
      assert [s[0]] + s[1..] == s;
    }
  }

  lemma {:induction false} ReplaceAddsNothing(s: string, c: char)
    requires c != '\n' && c !in s
    ensures c !in ReplaceCrlf(s)
    decreases |s|
  {
    if |s| >= 2 && s[0] == '\r' && s[1] == '\n' {
      ReplaceAddsNothing(s[2..], c);
    } else if s != "" {
      ReplaceAddsNothing(s[1..], c);
    }
  }

  lemma IndexOfFirst(pre: string, c: char, post: string)
    requires c !in pre
    ensures IndexOf(pre + [c] + post, c) == |pre|
  {
    var s := pre + [c] + post;
    var i := IndexOf(s, c);
    assert s[|pre|] == c;
    assert forall k :: 0 <= k < |pre| ==> s[k] == pre[k];
  }

  lemma QuotedTextUnfolds(pre: string, post: string)
    requires '\'' !in pre
    ensures QuotedText(pre) == "'" + pre + "'"
    ensures QuotedText(pre + ['\''] + post) == "'" + pre + "'\\'" + QuotedText(post)
  {
    var token := pre + ['\''] + post;
    IndexOfFirst(pre, '\'', post);
    assert token[..|pre|] == pre && token[|pre| + 1..] == post;
  }

  lemma ReplaceInQuotes(pre: string)
    ensures ReplaceCrlf("'" + pre + "'") == "'" + ReplaceCrlf(pre) + "'"
    ensures ReplaceCrlf("'" + pre + "'\\'") == "'" + ReplaceCrlf(pre) + "'\\'"
  {
    assert "'" + pre == ['\''] + pre;
    ReplaceCons('\'', pre);
    ReplaceSplit("'" + pre, "'");
    ReplaceSplit("'" + pre, "'\\'");
    ReplaceNone("'");
    ReplaceNone("'\\'");
  }

  /** Quoting a word and normalising its line ends can be done in either order. */
  lemma {:induction false} QuotingCommutes(token: string)
    ensures ReplaceCrlf(QuotedText(token)) == QuotedText(ReplaceCrlf(token))
    decreases |token|
  {
    var i := IndexOf(token, '\'');
    var pre := token[..i];
    ReplaceAddsNothing(pre, '\'');
    ReplaceInQuotes(pre);
    if i == |token| {
      assert pre == token;
      QuotedTextUnfolds(token, "");
      QuotedTextUnfolds(ReplaceCrlf(token), "");
    } else {
      var post := token[i + 1..];
      assert token == pre + ['\''] + post;
      QuotingCommutes(post);
      ReplaceAround(pre, post);
      QuotedTextUnfolds(pre, post);
      QuotedTextUnfolds(ReplaceCrlf(pre), ReplaceCrlf(post));
      ReplaceSplit("'" + pre + "'\\'", QuotedText(post));
    }
  }

  lemma ReplaceAround(pre: string, post: string)
    ensures ReplaceCrlf(pre + ['\''] + post) == ReplaceCrlf(pre) + ['\''] + ReplaceCrlf(post)
  {
    ReplaceSplit(pre + ['\''], post);
    ReplaceSplit(pre, ['\'']);
    ReplaceNone(['\'']);
  }

  predicate Enclosed(s: string) {
    s != "" && s[0] == '\'' && s[|s| - 1] == '\''
  }

  lemma EnclosedWhole(token: string)
    ensures Enclosed("'" + token + "'")
  {
  }

  lemma EnclosedJoin(pre: string, rest: string)
    requires Enclosed(rest)
    ensures Enclosed("'" + pre + "'\\'" + rest)
  {
    var head := "'" + pre + "'\\'";
    assert (head + rest)[|head| + |rest| - 1] == rest[|rest| - 1];
  }

  /** Every quoted word begins and ends with an apostrophe, so line ends never meet across words. */
  lemma {:induction false} QuotedTextEnclosed(token: string)
    ensures Enclosed(QuotedText(token))
    decreases |token|
  {
    var i := IndexOf(token, '\'');
    if i == |token| {
      EnclosedWhole(token);
    } else {
      QuotedTextEnclosed(token[i + 1..]);
      EnclosedJoin(token[..i], QuotedText(token[i + 1..]));
    }
  }

  function ReplaceAll(tokens: seq<string>): seq<string> {
    if tokens == [] then [] else [ReplaceCrlf(tokens[0])] + ReplaceAll(tokens[1..])
  }

  /** Normalising the line ends of a command line normalises them in each of its words. */
  lemma {:induction false} PrintingCommutes(tokens: seq<string>)
    requires tokens != []
    ensures ReplaceCrlf(CommandText(tokens)) == CommandText(ReplaceAll(tokens))
    decreases |tokens|
  {
    QuotingCommutes(tokens[0]);
    var words := ReplaceAll(tokens);
    assert words[0] == ReplaceCrlf(tokens[0]) && words[1..] == ReplaceAll(tokens[1..]);
    if |tokens| == 1 {
      assert |words| == 1;
    } else {
      PrintingCommutes(tokens[1..]);
      var first, rest := QuotedText(tokens[0]), CommandText(tokens[1..]);
      QuotedTextEnclosed(tokens[0]);
      ReplaceSplit(first, " " + rest);
      ReplaceCons(' ', rest);
      assert " " + rest == [' '] + rest;
      assert |words| > 1 by { assert words[1..] != []; }
    }
  }

  // ---------------------------------------------------------------- the request as the importer reads it

  function NormalHeaders(headers: seq<Header>): seq<Header> {
    if headers == [] then []
    else [Header(ReplaceCrlf(headers[0].name), ReplaceCrlf(headers[0].value))] + NormalHeaders(headers[1..])
  }

  function Normal(r: Request): Request {
    Request(ReplaceCrlf(r.url), ReplaceCrlf(r.httpMethod), NormalHeaders(r.headers), ReplaceCrlf(r.body))
  }

  lemma ReplaceWord(first: string, rest: seq<string>)
    ensures ReplaceAll([first] + rest) == [ReplaceCrlf(first)] + ReplaceAll(rest)
  {
    assert ([first] + rest)[1..] == rest;
  }

  lemma ReplaceAllSplitCons(first: string, a: seq<string>, b: seq<string>)
    requires ReplaceAll(a + b) == ReplaceAll(a) + ReplaceAll(b)
    ensures ReplaceAll(([first] + a) + b) == ReplaceAll([first] + a) + ReplaceAll(b)
  {
    Associates([first], a, b);
    ReplaceWord(first, a + b);
    ReplaceWord(first, a);
    Associates([ReplaceCrlf(first)], ReplaceAll(a), ReplaceAll(b));
  }

  lemma {:induction false} ReplaceAllSplit(a: seq<string>, b: seq<string>)
    ensures ReplaceAll(a + b) == ReplaceAll(a) + ReplaceAll(b)
  {
    if a == [] {
      assert a + b == b;
    } else {
      ReplaceAllSplit(a[1..], b);
      ReplaceAllSplitCons(a[0], a[1..], b);
      assert a == [a[0]] + a[1..];
    }
  }

  lemma ReplaceInLine(h: Header)
    ensures ReplaceCrlf(HeaderLine(h)) == HeaderLine(Header(ReplaceCrlf(h.name), ReplaceCrlf(h.value)))
  {
    var separator := ": ";
    ReplaceNone(separator);
    ReplaceSplit(h.name, separator);
    ReplaceSplit(h.name + separator, h.value);
  }

  lemma {:induction false} ReplaceHeaderArgs(headers: seq<Header>)
    ensures ReplaceAll(HeaderArgs(headers)) == HeaderArgs(NormalHeaders(headers))
  {
    if headers != [] {
      var line := HeaderLine(headers[0]);
      ReplaceHeaderArgs(headers[1..]);
      ReplaceInLine(headers[0]);
      ReplaceAllSplit(["-H", line], HeaderArgs(headers[1..]));
      ReplacePairOfWords("-H", line);
      assert NormalHeaders(headers)[1..] == NormalHeaders(headers[1..]);
    }
  }

  lemma ReplacePairOfWords(first: string, second: string)
    requires !HasReturn(first)
    ensures ReplaceAll([first, second]) == [first, ReplaceCrlf(second)]
  {
    ReplaceNone(first);
    assert [first, second] == [first] + [second] && [second] == [second] + [];
    ReplaceWord(first, [second]);
    ReplaceWord(second, []);
  }

  lemma ReplaceBodyArgs(body: string)
    ensures ReplaceAll(BodyArgs(body)) == BodyArgs(ReplaceCrlf(body))
  {
    hide ReplaceCrlf;
    if body != "" {
      ReplaceShortens(body);
      ReplacePairOfWords("--data-raw", body);
    }
  }

  lemma ReplaceTail(r: Request)
    ensures ReplaceAll(HeaderArgs(r.headers) + BodyArgs(r.body))
         == HeaderArgs(NormalHeaders(r.headers)) + BodyArgs(ReplaceCrlf(r.body))
  {
    ReplaceHeaderArgs(r.headers);
    ReplaceBodyArgs(r.body);
    ReplaceAllSplit(HeaderArgs(r.headers), BodyArgs(r.body));
  }

  lemma ReplaceMethodAndTail(httpMethod: string, tail: seq<string>)
    ensures ReplaceAll(["-X", httpMethod] + tail) == ["-X", ReplaceCrlf(httpMethod)] + ReplaceAll(tail)
  {
    ReplaceAllSplit(["-X", httpMethod], tail);
    ReplacePairOfWords("-X", httpMethod);
  }

  lemma ReplacePlainWord(first: string, rest: seq<string>)
    requires !HasReturn(first)
    ensures ReplaceAll([first] + rest) == [first] + ReplaceAll(rest)
  {
    ReplaceNone(first);
    ReplaceWord(first, rest);
  }

  lemma ReplaceArgs(r: Request)
    ensures ReplaceAll(Args(r)) == Args(Normal(r))
  {
    var tail := HeaderArgs(r.headers) + BodyArgs(r.body);
    ReplaceTail(r);
    ReplaceMethodAndTail(r.httpMethod, tail);
    ReplaceWord(r.url, ["-X", r.httpMethod] + tail);
  }

  /** Importing the printed command of a request parses the words of its normal form. */
  lemma PrintedIsParsed(p: Platform, r: Request)
    ensures Parsed(p, Command(r)) == ParseTokens(p, ["curl"] + Args(Normal(r)))
  {
    PrintingCommutes(["curl"] + Args(r));
    ReplacePlainWord("curl", Args(r));
    ReplaceArgs(r);
    QuotingRoundTrip(["curl"] + Args(Normal(r)));
  }

  // ---------------------------------------------------------------- parsing the printed words

  lemma PrintedOption(option: string)
    requires option in {"-X", "-H", "--data-raw"}
    ensures SplitOption(option) == (option, None) && Classify(option) == Valued
  {
    assert '=' !in "--data-raw" && "--data-raw"[1] == '-';
  }

  lemma ValuedStep(p: Platform, option: string, value: string, rest: seq<string>, st: Options)
    requires SplitOption(option) == (option, None) && Classify(option) == Valued
    ensures ParseArgs(p, [option, value] + rest, st) == Continue(p, rest, WithOption(p, st, option, value))
  {
    assert ([option, value] + rest)[2..] == rest;
  }

  lemma UrlStep(p: Platform, url: string, rest: seq<string>, st: Options)
    requires url != "" && url[0] != '-'
    ensures ParseArgs(p, [url] + rest, st) == Continue(p, rest, WithUrl(st, url))
  {
    assert ([url] + rest)[1..] == rest;
    assert SplitOption(url) == (url, None);
  }

  /** The header that the importer makes of a printed header line, if the line is one. */
  function ReadHeader(h: Header): Option<HeaderValue> {
    var line := HeaderLine(h);
    var colon := IndexOf(line, ':');
    if colon == 0 then None else Some(MakeHeader(Trim(line[..colon]), Trim(line[colon + 1..])))
  }

  function ReadHeaders(headers: seq<Header>): Option<seq<HeaderValue>> {
    if headers == [] then Some([])
    else
      var first, rest := ReadHeader(headers[0]), ReadHeaders(headers[1..]);
      if first.None? || rest.None? then None else Some([first.value] + rest.value)
  }

  lemma HeaderStep(p: Platform, h: Header, rest: seq<string>, st: Options)
    ensures ParseArgs(p, ["-H", HeaderLine(h)] + rest, st) ==
            if ReadHeader(h).None? then Err(BadHeader)
            else ParseArgs(p, rest, st.(headers := st.headers + [ReadHeader(h).value]))
  {
    hide ParseArgs, SplitOption, Classify, Trim;
    assert HeaderLine(h)[|h.name|] == ':';
    PrintedOption("-H");
    ValuedStep(p, "-H", HeaderLine(h), rest, st);
  }

  lemma {:induction false} HeaderSteps(p: Platform, headers: seq<Header>, rest: seq<string>, st: Options)
    ensures ReadHeaders(headers).Some? ==>
              ParseArgs(p, HeaderArgs(headers) + rest, st)
              == ParseArgs(p, rest, st.(headers := st.headers + ReadHeaders(headers).value))
    ensures ReadHeaders(headers).None? ==> ParseArgs(p, HeaderArgs(headers) + rest, st) == Err(BadHeader)
    decreases |headers|
  {
    hide ParseArgs, ReadHeader, HeaderLine;
    if headers == [] {
      assert HeaderArgs(headers) + rest == rest;
      assert st.headers + [] == st.headers;
    } else {
      assert HeaderArgs(headers) + rest == ["-H", HeaderLine(headers[0])] + (HeaderArgs(headers[1..]) + rest);
      HeaderStep(p, headers[0], HeaderArgs(headers[1..]) + rest, st);
      if ReadHeader(headers[0]).Some? {
        var first := ReadHeader(headers[0]).value;
        var st' := st.(headers := st.headers + [first]);
        HeaderSteps(p, headers[1..], rest, st');
        if ReadHeaders(headers[1..]).Some? {
          assert st.headers + [first] + ReadHeaders(headers[1..]).value == st.headers + ([first] + ReadHeaders(headers[1..]).value);
        }
      }
    }
  }

  /** The options that the printed words of a request add up to. */
  function OptionsOf(p: Platform, r: Request, headers: seq<HeaderValue>): Options {
    Options(r.url, p.upper(r.httpMethod), false, false, false, headers, if r.body == "" then [] else [r.body])
  }

  lemma RawData(p: Platform, body: string, st: Options)
    ensures WithOption(p, st, "--data-raw", body) == Ok(st.(data := st.data + [body]))
  {
  }

  lemma LastStep(p: Platform, option: string, value: string, st: Options, st': Options)
    requires SplitOption(option) == (option, None) && Classify(option) == Valued
    requires WithOption(p, st, option, value) == Ok(st')
    ensures ParseArgs(p, [option, value], st) == Ok(st')
  {
    ValuedStep(p, option, value, [], st);
    assert [option, value] == [option, value] + [];
  }

  lemma NoMoreArgs(p: Platform, st: Options)
    ensures ParseArgs(p, [], st) == Ok(st)
  {
  }

  lemma BodyStep(p: Platform, body: string, st: Options)
    requires st.data == []
    ensures ParseArgs(p, BodyArgs(body), st) == Ok(st.(data := if body == "" then [] else [body]))
  {
    hide ParseArgs, SplitOption, Classify, WithOption;
    NoMoreArgs(p, st);
    if body != "" {
      PrintedOption("--data-raw");
      RawData(p, body, st);
      assert st.data + [body] == [body];
      LastStep(p, "--data-raw", body, st, st.(data := [body]));
    }
  }

  lemma MethodStep(p: Platform, httpMethod: string, rest: seq<string>, st: Options)
    ensures ParseArgs(p, ["-X", httpMethod] + rest, st) == ParseArgs(p, rest, st.(httpMethod := p.upper(httpMethod)))
  {
    hide ParseArgs, SplitOption, Classify;
    PrintedOption("-X");
    ValuedStep(p, "-X", httpMethod, rest, st);
  }

  lemma ArgsParse(p: Platform, r: Request)
    requires r.url != "" && r.url[0] != '-'
    ensures ParseArgs(p, Args(r), NO_OPTIONS) ==
            if ReadHeaders(r.headers).None? then Err(BadHeader)
            else Ok(OptionsOf(p, r, ReadHeaders(r.headers).value))
  {
    hide ParseArgs, HeaderArgs, BodyArgs, ReadHeaders;
    var tail := HeaderArgs(r.headers) + BodyArgs(r.body);
    UrlStep(p, r.url, ["-X", r.httpMethod] + tail, NO_OPTIONS);
    var st1 := NO_OPTIONS.(url := r.url);
    MethodStep(p, r.httpMethod, tail, st1);
    var st2 := st1.(httpMethod := p.upper(r.httpMethod));
    HeaderSteps(p, r.headers, BodyArgs(r.body), st2);
    if ReadHeaders(r.headers).Some? {
      var headers := ReadHeaders(r.headers).value;
      assert st2.headers + headers == headers;
      BodyStep(p, r.body, st2.(headers := headers));
    }
  }

  // ---------------------------------------------------------------- which headers survive

  predicate IsKept(h: Header) {
    && h.name != "" && ':' !in h.name && IsTrimmed(h.name) && IsTrimmed(h.value)
    && !HasCrlf(h.name) && !HasCrlf(h.value)
  }

  lemma {:induction false} TrimEndKeeps(s: string)
    ensures |TrimEnd(s)| == |s| <==> s == "" || !IsSpace(s[|s| - 1])
    ensures |TrimEnd(s)| == |s| ==> TrimEnd(s) == s
  {
  }

  lemma TrimKeeps(s: string)
    ensures |Trim(s)| == |s| <==> IsTrimmed(s)
    ensures |Trim(s)| == |s| ==> Trim(s) == s
    ensures Trim(" " + s) == Trim(s)
  {
    TrimEndKeeps(TrimStart(s));
    assert (" " + s)[1..] == s;
    if s != "" && IsSpace(s[0]) {
      assert |TrimStart(s)| < |s|;
    }
  }

  lemma ReadHeaderParts(h: Header)
    ensures ':' !in h.name && h.name != "" ==> ReadHeader(h) == Some(MakeHeader(Trim(h.name), Trim(h.value)))
    ensures ReadHeader(h).Some? ==> h.name != ""
    ensures ':' in h.name && ReadHeader(h).Some? ==> |ReadHeader(h).value.name| < |h.name|
  {
    var line := HeaderLine(h);
    if ':' !in h.name {
      assert line == h.name + [':'] + (" " + h.value);
      IndexOfFirst(h.name, ':', " " + h.value);
      assert line[..|h.name|] == h.name && line[|h.name| + 1..] == " " + h.value;
      TrimKeeps(h.value);
    } else {
      var i := IndexOf(h.name, ':');
      var pre, post := h.name[..i], h.name[i + 1..] + ": " + h.value;
      assert line == pre + [':'] + post;
      IndexOfFirst(pre, ':', post);
      assert line[..i] == pre;
    }
  }

  /** A header comes back as it was exactly when it is kept. */
  lemma HeaderSurvives(h: Header)
    ensures ReadHeader(Header(ReplaceCrlf(h.name), ReplaceCrlf(h.value))) == Some(MakeHeader(h.name, h.value)) <==> IsKept(h)
  {
    var n := Header(ReplaceCrlf(h.name), ReplaceCrlf(h.value));
    ReplaceShortens(h.name);
    ReplaceShortens(h.value);
    ReadHeaderParts(n);
    TrimKeeps(n.name);
    TrimKeeps(n.value);
    if ReadHeader(n) == Some(MakeHeader(h.name, h.value)) {
      assert |n.name| <= |h.name| && |n.value| <= |h.value|;
      assert ':' !in n.name;
    }
  }

  lemma {:induction false} HeadersSurvive(headers: seq<Header>)
    ensures ReadHeaders(NormalHeaders(headers)) == Some(Flagged(headers))
            <==> forall i :: 0 <= i < |headers| ==> IsKept(headers[i])
    ensures ReadHeaders(NormalHeaders(headers)).Some? ==> |ReadHeaders(NormalHeaders(headers)).value| == |headers|
    ensures |Flagged(headers)| == |headers|
  {
    hide ReadHeader, IsKept, ReplaceCrlf;
    if headers != [] {
      HeaderSurvives(headers[0]);
      HeadersSurvive(headers[1..]);
      assert NormalHeaders(headers)[1..] == NormalHeaders(headers[1..]);
      var read := ReadHeaders(NormalHeaders(headers));
      assert (forall i :: 0 <= i < |headers| ==> IsKept(headers[i])) <==>
             IsKept(headers[0]) && forall i :: 0 <= i < |headers[1..]| ==> IsKept(headers[1..][i]) by {
        assert forall i :: 0 < i < |headers| ==> headers[i] == headers[1..][i - 1];
      }
      if read.Some? {
        assert read.value[0] == ReadHeader(NormalHeaders(headers)[0]).value;
        assert read.value[1..] == ReadHeaders(NormalHeaders(headers[1..])).value;
        assert Flagged(headers)[0] == MakeHeader(headers[0].name, headers[0].value);
        assert Flagged(headers)[1..] == Flagged(headers[1..]);
      }
    }
  }

  lemma {:induction false} FlaggedNames(headers: seq<Header>)
    ensures |Flagged(headers)| == |headers|
    ensures forall i :: 0 <= i < |headers| ==> Flagged(headers)[i].name == headers[i].name
  {
    if headers != [] {
      FlaggedNames(headers[1..]);
      assert forall i :: 0 < i < |headers| ==> Flagged(headers)[i] == Flagged(headers[1..])[i - 1];
    }
  }

  // ---------------------------------------------------------------- the round trip

  predicate HasContentType(headers: seq<Header>) {
    exists i :: 0 <= i < |headers| && Lower(headers[i].name) == "content-type"
  }

  predicate IsHttpUrl(p: Platform, url: string) {
    (p.protocol(url) == Some("http:") || p.protocol(url) == Some("https:")) && !HasCrlf(url)
  }

  /** Everything but the body survives. */
  predicate HeadSurvives(p: Platform, r: Request) {
    IsHttpUrl(p, r.url) && r.httpMethod in METHODS && forall i :: 0 <= i < |r.headers| ==> IsKept(r.headers[i])
  }

  /** The requests that a curl command line can carry through the importer. */
  predicate Printable(p: Platform, r: Request) {
    HeadSurvives(p, r) && !HasCrlf(r.body) && (r.body != "" ==> HasContentType(r.headers))
  }

  lemma ReplaceKeepsStart(s: string)
    requires s != "" && s[0] != '-'
    ensures ReplaceCrlf(s) != "" && ReplaceCrlf(s)[0] != '-'
  {
  }

  /** An import never has an empty URL or one that begins with a dash. */
  lemma FinishedUrl(p: Platform, st: Options)
    requires Sound(p) && Finish(p, st).Ok?
    ensures var url := Finish(p, st).value.url; url != "" && url[0] != '-'
  {
  }

  lemma MethodsArePlain(m: string)
    requires m in METHODS
    ensures !HasReturn(m) && m != ""
  {
  }

  /** What Finish makes of the options of a printed request. */
  lemma FinishPrinted(p: Platform, r: Request, headers: seq<HeaderValue>)
    requires p.protocol(r.url) == Some("http:") || p.protocol(r.url) == Some("https:")
    requires p.upper(r.httpMethod) in METHODS
    requires r.body != "" ==> HasHeader(headers, "content-type")
    ensures Finish(p, OptionsOf(p, r, headers)) == Ok(Import(r.url, p.upper(r.httpMethod), headers, r.body != "", r.body))
  {
    MethodsArePlain(p.upper(r.httpMethod));
  }

  lemma PrintableComesBack(p: Platform, r: Request)
    requires Sound(p) && Printable(p, r)
    ensures Parsed(p, Command(r)) == Ok(Imported(r))
  {
    hide ParseArgs, HeaderArgs, BodyArgs, ReadHeaders, NormalHeaders, Finish;
    PrintedIsParsed(p, r);
    MethodsArePlain(r.httpMethod);
    ReplaceNone(r.httpMethod);
    ReplaceShortens(r.url);
    ReplaceShortens(r.body);
    HeadersSurvive(r.headers);
    var n := Normal(r);
    ArgsParse(p, n);
    assert (["curl"] + Args(n))[1..] == Args(n);
    FlaggedNames(r.headers);
    if r.body != "" {
      var i :| 0 <= i < |r.headers| && Lower(r.headers[i].name) == "content-type";
      assert Flagged(r.headers)[i].name == r.headers[i].name;
      assert HasHeader(Flagged(r.headers), "content-type");
    }
    FinishPrinted(p, n, Flagged(r.headers));
  }

  lemma ComesBackIsPrintable(p: Platform, r: Request)
    requires Sound(p) && Parsed(p, Command(r)) == Ok(Imported(r))
    ensures Printable(p, r)
  {
    hide ParseArgs, ReplaceCrlf, HeaderArgs, BodyArgs, ReadHeaders, NormalHeaders, Flagged, IsKept, HasCrlf;
    PrintedIsParsed(p, r);
    var n := Normal(r);
    assert (["curl"] + Args(n))[1..] == Args(n);
    FinishedUrl(p, ParseArgs(p, Args(n), NO_OPTIONS).value);
    ReplaceShortens(r.url);
    ReplaceShortens(r.body);
    ReplaceKeepsStart(r.url);
    ArgsParse(p, n);
    HeadersSurvive(r.headers);
    FlaggedNames(r.headers);
    var headers := ReadHeaders(n.headers).value;
    var st := OptionsOf(p, n, headers);
    assert Finish(p, st) == Ok(Imported(r));
    assert headers == Flagged(r.headers);
    if r.body != "" {
      assert HasHeader(headers, "content-type");
    }
  }

  /** Printing a request and importing the command gives the request back, headers in
      order, exactly when it is printable. */
  lemma RequestRoundTrip(p: Platform, r: Request)
    requires Sound(p)
    ensures Parsed(p, Command(r)) == Ok(Imported(r)) <==> Printable(p, r)
  {
    if Printable(p, r) {
      PrintableComesBack(p, r);
    }
    if Parsed(p, Command(r)) == Ok(Imported(r)) {
      ComesBackIsPrintable(p, r);
    }
  }

  // ---------------------------------------------------------------- what becomes of requests that do not survive

  /** The import of any request with a good URL and method and headers that can be read. */
  lemma ImportOf(p: Platform, r: Request, headers: seq<HeaderValue>)
    requires Sound(p) && IsHttpUrl(p, r.url) && r.httpMethod in METHODS
    requires ReadHeaders(NormalHeaders(r.headers)) == Some(headers)
    ensures Parsed(p, Command(r)) == Finish(p, OptionsOf(p, Normal(r), headers))
    ensures Normal(r).url == r.url && Normal(r).httpMethod == r.httpMethod && Normal(r).body == ReplaceCrlf(r.body)
  {
    hide ParseArgs, ReadHeaders, NormalHeaders, Finish, HeaderArgs, BodyArgs;
    PrintedIsParsed(p, r);
    MethodsArePlain(r.httpMethod);
    ReplaceNone(r.httpMethod);
    ReplaceShortens(r.url);
    ArgsParse(p, Normal(r));
    assert (["curl"] + Args(Normal(r)))[1..] == Args(Normal(r));
  }

  lemma TypedHeaders(headers: seq<Header>)
    ensures HasContentType(headers) <==> HasHeader(Flagged(headers), "content-type")
  {
    FlaggedNames(headers);
    if HasContentType(headers) {
      var i :| 0 <= i < |headers| && Lower(headers[i].name) == "content-type";
      assert Flagged(headers)[i].name == headers[i].name;
    }
    if HasHeader(Flagged(headers), "content-type") {
      var i :| 0 <= i < |Flagged(headers)| && Lower(Flagged(headers)[i].name) == "content-type";
      assert Flagged(headers)[i].name == headers[i].name;
    }
  }

  /** The body comes back with its line ends normalised; with a CRLF in it, that is another body. */
  lemma CrlfIsLost(p: Platform, r: Request)
    requires Sound(p) && HeadSurvives(p, r) && (r.body != "" ==> HasContentType(r.headers))
    ensures Parsed(p, Command(r)) == Ok(Imported(r.(body := ReplaceCrlf(r.body))))
    ensures HasCrlf(r.body) ==> Parsed(p, Command(r)) != Ok(Imported(r))
  {
    hide Finish, ReplaceCrlf, IsKept, ReadHeaders, NormalHeaders, Flagged, HasCrlf, HasHeader, HasContentType;
    HeadersSurvive(r.headers);
    ImportOf(p, r, Flagged(r.headers));
    ReplaceShortens(r.body);
    TypedHeaders(r.headers);
    FinishPrinted(p, Normal(r), Flagged(r.headers));
  }

  /** A body without a content type comes back with one that the request did not have. */
  lemma ContentTypeIsAdded(p: Platform, r: Request)
    requires Sound(p) && HeadSurvives(p, r) && r.body != "" && !HasContentType(r.headers)
    ensures Parsed(p, Command(r)) ==
            Ok(Import(r.url, r.httpMethod,
                      Flagged(r.headers) + [MakeHeader("Content-Type", "application/x-www-form-urlencoded")],
                      true, ReplaceCrlf(r.body)))
    ensures Parsed(p, Command(r)) != Ok(Imported(r))
  {
    hide ReplaceCrlf, IsKept, ReadHeaders, NormalHeaders, Flagged, HasCrlf, HasHeader, HasContentType, MakeHeader;
    HeadersSurvive(r.headers);
    ImportOf(p, r, Flagged(r.headers));
    ReplaceShortens(r.body);
    TypedHeaders(r.headers);
    MethodsArePlain(r.httpMethod);
  }

  /** A header name with a colon is cut there, and the rest goes to the value. */
  lemma ColonMoves(p: Platform, url: string, name: string, rest: string, value: string)
    requires Sound(p) && IsHttpUrl(p, url)
    requires name != "" && ':' !in name && IsTrimmed(name) && !HasReturn(name + [':'] + rest) && !HasReturn(value)
    ensures var r := Request(url, "GET", [Header(name + [':'] + rest, value)], "");
            && Parsed(p, Command(r)) == Ok(Import(url, "GET", [MakeHeader(name, Trim(rest + ": " + value))], false, ""))
            && Parsed(p, Command(r)) != Ok(Imported(r))
  {
    hide Finish, ReplaceCrlf, HasHeader, Trim, HasReturn, MakeHeader;
    var h := Header(name + [':'] + rest, value);
    var r := Request(url, "GET", [h], "");
    var read := MakeHeader(name, Trim(rest + ": " + value));
    ColonIsRead(name, rest, value);
    ReplaceNone(h.name);
    ReplaceNone(value);
    OneHeader(h, read);
    ImportOf(p, r, [read]);
    ReplaceShortens("");
    FinishPrinted(p, Normal(r), [read]);
    OtherName(h, read);
  }

  lemma OneHeader(h: Header, read: HeaderValue)
    requires ReplaceCrlf(h.name) == h.name && ReplaceCrlf(h.value) == h.value && ReadHeader(h) == Some(read)
    ensures ReadHeaders(NormalHeaders([h])) == Some([read])
  {
    hide ReplaceCrlf, ReadHeader;
    assert [h][1..] == [] && NormalHeaders([h]) == [h] + NormalHeaders([]);
    assert [h] + [] == [h] && [read] + [] == [read];
  }

  lemma OtherName(h: Header, read: HeaderValue)
    requires |read.name| < |h.name|
    ensures Flagged([h]) != [read]
  {
    assert Flagged([h])[0] == MakeHeader(h.name, h.value);
  }

  lemma ColonIsRead(name: string, rest: string, value: string)
    requires name != "" && ':' !in name && IsTrimmed(name)
    ensures var read := MakeHeader(name, Trim(rest + ": " + value));
            ReadHeader(Header(name + [':'] + rest, value)) == Some(read) && read.name == name
  {
    hide Trim, IsSensitive;
    var tail := rest + ": " + value;
    var line := HeaderLine(Header(name + [':'] + rest, value));
    assert line == name + [':'] + tail;
    IndexOfFirst(name, ':', tail);
    assert line[..|name|] == name && line[|name| + 1..] == tail;
    TrimKeeps(name);
  }
}
