/** The shell tokenizer of the curl importer (web/src/utils/curl.ts) and its meaning
    in terms of the quoting rules of POSIX.1-2017, Shell Command Language, section 2.2:
    backslash, single quotes, double quotes, and line continuation. */
module CurlTokens {
  import opened Common

  datatype TokenError = IncompleteEscape | SpecialCharacter | UnclosedQuote

  datatype Quote = Unquoted | InSingle | InDouble

  /** The class `\s` of JavaScript regular expressions, which trim() removes as well. */
  predicate IsSpace(c: char) {
    || '\t' <= c <= '\r' || c == ' ' || c == '\U{A0}' || c == '\U{1680}'
    || '\U{2000}' <= c <= '\U{200A}' || c == '\U{2028}' || c == '\U{2029}' || c == '\U{202F}'
    || c == '\U{205F}' || c == '\U{3000}' || c == '\U{FEFF}'
  }

  predicate IsSpecial(c: char) {
    c in ";|&<>`"
  }

  /** The characters a backslash escapes inside double quotes. */
  predicate EscapesInDouble(c: char) {
    c == '"' || c == '\\' || c == '$' || c == '`'
  }

  type Tokens = Result<seq<string>, TokenError>

  function Prepend(front: seq<string>, rest: Tokens): Tokens {
    match rest
    case Ok(tokens) => Ok(front + tokens)
    case Err(e) => Err(e)
  }

  function Finished(token: string, started: bool): seq<string> {
    if started then [token] else []
  }

  /** What the tokenizer returns for the rest `s` of its input, from its state in the middle. */
  function Scan(s: string, token: string, quote: Quote, started: bool): Tokens {
    if s == "" then
      if quote != Unquoted then Err(UnclosedQuote) else Ok(Finished(token, started))
    else if s[0] == '\\' && quote != InSingle then
      if |s| == 1 then Err(IncompleteEscape)
      else if s[1] == '\n' then Scan(s[2..], token, quote, started)
      else if quote == InDouble && !EscapesInDouble(s[1]) then Scan(s[2..], token + "\\" + [s[1]], quote, true)
      else Scan(s[2..], token + [s[1]], quote, true)
    else if quote == InSingle then
      if s[0] == '\'' then Scan(s[1..], token, Unquoted, started) else Scan(s[1..], token + [s[0]], quote, started)
    else if quote == InDouble then
      if s[0] == '"' then Scan(s[1..], token, Unquoted, started) else Scan(s[1..], token + [s[0]], quote, started)
    else if s[0] == '"' then Scan(s[1..], token, InDouble, true)
    else if s[0] == '\'' then Scan(s[1..], token, InSingle, true)
    else if IsSpace(s[0]) then Prepend(Finished(token, started), Scan(s[1..], "", Unquoted, false))
    else if IsSpecial(s[0]) then Err(SpecialCharacter)
    else Scan(s[1..], token + [s[0]], Unquoted, true)
  }

  lemma PrependTwice(a: seq<string>, b: seq<string>, rest: Tokens)
    ensures Prepend(a, Prepend(b, rest)) == Prepend(a + b, rest)
    ensures Prepend([], rest) == rest
  {
    if rest.Ok? {
      assert a + (b + rest.value) == a + b + rest.value;
      assert [] + rest.value == rest.value;
    }
  }

  method Tokenize(command: string) returns (r: Tokens)
    ensures r == Scan(command, "", Unquoted, false)
  {
    var tokens: seq<string> := [];
    var token, quote, started := "", Unquoted, false;
    var i := 0;
    assert command[0..] == command;
    PrependTwice([], [], Scan(command, token, quote, started));
    while i < |command|
      invariant 0 <= i <= |command|
      invariant Scan(command, "", Unquoted, false) == Prepend(tokens, Scan(command[i..], token, quote, started))
    {
      var c := command[i];
      assert command[i..][1..] == command[i + 1..];
      if c == '\\' && quote != InSingle {
        i := i + 1;
        if i == |command| {
          return Err(IncompleteEscape);
        }
        var next := command[i];
        assert command[i - 1..][2..] == command[i + 1..];
        if next != '\n' {
          if quote == InDouble && !EscapesInDouble(next) {
            token := token + "\\";
          }
          token := token + [next];
          started := true;
        }
      } else if quote != Unquoted {
        if c == (if quote == InSingle then '\'' else '"') {
          quote := Unquoted;
        } else {
          token := token + [c];
        }
      } else if c == '"' || c == '\'' {
        quote := if c == '"' then InDouble else InSingle;
        started := true;
      } else if IsSpace(c) {
        PrependTwice(tokens, Finished(token, started), Scan(command[i + 1..], "", Unquoted, false));
        if started {
          tokens := tokens + [token];
        } else {
          assert tokens + [] == tokens;
        }
        token, started := "", false;
      } else {
        if IsSpecial(c) {
          return Err(SpecialCharacter);
        }
        token, started := token + [c], true;
      }
      i := i + 1;
    }
    if quote != Unquoted {
      return Err(UnclosedQuote);
    }
    assert tokens + [] == tokens;
    if started {
      tokens := tokens + [token];
    }
    r := Ok(tokens);
  }

  // ---------------------------------------------------------------- quoting, as the shell defines it

  // A piece of a double-quoted string (section 2.2.3).
  datatype Inner =
    | Plain(c: char)        // stands for itself
    | Escaped(c: char)      // a backslash and one of $ ` " \
    | Kept(c: char)         // a backslash before anything else stays
    | Folded                // backslash and newline: nothing

  // A piece of unquoted text.
  datatype Item =
    | Space(c: char)
    | Literal(c: char)                  // stands for itself
    | Escape(c: char)                   // section 2.2.1
    | Joined                            // backslash and newline: nothing, and no word
    | Single(text: string)              // section 2.2.2
    | Double(inner: seq<Inner>)         // section 2.2.3

  predicate IsInner(p: Inner) {
    match p
    case Plain(c) => c != '"' && c != '\\'
    case Escaped(c) => EscapesInDouble(c)
    case Kept(c) => !EscapesInDouble(c) && c != '\n'
    case Folded => true
  }

  predicate IsItem(item: Item) {
    match item
    case Space(c) => IsSpace(c)
    case Literal(c) => !IsSpace(c) && !IsSpecial(c) && c != '\\' && c != '"' && c != '\''
    case Escape(c) => c != '\n'
    case Joined => true
    case Single(text) => '\'' !in text
    case Double(inner) => forall i :: 0 <= i < |inner| ==> IsInner(inner[i])
  }

  predicate AreItems(items: seq<Item>) {
    forall i :: 0 <= i < |items| ==> IsItem(items[i])
  }

  function InnerText(p: Inner): string {
    match p
    case Plain(c) => [c]
    case Escaped(c) => ['\\', c]
    case Kept(c) => ['\\', c]
    case Folded => "\\\n"
  }

  function InnerValue(p: Inner): string {
    match p
    case Plain(c) => [c]
    case Escaped(c) => [c]
    case Kept(c) => ['\\', c]
    case Folded => ""
  }

  function InnersText(ps: seq<Inner>): string {
    if ps == [] then "" else InnerText(ps[0]) + InnersText(ps[1..])
  }

  function InnersValue(ps: seq<Inner>): string {
    if ps == [] then "" else InnerValue(ps[0]) + InnersValue(ps[1..])
  }

  function ItemText(item: Item): string {
    match item
    case Space(c) => [c]
    case Literal(c) => [c]
    case Escape(c) => ['\\', c]
    case Joined => "\\\n"
    case Single(text) => "'" + text + "'"
    case Double(inner) => "\"" + InnersText(inner) + "\""
  }

  function ItemValue(item: Item): string {
    match item
    case Space(_) => ""
    case Literal(c) => [c]
    case Escape(c) => [c]
    case Joined => ""
    case Single(text) => text
    case Double(inner) => InnersValue(inner)
  }

  function Text(items: seq<Item>): string {
    if items == [] then "" else ItemText(items[0]) + Text(items[1..])
  }

  /** The words that `items` denote when `token` has been read of the current one. */
  function Words(items: seq<Item>, token: string, started: bool): seq<string> {
    if items == [] then Finished(token, started)
    else
      match items[0]
      case Space(_) => Finished(token, started) + Words(items[1..], "", false)
      case Joined => Words(items[1..], token, started)
      case _ => Words(items[1..], token + ItemValue(items[0]), true)
  }

  // ---------------------------------------------------------------- the tokenizer implements the meaning

  lemma {:induction false} ScanSingle(text: string, rest: string, token: string)
    requires '\'' !in text
    ensures Scan(text + "'" + rest, token, InSingle, true) == Scan(rest, token + text, Unquoted, true)
  {
    var s := text + "'" + rest;
    if text == "" {
      assert s[1..] == rest && token + text == token;
    } else {
      ScanSingle(text[1..], rest, token + [text[0]]);
      assert s[1..] == text[1..] + "'" + rest;
      assert token + [text[0]] + text[1..] == token + text;
    }
  }

  lemma ScanInner(p: Inner, rest: string, token: string)
    requires IsInner(p)
    ensures Scan(InnerText(p) + rest, token, InDouble, true) == Scan(rest, token + InnerValue(p), InDouble, true)
  {
    var s := InnerText(p) + rest;
    assert s[|InnerText(p)|..] == rest;
    match p {
      case Kept(c) => assert token + "\\" + [c] == token + InnerValue(p);
      case Folded => assert token + InnerValue(p) == token;
      case _ =>
    }
  }

  lemma {:induction false} ScanDouble(inner: seq<Inner>, rest: string, token: string)
    requires forall i :: 0 <= i < |inner| ==> IsInner(inner[i])
    ensures Scan(InnersText(inner) + "\"" + rest, token, InDouble, true)
         == Scan(rest, token + InnersValue(inner), Unquoted, true)
  {
    var s := InnersText(inner) + "\"" + rest;
    if inner == [] {
      assert s[1..] == rest && token + InnersValue(inner) == token;
    } else {
      var p, tail := inner[0], InnersText(inner[1..]) + "\"" + rest;
      assert s == InnerText(p) + tail;
      ScanInner(p, tail, token);
      ScanDouble(inner[1..], rest, token + InnerValue(p));
      Associates(token, InnerValue(p), InnersValue(inner[1..]));
    }
  }

  /** What scanning the text of an item should lead to. */
  function AfterItem(item: Item, rest: string, token: string, started: bool): Tokens {
    match item
    case Space(_) => Prepend(Finished(token, started), Scan(rest, "", Unquoted, false))
    case Joined => Scan(rest, token, Unquoted, started)
    case _ => Scan(rest, token + ItemValue(item), Unquoted, true)
  }

  lemma ScanBare(item: Item, rest: string, token: string, started: bool)
    requires IsItem(item) && (item.Space? || item.Literal?)
    ensures Scan([item.c] + rest, token, Unquoted, started) == AfterItem(item, rest, token, started)
  {
    assert ([item.c] + rest)[1..] == rest;
  }

  lemma ScanEscape(item: Item, rest: string, token: string, started: bool)
    requires IsItem(item) && (item.Escape? || item.Joined?)
    ensures Scan(ItemText(item) + rest, token, Unquoted, started) == AfterItem(item, rest, token, started)
  {
    assert (ItemText(item) + rest)[2..] == rest;
  }

  lemma OpensSingle(tail: string, token: string, started: bool)
    ensures Scan("'" + tail, token, Unquoted, started) == Scan(tail, token, InSingle, true)
  {
    assert ("'" + tail)[1..] == tail;
  }

  lemma OpensDouble(tail: string, token: string, started: bool)
    ensures Scan("\"" + tail, token, Unquoted, started) == Scan(tail, token, InDouble, true)
  {
    assert ("\"" + tail)[1..] == tail;
  }

  lemma ScanQuoted(item: Item, rest: string, token: string, started: bool)
    requires IsItem(item) && (item.Single? || item.Double?)
    ensures Scan(ItemText(item) + rest, token, Unquoted, started) == AfterItem(item, rest, token, started)
  {
    hide Scan, InnersText, InnersValue;
    if item.Single? {
      var tail := item.text + "'" + rest;
      assert ItemText(item) + rest == "'" + tail;
      OpensSingle(tail, token, started);
      ScanSingle(item.text, rest, token);
    } else {
      var tail := InnersText(item.inner) + "\"" + rest;
      assert ItemText(item) + rest == "\"" + tail;
      OpensDouble(tail, token, started);
      ScanDouble(item.inner, rest, token);
    }
  }

  /** Scanning the text of one item has the effect of the item. */
  lemma ScanItem(item: Item, rest: string, token: string, started: bool)
    requires IsItem(item)
    ensures Scan(ItemText(item) + rest, token, Unquoted, started) == AfterItem(item, rest, token, started)
  {
    if item.Space? || item.Literal? {
      ScanBare(item, rest, token, started);
    } else if item.Escape? || item.Joined? {
      ScanEscape(item, rest, token, started);
    } else {
      ScanQuoted(item, rest, token, started);
    }
  }

  /** Tokenizing the text of any sequence of items yields the words they denote. */
  lemma {:induction false} ScanMeansWords(items: seq<Item>, token: string, started: bool)
    requires AreItems(items)
    ensures Scan(Text(items), token, Unquoted, started) == Ok(Words(items, token, started))
  {
    hide ItemText, ItemValue;
    if items != [] {
      ScanItem(items[0], Text(items[1..]), token, started);
      match items[0] {
        case Space(_) => ScanMeansWords(items[1..], "", false);
        case Joined => ScanMeansWords(items[1..], token, started);
        case _ => ScanMeansWords(items[1..], token + ItemValue(items[0]), true);
      }
    }
  }

  /** An accepted text inside single quotes closes them. */
  lemma {:induction false} SplitSingle(s: string, token: string) returns (text: string, rest: string)
    requires Scan(s, token, InSingle, true).Ok?
    ensures '\'' !in text && s == text + "'" + rest
    ensures Scan(rest, token + text, Unquoted, true).Ok?
  {
    if s[0] == '\'' {
      text, rest := "", s[1..];
      assert token + text == token;
    } else {
      text, rest := SplitSingle(s[1..], token + [s[0]]);
      assert token + [s[0]] + text == token + ([s[0]] + text);
      text := [s[0]] + text;
    }
  }

  /** The first piece of an accepted text inside double quotes. */
  lemma FirstInner(s: string, token: string) returns (p: Inner, rest: string)
    requires Scan(s, token, InDouble, true).Ok? && s[0] != '"'
    ensures IsInner(p) && s == InnerText(p) + rest
    ensures Scan(rest, token + InnerValue(p), InDouble, true).Ok?
  {
    if s[0] != '\\' {
      p, rest := Plain(s[0]), s[1..];
    } else if s[1] == '\n' {
      p, rest := Folded, s[2..];
      assert token + InnerValue(p) == token;
    } else if EscapesInDouble(s[1]) {
      p, rest := Escaped(s[1]), s[2..];
    } else {
      p, rest := Kept(s[1]), s[2..];
      assert token + "\\" + [s[1]] == token + InnerValue(p);
    }
  }

  lemma InnersCons(p: Inner, tail: seq<Inner>)
    ensures InnersText([p] + tail) == InnerText(p) + InnersText(tail)
    ensures InnersValue([p] + tail) == InnerValue(p) + InnersValue(tail)
  {
    assert ([p] + tail)[1..] == tail;
  }

  lemma InnersJoin(s: string, token: string, p: Inner, after: string, tail: seq<Inner>, rest: string)
    requires s == InnerText(p) + after && after == InnersText(tail) + "\"" + rest
    ensures s == InnersText([p] + tail) + "\"" + rest
    ensures token + InnersValue([p] + tail) == token + InnerValue(p) + InnersValue(tail)
  {
    hide InnersText, InnersValue, InnerText, InnerValue;
    InnersCons(p, tail);
    Associates(InnerText(p), InnersText(tail) + "\"", rest);
    Associates(InnerText(p), InnersText(tail), "\"");
    Associates(token, InnerValue(p), InnersValue(tail));
  }

  /** An accepted text inside double quotes is a sequence of well-formed pieces and closes them. */
  lemma {:induction false} SplitDouble(s: string, token: string) returns (inner: seq<Inner>, rest: string)
    requires Scan(s, token, InDouble, true).Ok?
    ensures forall i :: 0 <= i < |inner| ==> IsInner(inner[i])
    ensures s == InnersText(inner) + "\"" + rest
    ensures Scan(rest, token + InnersValue(inner), Unquoted, true).Ok?
    decreases |s|
  {
    if s[0] == '"' {
      inner, rest := [], s[1..];
      assert token + InnersValue(inner) == token;
    } else {
      hide Scan, InnersText, InnersValue, InnerText, InnerValue;
      var p, after := FirstInner(s, token);
      var tail;
      tail, rest := SplitDouble(after, token + InnerValue(p));
      inner := [p] + tail;
      InnersJoin(s, token, p, after, tail, rest);
    }
  }

  /** The first item of an accepted text. */
  lemma FirstItem(s: string, token: string, started: bool) returns (item: Item, rest: string)
    requires s != "" && Scan(s, token, Unquoted, started).Ok?
    ensures IsItem(item) && s == ItemText(item) + rest
  {
    if s[0] == '\\' {
      item, rest := if s[1] == '\n' then Joined else Escape(s[1]), s[2..];
    } else if s[0] == '\'' {
      var text, after := SplitSingle(s[1..], token);
      item, rest := Single(text), after;
    } else if s[0] == '"' {
      var inner, after := SplitDouble(s[1..], token);
      item, rest := Double(inner), after;
    } else {
      item, rest := if IsSpace(s[0]) then Space(s[0]) else Literal(s[0]), s[1..];
    }
  }

  /** Every accepted text is the text of some items. */
  lemma {:induction false} AcceptedIsItems(s: string, token: string, started: bool) returns (items: seq<Item>)
    requires Scan(s, token, Unquoted, started).Ok?
    ensures AreItems(items) && Text(items) == s
    decreases |s|
  {
    if s == "" {
      items := [];
    } else {
      var item, rest := FirstItem(s, token, started);
      ScanItem(item, rest, token, started);
      var tail;
      match item {
        case Space(_) => tail := AcceptedIsItems(rest, "", false);
        case Joined => tail := AcceptedIsItems(rest, token, started);
        case _ => tail := AcceptedIsItems(rest, token + ItemValue(item), true);
      }
      items := [item] + tail;
    }
  }

  ghost predicate Denotes(items: seq<Item>, text: string, words: seq<string>) {
    AreItems(items) && Text(items) == text && Words(items, "", false) == words
  }

  /** The tokenizer accepts exactly the texts that the quoting rules give a meaning to
      (special characters aside), and returns exactly that meaning. */
  lemma TokensAreMeaning(text: string, words: seq<string>)
    ensures Scan(text, "", Unquoted, false) == Ok(words) <==> exists items :: Denotes(items, text, words)
  {
    if Scan(text, "", Unquoted, false) == Ok(words) {
      var items := AcceptedIsItems(text, "", false);
      ScanMeansWords(items, "", false);
      assert Denotes(items, text, words);
    }
    if items :| Denotes(items, text, words) {
      ScanMeansWords(items, "", false);
    }
  }

  // ---------------------------------------------------------------- lists of words

  /** The segments of one word: no space among them, and something that makes it a word,
      if only a pair of quotes. */
  predicate IsWord(word: seq<Item>) {
    && (forall i :: 0 <= i < |word| ==> IsItem(word[i]) && !word[i].Space?)
    && Starts(word)
  }

  predicate AreWords(words: seq<seq<Item>>) {
    forall i :: 0 <= i < |words| ==> IsWord(words[i])
  }

  predicate Starts(word: seq<Item>) {
    exists i :: 0 <= i < |word| && !word[i].Joined?
  }

  function WordValue(word: seq<Item>): string {
    if word == [] then "" else ItemValue(word[0]) + WordValue(word[1..])
  }

  function SpaceJoined(words: seq<seq<Item>>): seq<Item> {
    if words == [] then []
    else if |words| == 1 then words[0]
    else words[0] + [Space(' ')] + SpaceJoined(words[1..])
  }

  function WordValues(words: seq<seq<Item>>): seq<string> {
    if words == [] then [] else [WordValue(words[0])] + WordValues(words[1..])
  }

  lemma StartsCons(word: seq<Item>)
    requires word != []
    ensures Starts(word) <==> !word[0].Joined? || Starts(word[1..])
  {
    assert forall i :: 0 < i < |word| ==> word[i] == word[1..][i - 1];
  }

  lemma {:induction false} WordsOfWord(word: seq<Item>, rest: seq<Item>, token: string, started: bool)
    requires forall i :: 0 <= i < |word| ==> IsItem(word[i]) && !word[i].Space?
    ensures Words(word + rest, token, started) == Words(rest, token + WordValue(word), started || Starts(word))
  {
    if word == [] {
      assert word + rest == rest && token + WordValue(word) == token;
    } else {
      assert (word + rest)[1..] == word[1..] + rest;
      StartsCons(word);
      var token' := token + ItemValue(word[0]);
      Associates(token, ItemValue(word[0]), WordValue(word[1..]));
      if word[0].Joined? {
        assert token' == token;
        WordsOfWord(word[1..], rest, token, started);
      } else {
        WordsOfWord(word[1..], rest, token', true);
      }
    }
  }

  /** Words written one after the other, each any mix of bare, escaped and quoted
      segments, tokenize to the concatenations of their segments. */
  lemma {:induction false} TokenizeWords(words: seq<seq<Item>>)
    requires AreWords(words)
    ensures AreItems(SpaceJoined(words))
    ensures Words(SpaceJoined(words), "", false) == WordValues(words)
    ensures Scan(Text(SpaceJoined(words)), "", Unquoted, false) == Ok(WordValues(words))
  {
    if words != [] {
      TokenizeWords(words[1..]);
      var rest := if |words| == 1 then [] else [Space(' ')] + SpaceJoined(words[1..]);
      assert SpaceJoined(words) == words[0] + rest;
      WordsOfWord(words[0], rest, "", false);
      assert |words| > 1 ==> rest[1..] == SpaceJoined(words[1..]);
      assert "" + WordValue(words[0]) == WordValue(words[0]);
    }
    ScanMeansWords(SpaceJoined(words), "", false);
  }

  // ---------------------------------------------------------------- which characters are which

  /** The white space of ECMAScript regular expressions. */
  ghost predicate SeparatesWords(c: char) {
    || c in {'\t', '\n', '\U{0B}', '\U{0C}', '\r', ' ', '\U{A0}', '\U{1680}', '\U{2028}', '\U{2029}'}
    || '\U{2000}' <= c <= '\U{200A}' || c in {'\U{202F}', '\U{205F}', '\U{3000}', '\U{FEFF}'}
  }

  ghost predicate IsRefused(c: char) {
    c == ';' || c == '|' || c == '&' || c == '<' || c == '>' || c == '`'
  }

  /** What a character outside quotes does, unless it begins a quoted piece or an escape:
      white space ends a word, a shell operator is refused, and any other joins the word. */
  lemma UnquotedCharacter(c: char, rest: string, token: string, started: bool)
    requires c != '\\' && c != '"' && c != '\''
    ensures Scan([c] + rest, token, Unquoted, started) ==
            if SeparatesWords(c) then Prepend(Finished(token, started), Scan(rest, "", Unquoted, false))
            else if IsRefused(c) then Err(SpecialCharacter)
            else Scan(rest, token + [c], Unquoted, true)
  {
    assert ([c] + rest)[1..] == rest;
  }

  /** Inside double quotes a backslash is dropped before exactly these characters, disappears
      with a newline, and stays before any other. */
  lemma BackslashInDouble(c: char, rest: string, token: string)
    ensures Scan("\\" + [c] + rest, token, InDouble, true) ==
            if c == '\n' then Scan(rest, token, InDouble, true)
            else Scan(rest, token + (if c == '"' || c == '\\' || c == '$' || c == '`' then [c] else ['\\', c]), InDouble, true)
  {
    var s := "\\" + [c] + rest;
    assert s[2..] == rest;
    assert token + "\\" + [c] == token + ['\\', c];
  }
}
