/** The options of an imported curl command, in any order and spelling, and what the
    command then means (web/src/utils/curl.ts). The printer here writes every option that
    the importer reads; the meaning is stated without reference to the order in which the
    importer looks at them. */
module CurlOptions {
  import opened Common
  import opened CurlTokens
  import opened CurlImport
  import opened CurlRoundTrip

  datatype Opt =
    | Bare(url: string)                       // the URL on its own
    | Switch(name: string)
    | Given(name: string, value: string)      // the value in the word after
    | Attached(name: string, value: string)   // --name=value, or -nvalue

  const IGNORED: set<string> := {"-L", "--location", "--compressed", "-s", "--silent", "-S", "--show-error", "-sS"}
  const HEADS: set<string> := {"-I", "--head"}
  const GETS: set<string> := {"-G", "--get"}
  const SHORT: set<string> := {"-X", "-H", "-A", "-b", "-u", "-d"}
  const LONG: set<string> := {"--request", "--header", "--user-agent", "--cookie", "--user", "--url", "--data",
                              "--data-binary", "--data-raw", "--json", "--data-urlencode"}

  function Print(o: Opt): seq<string> {
    match o
    case Bare(url) => [url]
    case Switch(name) => [name]
    case Given(name, value) => [name, value]
    case Attached(name, value) => if "--" <= name then [name + ['='] + value] else [name + value]
  }

  function PrintAll(os: seq<Opt>): seq<string> {
    if os == [] then [] else Print(os[0]) + PrintAll(os[1..])
  }

  predicate IsOption(o: Opt) {
    match o
    case Bare(url) => url == "" || url[0] != '-'
    case Switch(name) => name in IGNORED || name in HEADS || name in GETS
    case Given(name, _) => name in SHORT || name in LONG
    case Attached(name, value) => name in LONG || (name in SHORT && value != "" && !IsLineTerminator(value[0]))
  }

  // ---------------------------------------------------------------- what one option does

  function WithHeaderLine(st: Options, line: string): Step {
    if ':' !in line || line[0] == ':' then Err(BadHeader)
    else
      var colon := IndexOf(line, ':');
      Ok(st.(headers := st.headers + [MakeHeader(Trim(line[..colon]), Trim(line[colon + 1..]))]))
  }

  function WithField(st: Options, name: string, value: string): Step {
    Ok(st.(headers := st.headers + [MakeHeader(name, value)]))
  }

  /** Form encoding: the part after the first '=' if there is one, the whole value otherwise. */
  function Encoded(p: Platform, value: string): string {
    if '=' in value then value[..IndexOf(value, '=') + 1] + p.encode(value[IndexOf(value, '=') + 1..]) else p.encode(value)
  }

  function WithBody(st: Options, body: string): Step {
    Ok(st.(data := st.data + [body]))
  }

  function Set(p: Platform, st: Options, name: string, value: string): Step {
    if name in {"-X", "--request"} then Ok(st.(httpMethod := p.upper(value)))
    else if name in {"-H", "--header"} then WithHeaderLine(st, value)
    else if name in {"-A", "--user-agent"} then WithField(st, "User-Agent", value)
    else if name in {"-b", "--cookie"} then if '=' in value then WithField(st, "Cookie", value) else Err(CookieFile)
    else if name in {"-u", "--user"} then
      if ':' in value then WithField(st, "Authorization", "Basic " + p.basic(value)) else Err(BadCredentials)
    else if name == "--url" then if st.url == "" then Ok(st.(url := value)) else Err(SecondUrl)
    else if name == "--data-raw" then WithBody(st, value)
    else if value != "" && value[0] == '@' then Err(FileBody)
    else if name == "--json" then WithBody(st.(json := true), value)
    else if name == "--data-urlencode" then
      if '@' in value && '=' !in value then Err(FileBody) else WithBody(st, Encoded(p, value))
    else WithBody(st, value)
  }

  function Apply(p: Platform, st: Options, o: Opt): Step {
    match o
    case Bare(url) => if st.url == "" then Ok(st.(url := url)) else Err(SecondUrl)
    case Switch(name) => Ok(if name in HEADS then st.(head := true) else if name in GETS then st.(get := true) else st)
    case Given(name, value) => Set(p, st, name, value)
    case Attached(name, value) => Set(p, st, name, value)
  }

  function ApplyAll(p: Platform, st: Options, os: seq<Opt>): Step
    decreases |os|
  {
    if os == [] then Ok(st)
    else
      match Apply(p, st, os[0])
      case Ok(next) => ApplyAll(p, next, os[1..])
      case Err(e) => Err(e)
  }

  // ---------------------------------------------------------------- the importer reads it so

  lemma ShortNames(name: string)
    requires name in SHORT
    ensures |name| == 2 && name[0] == '-' && name[1] != '-' && name[1] in "XHduAb"
    ensures SplitOption(name) == (name, None) && Classify(name) == Valued
  {
  }

  lemma LongNames(name: string)
    requires name in LONG
    ensures "--" <= name && '=' !in name && name[1] == '-' && |name| > 2
    ensures SplitOption(name) == (name, None)
  {
  }

  lemma LongNamesValued(name: string)
    requires name in LONG
    ensures Classify(name) == Valued
  {
  }

  lemma SwitchShape(name: string)
    requires name in IGNORED || name in HEADS || name in GETS
    ensures '=' !in name && (|name| < 3 || name[1] == '-' || name[1] == 's')
  {
  }

  lemma SwitchClass(name: string)
    requires name in IGNORED || name in HEADS || name in GETS
    ensures Classify(name) == if name in HEADS then Head else if name in GETS then Get else Ignored
  {
  }

  lemma SwitchNames(name: string)
    requires name in IGNORED || name in HEADS || name in GETS
    ensures SplitOption(name) == (name, None)
    ensures Classify(name) == if name in HEADS then Head else if name in GETS then Get else Ignored
  {
    SwitchShape(name);
    SwitchClass(name);
    hide Classify;
  }

  lemma SetMethod(p: Platform, st: Options, name: string, value: string)
    requires name in {"-X", "--request", "-H", "--header", "-A", "--user-agent"}
    ensures WithOption(p, st, name, value) == Set(p, st, name, value)
  {
  }

  lemma SetCredentials(p: Platform, st: Options, name: string, value: string)
    requires name in {"-b", "--cookie", "-u", "--user", "--url"}
    ensures WithOption(p, st, name, value) == Set(p, st, name, value)
  {
  }

  lemma SetData(p: Platform, st: Options, name: string, value: string)
    requires name in {"-d", "--data", "--data-binary", "--data-raw", "--json", "--data-urlencode"}
    ensures WithOption(p, st, name, value) == Set(p, st, name, value)
  {
    assert "@" <= value <==> value != "" && value[0] == '@';
  }

  lemma SetIsRead(p: Platform, st: Options, name: string, value: string)
    requires name in SHORT || name in LONG
    ensures WithOption(p, st, name, value) == Set(p, st, name, value)
  {
    hide WithOption, Set;
    if name in {"-X", "--request", "-H", "--header", "-A", "--user-agent"} {
      SetMethod(p, st, name, value);
    } else if name in {"-b", "--cookie", "-u", "--user", "--url"} {
      SetCredentials(p, st, name, value);
    } else {
      SetData(p, st, name, value);
    }
  }

  lemma AttachedIsSplit(name: string, value: string)
    requires IsOption(Attached(name, value))
    ensures SplitOption(Print(Attached(name, value))[0]) == (name, Some(value)) && Classify(name) == Valued
  {
    hide Classify;
    if name in LONG {
      LongNames(name);
      LongNamesValued(name);
      var word := name + ['='] + value;
      IndexOfFirst(name, '=', value);
      assert word[..|name|] == name && word[|name| + 1..] == value;
    } else {
      ShortNames(name);
      var word := name + value;
      assert word[..2] == name && word[2..] == value && word[2] == value[0];
    }
  }

  lemma AttachedStep(p: Platform, word: string, name: string, value: string, rest: seq<string>, st: Options)
    requires SplitOption(word) == (name, Some(value)) && Classify(name) == Valued
    ensures ParseArgs(p, [word] + rest, st) == Continue(p, rest, WithOption(p, st, name, value))
  {
    hide SplitOption, Classify, WithOption;
    assert ([word] + rest)[1..] == rest;
  }

  lemma SwitchStep(p: Platform, name: string, rest: seq<string>, st: Options)
    requires SplitOption(name) == (name, None) && Classify(name) in {Head, Get, Ignored}
    ensures ParseArgs(p, [name] + rest, st) ==
            ParseArgs(p, rest, if Classify(name) == Head then st.(head := true)
                               else if Classify(name) == Get then st.(get := true) else st)
  {
    hide SplitOption, Classify, WithOption;
    assert ([name] + rest)[1..] == rest;
  }

  lemma BareStep(p: Platform, url: string, rest: seq<string>, st: Options)
    requires url == "" || url[0] != '-'
    ensures ParseArgs(p, [url] + rest, st) == Continue(p, rest, WithUrl(st, url))
  {
    assert ([url] + rest)[1..] == rest;
    assert SplitOption(url) == (url, None);
    NoOption(url);
  }

  lemma NoOption(url: string)
    requires url == "" || url[0] != '-'
    ensures Classify(url) == Positional
  {
  }

  /** Reading the words of one option does what the option means. */
  lemma OptionIsRead(p: Platform, o: Opt, rest: seq<string>, st: Options)
    requires IsOption(o)
    ensures ParseArgs(p, Print(o) + rest, st) == Continue(p, rest, Apply(p, st, o))
  {
    hide ParseArgs, SplitOption, Classify, WithOption, Set;
    match o {
      case Bare(url) => BareStep(p, url, rest, st);
      case Switch(name) =>
        SwitchNames(name);
        SwitchStep(p, name, rest, st);
      case Given(name, value) =>
        if name in SHORT { ShortNames(name); } else { LongNames(name); LongNamesValued(name); }
        ValuedStep(p, name, value, rest, st);
        SetIsRead(p, st, name, value);
      case Attached(name, value) =>
        AttachedIsSplit(name, value);
        AttachedStep(p, Print(o)[0], name, value, rest, st);
        SetIsRead(p, st, name, value);
    }
  }

  lemma {:induction false} OptionsAreRead(p: Platform, os: seq<Opt>, st: Options)
    requires forall o :: o in os ==> IsOption(o)
    ensures ParseArgs(p, PrintAll(os), st) == ApplyAll(p, st, os)
    decreases |os|
  {
    hide ParseArgs, Apply, Print;
    if os == [] {
      NoMoreArgs(p, st);
    } else {
      OptionIsRead(p, os[0], PrintAll(os[1..]), st);
      var step := Apply(p, st, os[0]);
      if step.Ok? {
        OptionsAreRead(p, os[1..], step.value);
      }
    }
  }

  // ---------------------------------------------------------------- what all the options add up to

  predicate HasValue(o: Opt) {
    o.Given? || o.Attached?
  }

  /** The value can be read: a header has a name, a cookie is one, credentials have both
      parts, and data is no file. */
  predicate IsGood(o: Opt) {
    match o
    case Bare(url) => url != ""
    case Switch(_) => true
    case _ =>
      && (o.name in {"-H", "--header"} ==> ':' in o.value && o.value[0] != ':')
      && (o.name in {"-b", "--cookie"} ==> '=' in o.value)
      && (o.name in {"-u", "--user"} ==> ':' in o.value)
      && (o.name == "--url" ==> o.value != "")
      && (o.name in {"-d", "--data", "--data-binary", "--json", "--data-urlencode"} ==> o.value == "" || o.value[0] != '@')
      && (o.name == "--data-urlencode" ==> '@' in o.value ==> '=' in o.value)
  }

  predicate IsData(o: Opt) {
    HasValue(o) && o.name in {"-d", "--data", "--data-binary", "--data-raw", "--json", "--data-urlencode"}
  }

  function UrlOf(o: Opt): seq<string> {
    if o.Bare? then [o.url] else if HasValue(o) && o.name == "--url" then [o.value] else []
  }

  function MethodOf(p: Platform, o: Opt): seq<string> {
    if HasValue(o) && o.name in {"-X", "--request"} then [p.upper(o.value)] else []
  }

  function DataOf(p: Platform, o: Opt): seq<string> {
    if !IsData(o) then [] else if o.name == "--data-urlencode" then [Encoded(p, o.value)] else [o.value]
  }

  /** The header an option stands for: the one it spells out, or the named one it fills. */
  function HeaderOf(p: Platform, o: Opt): seq<HeaderValue> {
    if !HasValue(o) then []
    else if o.name in {"-H", "--header"} then
      [MakeHeader(Trim(o.value[..IndexOf(o.value, ':')]), if ':' in o.value then Trim(o.value[IndexOf(o.value, ':') + 1..]) else "")]
    else if o.name in {"-A", "--user-agent"} then [MakeHeader("User-Agent", o.value)]
    else if o.name in {"-b", "--cookie"} then [MakeHeader("Cookie", o.value)]
    else if o.name in {"-u", "--user"} then [MakeHeader("Authorization", "Basic " + p.basic(o.value))]
    else []
  }

  predicate AsksHead(o: Opt) {
    o.Switch? && (o.name == "-I" || o.name == "--head")
  }

  predicate AsksGet(o: Opt) {
    o.Switch? && (o.name == "-G" || o.name == "--get")
  }

  predicate AsksJson(o: Opt) {
    HasValue(o) && o.name == "--json"
  }

  function Urls(os: seq<Opt>): seq<string> {
    if os == [] then [] else UrlOf(os[0]) + Urls(os[1..])
  }

  function Methods(p: Platform, os: seq<Opt>): seq<string> {
    if os == [] then [] else MethodOf(p, os[0]) + Methods(p, os[1..])
  }

  function Datas(p: Platform, os: seq<Opt>): seq<string> {
    if os == [] then [] else DataOf(p, os[0]) + Datas(p, os[1..])
  }

  function Headers(p: Platform, os: seq<Opt>): seq<HeaderValue> {
    if os == [] then [] else HeaderOf(p, os[0]) + Headers(p, os[1..])
  }

  function Last(words: seq<string>, otherwise: string): string {
    if words == [] then otherwise else words[|words| - 1]
  }

  function First(words: seq<string>, otherwise: string): string {
    if words == [] then otherwise else words[0]
  }

  predicate Any(os: seq<Opt>, asks: Opt -> bool) {
    exists i :: 0 <= i < |os| && asks(os[i])
  }

  /** The options read so far, with those of `o` added. */
  function Plus(p: Platform, st: Options, o: Opt): Options {
    Options(First(UrlOf(o), st.url), Last(MethodOf(p, o), st.httpMethod), st.head || AsksHead(o), st.get || AsksGet(o),
            st.json || AsksJson(o), st.headers + HeaderOf(p, o), st.data + DataOf(p, o))
  }

  function PlusAll(p: Platform, st: Options, os: seq<Opt>): Options {
    Options(First(Urls(os), st.url), Last(Methods(p, os), st.httpMethod), st.head || Any(os, AsksHead),
            st.get || Any(os, AsksGet), st.json || Any(os, AsksJson), st.headers + Headers(p, os), st.data + Datas(p, os))
  }

  lemma SwitchAdds(p: Platform, st: Options, o: Opt)
    requires IsOption(o) && IsGood(o) && !HasValue(o) && (st.url != "" ==> UrlOf(o) == [])
    ensures Apply(p, st, o) == Ok(Plus(p, st, o))
  {
    assert st.headers + [] == st.headers && st.data + [] == st.data;
  }

  lemma FieldAdds(p: Platform, st: Options, o: Opt)
    requires IsGood(o) && HasValue(o) && o.name in {"-A", "--user-agent", "-b", "--cookie", "-u", "--user"}
    ensures Set(p, st, o.name, o.value) == Ok(Plus(p, st, o))
  {
    hide MakeHeader;
    assert st.data + [] == st.data;
  }

  lemma TargetParts(p: Platform, o: Opt)
    requires HasValue(o) && o.name in {"-X", "--request", "--url"}
    ensures HeaderOf(p, o) == [] && DataOf(p, o) == [] && !AsksHead(o) && !AsksGet(o) && !AsksJson(o)
    ensures o.name == "--url" ==> UrlOf(o) == [o.value] && MethodOf(p, o) == []
    ensures o.name != "--url" ==> UrlOf(o) == [] && MethodOf(p, o) == [p.upper(o.value)]
  {
  }

  lemma TargetSets(p: Platform, st: Options, name: string, value: string)
    ensures name in {"-X", "--request"} ==> Set(p, st, name, value) == Ok(st.(httpMethod := p.upper(value)))
    ensures name == "--url" ==> Set(p, st, name, value) == if st.url == "" then Ok(st.(url := value)) else Err(SecondUrl)
  {
  }

  lemma TargetAdds(p: Platform, st: Options, o: Opt)
    requires HasValue(o) && (st.url != "" ==> UrlOf(o) == [])
    requires o.name in {"-X", "--request", "--url"}
    ensures Set(p, st, o.name, o.value) == Ok(Plus(p, st, o))
  {
    TargetParts(p, o);
    TargetSets(p, st, o.name, o.value);
    hide Set, HeaderOf, DataOf, MethodOf, UrlOf, AsksHead, AsksGet, AsksJson;
    assert st.headers + [] == st.headers && st.data + [] == st.data;
  }

  lemma LineAdds(p: Platform, st: Options, o: Opt)
    requires IsGood(o) && HasValue(o) && o.name in {"-H", "--header"}
    ensures Set(p, st, o.name, o.value) == Ok(Plus(p, st, o))
  {
    hide Trim, MakeHeader;
    assert st.data + [] == st.data;
  }

  lemma PlainDataAdds(p: Platform, st: Options, o: Opt)
    requires IsGood(o) && HasValue(o) && o.name in {"-d", "--data", "--data-binary", "--data-raw"}
    ensures Set(p, st, o.name, o.value) == Ok(Plus(p, st, o))
  {
    assert st.headers + [] == st.headers;
  }

  lemma OtherDataAdds(p: Platform, st: Options, o: Opt)
    requires IsGood(o) && HasValue(o) && o.name in {"--json", "--data-urlencode"}
    ensures Set(p, st, o.name, o.value) == Ok(Plus(p, st, o))
  {
    hide Encoded;
    assert st.headers + [] == st.headers;
  }

  lemma OptionAdds(p: Platform, st: Options, o: Opt)
    requires IsOption(o) && IsGood(o) && (st.url != "" ==> UrlOf(o) == [])
    ensures Apply(p, st, o) == Ok(Plus(p, st, o))
  {
    hide Set, Plus, IsGood;
    if !HasValue(o) {
      SwitchAdds(p, st, o);
    } else if o.name in {"-H", "--header"} {
      LineAdds(p, st, o);
    } else if o.name in {"-d", "--data", "--data-binary", "--data-raw"} {
      PlainDataAdds(p, st, o);
    } else if o.name in {"--json", "--data-urlencode"} {
      OtherDataAdds(p, st, o);
    } else if o.name in {"-X", "--request", "--url"} {
      TargetAdds(p, st, o);
    } else {
      FieldAdds(p, st, o);
    }
  }

  lemma PlusNothing(p: Platform, st: Options)
    ensures PlusAll(p, st, []) == st
  {
    assert st.headers + [] == st.headers && st.data + [] == st.data;
  }

  lemma AnyCons(os: seq<Opt>, asks: Opt -> bool)
    requires os != []
    ensures Any(os, asks) <==> asks(os[0]) || Any(os[1..], asks)
  {
    assert forall i :: 0 < i < |os| ==> os[i] == os[1..][i - 1];
  }

  lemma UrlsCons(os: seq<Opt>, before: string)
    requires os != [] && |Urls(os)| <= 1
    ensures First(Urls(os), before) == First(Urls(os[1..]), First(UrlOf(os[0]), before))
  {
    hide UrlOf;
  }

  lemma MethodsCons(p: Platform, os: seq<Opt>, before: string)
    requires os != []
    ensures Last(Methods(p, os), before) == Last(Methods(p, os[1..]), Last(MethodOf(p, os[0]), before))
  {
    hide MethodOf;
  }

  lemma ListsCons(p: Platform, os: seq<Opt>, headers: seq<HeaderValue>, data: seq<string>)
    requires os != []
    ensures headers + Headers(p, os) == headers + HeaderOf(p, os[0]) + Headers(p, os[1..])
    ensures data + Datas(p, os) == data + DataOf(p, os[0]) + Datas(p, os[1..])
  {
    hide HeaderOf, DataOf;
    Associates(headers, HeaderOf(p, os[0]), Headers(p, os[1..]));
    Associates(data, DataOf(p, os[0]), Datas(p, os[1..]));
  }

  lemma PlusCons(p: Platform, st: Options, os: seq<Opt>)
    requires os != [] && |Urls(os)| <= 1
    ensures PlusAll(p, Plus(p, st, os[0]), os[1..]) == PlusAll(p, st, os)
  {
    hide UrlOf, MethodOf, HeaderOf, DataOf, AsksHead, AsksGet, AsksJson, First, Last;
    AnyCons(os, AsksHead);
    AnyCons(os, AsksGet);
    AnyCons(os, AsksJson);
    UrlsCons(os, st.url);
    MethodsCons(p, os, st.httpMethod);
    ListsCons(p, os, st.headers, st.data);
    hide Any, Urls, Methods, Headers, Datas;
  }

  /** Reading good options with at most one URL among them adds them all up. */
  lemma {:induction false} OptionsAdd(p: Platform, st: Options, os: seq<Opt>)
    requires forall o :: o in os ==> IsOption(o) && IsGood(o)
    requires |Urls(os)| <= 1 && (st.url != "" ==> Urls(os) == [])
    ensures ApplyAll(p, st, os) == Ok(PlusAll(p, st, os))
    decreases |os|
  {
    if os == [] {
      PlusNothing(p, st);
    } else {
      assert os[0] in os;
      UrlIsNonempty(os[0]);
      OptionAdds(p, st, os[0]);
      PlusCons(p, st, os);
      assert Plus(p, st, os[0]).url == First(UrlOf(os[0]), st.url);
      hide Apply, IsOption, IsGood, PlusAll, Plus, UrlOf;
      OptionsAdd(p, Plus(p, st, os[0]), os[1..]);
    }
  }

  lemma UrlIsNonempty(o: Opt)
    requires IsGood(o)
    ensures |UrlOf(o)| <= 1 && (UrlOf(o) != [] ==> UrlOf(o)[0] != "")
  {
  }

  // ---------------------------------------------------------------- what the command means

  /** Header names are compared without regard to the case of ASCII letters. */
  ghost predicate SameName(name: string, lowerName: string) {
    |name| == |lowerName| &&
    forall i :: 0 <= i < |name| ==> SameLetter(name[i], lowerName[i])
  }

  ghost predicate SameLetter(c: char, lower: char) {
    if 'A' <= c <= 'Z' then c as int + 32 == lower as int else c == lower
  }

  ghost predicate Names(headers: seq<HeaderValue>, lowerName: string) {
    exists i :: 0 <= i < |headers| && SameName(headers[i].name, lowerName)
  }

  lemma LowerMeans(name: string, lowerName: string)
    ensures Lower(name) == lowerName <==> SameName(name, lowerName)
  {
    if Lower(name) == lowerName {
      forall i | 0 <= i < |name| ensures SameLetter(name[i], lowerName[i]) {
        assert Lower(name)[i] == LowerChar(name[i]);
      }
    }
  }

  lemma HasHeaderMeans(headers: seq<HeaderValue>, lowerName: string)
    ensures HasHeader(headers, lowerName) <==> Names(headers, lowerName)
  {
    forall i | 0 <= i < |headers| ensures Lower(headers[i].name) == lowerName <==> SameName(headers[i].name, lowerName) {
      LowerMeans(headers[i].name, lowerName);
    }
  }

  /** A header is kept secret exactly when its name contains one of these words, in any case. */
  lemma SensitiveMeans(name: string)
    ensures IsSensitive(name) <==>
            exists word, pre, post :: && word in {"authorization", "cookie", "token", "api-key", "api_key"}
                                      && Lower(name) == pre + word + post
  {
    var n := Lower(name);
    forall word ensures Contains(n, word) <==> exists pre, post :: n == pre + word + post {
      ContainsMeans(n, word);
    }
  }

  /** Parts joined by a separator: it stands between any two of them. */
  lemma {:induction false} JoinMeans(parts: seq<string>, last: string, separator: string)
    ensures Join(parts + [last], separator) == if parts == [] then last else Join(parts, separator) + separator + last
  {
    if parts == [] {
      assert [] + [last] == [last];
    } else {
      assert (parts + [last])[1..] == parts[1..] + [last];
      JoinMeans(parts[1..], last, separator);
      if |parts| > 1 {
        var rest := Join(parts[1..], separator);
        assert parts[0] + separator + (rest + separator + last) == parts[0] + separator + rest + separator + last;
      }
    }
  }

  // What has been read of the options, in one place.
  datatype Read = Read(url: string, methods: seq<string>, head: bool, get: bool, json: bool,
                       headers: seq<HeaderValue>, data: seq<string>)

  /** A method that is given counts; otherwise -I asks for HEAD, -G for GET, and data makes a POST of a GET. */
  predicate MethodMeant(r: Read, httpMethod: string) {
    if r.methods != [] then httpMethod == r.methods[|r.methods| - 1]
    else
      && httpMethod in {"GET", "HEAD", "POST"}
      && (httpMethod == "HEAD" <==> r.head)
      && (httpMethod == "POST" <==> r.data != [] && !r.head && !r.get)
  }

  /** The data is joined by ampersands, or by nothing if there is JSON among it; under -G it is no body. */
  predicate BodyMeant(r: Read, bodyEnabled: bool, body: string) {
    && (bodyEnabled <==> body != "")
    && body == if r.get then "" else Join(r.data, if r.json then "" else "&")
  }

  /** The fragment of a URL begins at its first '#'. */
  predicate IsCut(url: string, base: string, fragment: string) {
    url == base + fragment && '#' !in base && (fragment == "" || fragment[0] == '#')
  }

  /** Under -G the data goes to the end of the query, before the fragment. */
  ghost predicate UrlMeant(r: Read, url: string) {
    if r.get && r.data != [] then
      exists base, fragment ::
        && IsCut(r.url, base, fragment)
        && url == base + (if '?' in base then "&" else "?") + Join(r.data, if r.json then "" else "&") + fragment
    else url == r.url
  }

  /** The headers given, then a content type for a body without one, then what --json accepts. */
  ghost predicate HeadersMeant(r: Read, headers: seq<HeaderValue>) {
    var typed := if r.data != [] && !r.get && !Names(r.headers, "content-type")
                 then [MakeHeader("Content-Type", if r.json then "application/json" else "application/x-www-form-urlencoded")]
                 else [];
    var accepting := if r.json && !Names(r.headers, "accept") then [MakeHeader("Accept", "application/json")] else [];
    headers == r.headers + typed + accepting
  }

  ghost predicate Meant(r: Read, i: Import) {
    MethodMeant(r, i.httpMethod) && BodyMeant(r, i.bodyEnabled, i.body) && UrlMeant(r, i.url) && HeadersMeant(r, i.headers)
  }

  function ReadOf(st: Options): Read {
    Read(st.url, if st.httpMethod == "" then [] else [st.httpMethod], st.head, st.get, st.json, st.headers, st.data)
  }

  lemma QueryMeans(url: string, data: string)
    ensures exists base, fragment ::
              && IsCut(url, base, fragment)
              && WithQuery(url, data) == base + (if '?' in base then "&" else "?") + data + fragment
  {
    var hash := IndexOf(url, '#');
    assert IsCut(url, url[..hash], url[hash..]);
  }

  lemma TypedAccepts(headers: seq<HeaderValue>, value: string)
    ensures Names(headers + [MakeHeader("Content-Type", value)], "accept") <==> Names(headers, "accept")
  {
    var more := headers + [MakeHeader("Content-Type", value)];
    if i :| 0 <= i < |more| && SameName(more[i].name, "accept") {
      assert i < |headers| && more[i] == headers[i];
    }
    if i :| 0 <= i < |headers| && SameName(headers[i].name, "accept") {
      assert more[i] == headers[i];
    }
  }

  lemma FinishHeaders(p: Platform, st: Options)
    requires Finish(p, st).Ok?
    ensures HeadersMeant(ReadOf(st), Finish(p, st).value.headers)
  {
    hide MakeHeader, Names, HasHeader, Join, WithQuery;
    HasHeaderMeans(st.headers, "content-type");
    HasHeaderMeans(st.headers, "accept");
    var value := if st.json then "application/json" else "application/x-www-form-urlencoded";
    HasHeaderMeans(st.headers + [MakeHeader("Content-Type", value)], "accept");
    TypedAccepts(st.headers, value);
    assert st.headers + [] == st.headers;
  }

  /** Only URLs that are not http(s) and methods that are not supported are refused after the option loop. */
  lemma FinishAccepts(p: Platform, st: Options)
    ensures Finish(p, st).Ok? <==>
            && (p.protocol(st.url) == Some("http:") || p.protocol(st.url) == Some("https:"))
            && (st.httpMethod == "" || st.httpMethod in {"GET", "HEAD", "POST", "PUT", "PATCH", "DELETE", "OPTIONS"})
    ensures p.protocol(st.url) == None ==> Finish(p, st) == Err(InvalidUrl)
    ensures p.protocol(st.url).Some? && p.protocol(st.url).value != "http:" && p.protocol(st.url).value != "https:" ==>
              Finish(p, st) == Err(NotHttp)
  {
    hide Join, WithQuery, HasHeader, MakeHeader;
  }

  lemma FinishMethod(p: Platform, st: Options)
    requires Finish(p, st).Ok?
    ensures MethodMeant(ReadOf(st), Finish(p, st).value.httpMethod)
  {
    hide Join, WithQuery, HasHeader, MakeHeader;
  }

  lemma FinishBody(p: Platform, st: Options)
    requires Finish(p, st).Ok?
    ensures var i := Finish(p, st).value; BodyMeant(ReadOf(st), i.bodyEnabled, i.body)
  {
    hide Join, WithQuery, HasHeader, MakeHeader;
  }

  lemma FinishUrl(p: Platform, st: Options)
    requires Finish(p, st).Ok?
    ensures Finish(p, st).value.url ==
            if st.get && st.data != [] then WithQuery(st.url, Join(st.data, if st.json then "" else "&")) else st.url
  {
    hide Join, WithQuery, HasHeader, MakeHeader;
  }

  /** Everything after the option loop does what the options mean. */
  lemma FinishMeans(p: Platform, st: Options)
    requires Finish(p, st).Ok?
    ensures Meant(ReadOf(st), Finish(p, st).value)
  {
    hide Finish, MethodMeant, BodyMeant, HeadersMeant, Join, WithQuery;
    FinishMethod(p, st);
    FinishBody(p, st);
    FinishUrl(p, st);
    FinishHeaders(p, st);
    QueryMeans(st.url, Join(st.data, if st.json then "" else "&"));
  }

  lemma PlusIsRead(p: Platform, os: seq<Opt>, url: string)
    requires Urls(os) == [url]
    requires Methods(p, os) == [] || Last(Methods(p, os), "") != ""
    ensures var r := ReadOf(PlusAll(p, NO_OPTIONS, os));
            && r.url == url && r.headers == Headers(p, os) && r.data == Datas(p, os)
            && (r.methods == [] <==> Methods(p, os) == [])
            && (r.methods != [] ==> r.methods == [Last(Methods(p, os), "")])
            && r.head == Any(os, AsksHead) && r.get == Any(os, AsksGet) && r.json == Any(os, AsksJson)
  {
    hide Urls, Methods, Headers, Datas, Any;
    assert [] + Headers(p, os) == Headers(p, os) && [] + Datas(p, os) == Datas(p, os);
  }

  // ---------------------------------------------------------------- line ends

  /** The option as the importer gets to see it: it replaces every CRLF of a command by a newline first. */
  function Normal(o: Opt): Opt {
    match o
    case Bare(url) => Bare(ReplaceCrlf(url))
    case Switch(name) => Switch(name)
    case Given(name, value) => Given(name, ReplaceCrlf(value))
    case Attached(name, value) => Attached(name, ReplaceCrlf(value))
  }

  function NormalAll(os: seq<Opt>): (r: seq<Opt>)
    ensures |r| == |os| && forall i :: 0 <= i < |os| ==> r[i] == Normal(os[i])
  {
    if os == [] then [] else [Normal(os[0])] + NormalAll(os[1..])
  }

  /** Only line ends change. */
  lemma {:induction false} ReplaceKeeps(s: string, c: char)
    requires c != '\r' && c != '\n'
    ensures c in ReplaceCrlf(s) <==> c in s
    ensures s == "" <==> ReplaceCrlf(s) == ""
    ensures s != "" && s[0] != '\r' ==> ReplaceCrlf(s)[0] == s[0]
    ensures s != "" && s[0] == '\r' ==> ReplaceCrlf(s)[0] in {'\r', '\n'}
  {
    if |s| >= 2 && s[0] == '\r' && s[1] == '\n' {
      assert s == [s[0], s[1]] + s[2..];
      ReplaceKeeps(s[2..], c);
    } else if s != "" {
      assert s == [s[0]] + s[1..];
      ReplaceKeeps(s[1..], c);
    }
  }

  lemma NormalIsOption(o: Opt)
    requires IsOption(o)
    ensures IsOption(Normal(o))
  {
    match o {
      case Bare(url) => ReplaceKeeps(url, '-');
      case Attached(_, value) => ReplaceKeeps(value, '-');
      case _ =>
    }
  }

  lemma NormalIsGood(o: Opt)
    ensures IsGood(Normal(o)) <==> IsGood(o)
  {
    match o {
      case Bare(url) => ReplaceKeeps(url, '-');
      case Switch(_) =>
      case _ =>
        ReplaceKeeps(o.value, ':');
        ReplaceKeeps(o.value, '=');
        ReplaceKeeps(o.value, '@');
        hide ReplaceCrlf;
    }
  }

  lemma NamesHaveNoReturn(name: string)
    requires name in IGNORED || name in HEADS || name in GETS || name in SHORT || name in LONG
    ensures !HasReturn(name)
  {
  }

  lemma ReplaceAttached(name: string, value: string)
    requires !HasReturn(name) && name != ""
    ensures ReplaceCrlf(name + ['='] + value) == name + ['='] + ReplaceCrlf(value)
    ensures ReplaceCrlf(name + value) == name + ReplaceCrlf(value)
  {
    ReplaceNone(name + ['=']);
    ReplaceNone(name);
    ReplaceSplit(name + ['='], value);
    ReplaceSplit(name, value);
  }

  lemma PrintsNormal(o: Opt)
    requires IsOption(o)
    ensures ReplaceAll(Print(o)) == Print(Normal(o))
  {
    hide ReplaceCrlf, HasReturn;
    if !o.Bare? {
      NamesHaveNoReturn(o.name);
    }
    match o {
      case Bare(url) => ReplaceOne(url);
      case Switch(name) =>
        ReplaceNone(name);
        ReplaceOne(name);
      case Given(name, value) => ReplacePairOfWords(name, value);
      case Attached(name, value) =>
        ReplaceAttached(name, value);
        ReplaceOne(Print(o)[0]);
    }
  }

  lemma ReplaceOne(word: string)
    ensures ReplaceAll([word]) == [ReplaceCrlf(word)]
  {
    ReplaceWord(word, []);
    assert [word] + [] == [word];
  }

  lemma {:induction false} PrintsAllNormal(os: seq<Opt>)
    requires forall o :: o in os ==> IsOption(o)
    ensures ReplaceAll(PrintAll(os)) == PrintAll(NormalAll(os))
    decreases |os|
  {
    hide Print, Normal, IsOption;
    if os != [] {
      PrintsNormal(os[0]);
      PrintsAllNormal(os[1..]);
      ReplaceAllSplit(Print(os[0]), PrintAll(os[1..]));
      assert NormalAll(os)[1..] == NormalAll(os[1..]);
    }
  }

  lemma NormalsAreOptions(os: seq<Opt>)
    requires forall o :: o in os ==> IsOption(o)
    ensures forall o :: o in NormalAll(os) ==> IsOption(o)
    ensures (forall o :: o in os ==> IsGood(o)) ==> forall o :: o in NormalAll(os) ==> IsGood(o)
  {
    hide IsOption, IsGood, Normal;
    forall i | 0 <= i < |os| ensures IsOption(NormalAll(os)[i]) && (IsGood(NormalAll(os)[i]) <==> IsGood(os[i])) {
      assert os[i] in os;
      NormalIsOption(os[i]);
      NormalIsGood(os[i]);
    }
  }

  /** The printed command line as the importer reads it. */
  lemma CommandIsRead(p: Platform, os: seq<Opt>)
    requires forall o :: o in os ==> IsOption(o)
    ensures var step := ApplyAll(p, NO_OPTIONS, NormalAll(os));
            Parsed(p, CommandText(["curl"] + PrintAll(os))) ==
            if step.Ok? then Finish(p, step.value) else Err(step.error)
  {
    hide ApplyAll, ParseArgs, Finish, ReplaceCrlf, CommandText, HasCrlf, Scan, IsOption;
    var words := ["curl"] + PrintAll(NormalAll(os));
    PlainCurl();
    ReplacePlainWord("curl", PrintAll(os));
    PrintsAllNormal(os);
    PrintingCommutes(["curl"] + PrintAll(os));
    QuotingRoundTrip(words);
    NormalsAreOptions(os);
    OptionsAreRead(p, NormalAll(os), NO_OPTIONS);
    assert words[1..] == PrintAll(NormalAll(os));
  }

  lemma PlainCurl()
    ensures !HasReturn("curl")
  {
  }

  /** Any options that can be read, in any order and spelling, with one http(s) URL among
      them and no method or a supported one: the importer accepts the command, and what it
      makes of it is what the options mean together, line ends normalised. */
  lemma OptionsImport(p: Platform, given: seq<Opt>, url: string)
    requires forall o :: o in given ==> IsOption(o) && IsGood(o)
    requires var os := NormalAll(given);
             && Urls(os) == [url] && (p.protocol(url) == Some("http:") || p.protocol(url) == Some("https:"))
             && (Methods(p, os) == [] || Last(Methods(p, os), "") in {"GET", "HEAD", "POST", "PUT", "PATCH", "DELETE", "OPTIONS"})
    ensures var os, imported := NormalAll(given), Parsed(p, CommandText(["curl"] + PrintAll(given)));
            imported.Ok? &&
            Meant(Read(url, if Methods(p, os) == [] then [] else [Last(Methods(p, os), "")],
                       Any(os, AsksHead), Any(os, AsksGet), Any(os, AsksJson), Headers(p, os), Datas(p, os)),
                  imported.value)
  {
    hide Finish, Meant, ApplyAll, CommandText, PrintAll, IsOption, IsGood, HasCrlf, Any, PlusAll;
    var os := NormalAll(given);
    CommandIsRead(p, given);
    NormalsAreOptions(given);
    OptionsAdd(p, NO_OPTIONS, os);
    PlusIsRead(p, os, url);
    MethodIsKept(p, os);
    FinishAccepts(p, PlusAll(p, NO_OPTIONS, os));
    FinishMeans(p, PlusAll(p, NO_OPTIONS, os));
  }

  lemma MethodIsKept(p: Platform, os: seq<Opt>)
    ensures PlusAll(p, NO_OPTIONS, os).httpMethod == Last(Methods(p, os), "")
  {
  }

  /** An option that cannot be read stops the import there, with its own error. */
  lemma FirstBadOption(p: Platform, good: seq<Opt>, bad: Opt, rest: seq<Opt>)
    requires forall o :: o in good + [bad] + rest ==> IsOption(o)
    requires forall o :: o in good ==> IsGood(o)
    requires |Urls(NormalAll(good))| <= 1 && HasValue(bad) && !IsGood(bad)
    requires bad.name != "--url"
    ensures Parsed(p, CommandText(["curl"] + PrintAll(good + [bad] + rest))) ==
            Err(if bad.name in {"-H", "--header"} then BadHeader
                else if bad.name in {"-b", "--cookie"} then CookieFile
                else if bad.name in {"-u", "--user"} then BadCredentials
                else FileBody)
  {
    hide Apply, ApplyAll, Finish, CommandText, PrintAll, IsOption, IsGood, HasCrlf, Urls, PlusAll, Parsed, Plus;
    var all := good + [bad] + rest;
    AllOptions(good, bad, rest);
    CommandIsRead(p, all);
    NormalsAreOptions(good);
    NormalIsOption(bad);
    NormalIsGood(bad);
    NormalKeeps(bad);
    NormalSplit(good, bad, rest);
    hide NormalAll, Normal;
    OptionsAdd(p, NO_OPTIONS, NormalAll(good));
    BadOption(p, PlusAll(p, NO_OPTIONS, NormalAll(good)), Normal(bad));
    BadStops(p, NO_OPTIONS, NormalAll(good), Normal(bad), NormalAll(rest));
  }

  lemma AllOptions(good: seq<Opt>, bad: Opt, rest: seq<Opt>)
    requires forall o :: o in good + [bad] + rest ==> IsOption(o)
    ensures IsOption(bad) && forall o :: o in good ==> IsOption(o)
  {
    hide IsOption;
    var all := good + [bad] + rest;
    assert bad in all && forall o :: o in good ==> o in all;
  }

  lemma NormalKeeps(o: Opt)
    requires HasValue(o)
    ensures HasValue(Normal(o)) && Normal(o).name == o.name
  {
  }

  lemma NormalSplit(good: seq<Opt>, bad: Opt, rest: seq<Opt>)
    ensures NormalAll(good + [bad] + rest) == NormalAll(good) + [Normal(bad)] + NormalAll(rest)
  {
    hide Normal;
  }

  lemma BadOption(p: Platform, st: Options, bad: Opt)
    requires HasValue(bad) && IsOption(bad) && !IsGood(bad) && bad.name != "--url"
    ensures Apply(p, st, bad) ==
            Err(if bad.name in {"-H", "--header"} then BadHeader
                else if bad.name in {"-b", "--cookie"} then CookieFile
                else if bad.name in {"-u", "--user"} then BadCredentials
                else FileBody)
  {
  }

  lemma {:induction false} BadStops(p: Platform, st: Options, good: seq<Opt>, bad: Opt, rest: seq<Opt>)
    requires ApplyAll(p, st, good).Ok?
    requires Apply(p, ApplyAll(p, st, good).value, bad).Err?
    ensures ApplyAll(p, st, good + [bad] + rest) == Err(Apply(p, ApplyAll(p, st, good).value, bad).error)
    decreases |good|
  {
    hide Apply;
    var all := good + [bad] + rest;
    if good == [] {
      assert all[0] == bad;
    } else {
      assert all[0] == good[0] && all[1..] == good[1..] + [bad] + rest;
      BadStops(p, Apply(p, st, good[0]).value, good[1..], bad, rest);
    }
  }

  // ---------------------------------------------------------------- what is refused

  /** Other commands. */
  lemma OnlyCurl(p: Platform, tokens: seq<string>)
    ensures tokens == [] || tokens[0] != "curl" ==> ParseTokens(p, tokens) == Err(NotCurl)
  {
    hide ParseArgs, Finish;
  }

  /** Any other word that begins with a dash is an option that the importer does not know. */
  lemma UnknownOption(p: Platform, word: string, rest: seq<string>, st: Options)
    requires "-" <= word && SplitOption(word) == (word, None)
    requires word !in IGNORED && word !in HEADS && word !in GETS && word !in SHORT && word !in LONG
    ensures ParseArgs(p, [word] + rest, st) == Err(UnsupportedOption)
  {
    hide SplitOption, WithOption;
    UnknownClass(word);
    hide Classify;
    assert ([word] + rest)[0] == word;
  }

  lemma UnknownClass(word: string)
    requires "-" <= word
    requires word !in IGNORED && word !in HEADS && word !in GETS && word !in SHORT && word !in LONG
    ensures Classify(word) == Unsupported
  {
  }

  /** A second URL, and an option without its value. */
  lemma SecondUrlRefused(p: Platform, url: string, rest: seq<string>, st: Options)
    requires st.url != "" && (url == "" || url[0] != '-')
    ensures ParseArgs(p, [url] + rest, st) == Err(SecondUrl)
  {
    hide ParseArgs;
    BareStep(p, url, rest, st);
  }

  lemma ValueMissing(p: Platform, name: string, st: Options)
    requires name in SHORT || name in LONG
    ensures ParseArgs(p, [name], st) == Err(MissingValue)
  {
    hide SplitOption, Classify, WithOption;
    if name in SHORT { ShortNames(name); } else { LongNames(name); LongNamesValued(name); }
    assert [name][0] == name;
  }
}
