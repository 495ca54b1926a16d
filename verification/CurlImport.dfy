/** The curl importer (web/src/utils/curl.ts): option parsing over the tokens, and a
    printer that it undoes. URL parsing, percent encoding, base64 and Unicode upper
    casing belong to the platform and are parameters. */
module CurlImport {
  import opened Common
  import opened CurlTokens

  datatype Platform = Platform(
    protocol: string -> Option<string>,   // new URL(url).protocol, None when it throws
    encode: string -> string,             // encodeURIComponent
    basic: string -> string,              // the base64 text of UTF-8 credentials
    upper: string -> string)              // toUpperCase

  const METHODS: set<string> := {"GET", "HEAD", "POST", "PUT", "PATCH", "DELETE", "OPTIONS"}

  /** What is known of the platform: a URL that parses is not empty and does not begin
      with a dash, and a method name is its own upper case. */
  ghost predicate Sound(p: Platform) {
    && (forall url :: p.protocol(url).Some? ==> url != "" && url[0] != '-')
    && (forall m :: m in METHODS ==> p.upper(m) == m)
  }

  datatype CurlError =
    | BadQuoting(error: TokenError)
    | NotCurl
    | MissingValue
    | BadHeader
    | FileBody
    | CookieFile
    | BadCredentials
    | UnsupportedOption
    | SecondUrl
    | InvalidUrl
    | NotHttp
    | UnsupportedMethod

  // `sensitive` is stored twice by the importer, as `sensitive` and as `masked`.
  datatype HeaderValue = HeaderValue(name: string, value: string, sensitive: bool)

  datatype Import = Import(url: string, httpMethod: string, headers: seq<HeaderValue>, bodyEnabled: bool, body: string)

  datatype Options = Options(url: string, httpMethod: string, head: bool, get: bool, json: bool,
                             headers: seq<HeaderValue>, data: seq<string>)

  const NO_OPTIONS := Options("", "", false, false, false, [], [])

  // ---------------------------------------------------------------- string helpers

  /** indexOf, with the length of the string standing for "not found". */
  function IndexOf(s: string, c: char): (i: nat)
    ensures i <= |s|
    ensures c in s <==> i < |s|
    ensures i < |s| ==> s[i] == c
    ensures forall k :: 0 <= k < i ==> s[k] != c
  {
    if s == "" then 0 else if s[0] == c then 0 else 1 + IndexOf(s[1..], c)
  }

  function TrimStart(s: string): (r: string)
    ensures |r| <= |s|
  {
    if s != "" && IsSpace(s[0]) then TrimStart(s[1..]) else s
  }

  function TrimEnd(s: string): (r: string)
    ensures |r| <= |s|
  {
    if s != "" && IsSpace(s[|s| - 1]) then TrimEnd(s[..|s| - 1]) else s
  }

  function Trim(s: string): (r: string)
    ensures |r| <= |s|
  {
    TrimEnd(TrimStart(s))
  }

  predicate IsTrimmed(s: string) {
    s == "" || (!IsSpace(s[0]) && !IsSpace(s[|s| - 1]))
  }

  function LowerChar(c: char): char {
    if 'A' <= c <= 'Z' then (c as int + 32) as char else c
  }

  function Lower(s: string): string {
    seq(|s|, i requires 0 <= i < |s| => LowerChar(s[i]))
  }

  /** The pattern /authorization|cookie|token|api[-_]key/i. */
  predicate IsSensitive(name: string) {
    var n := Lower(name);
    || Contains(n, "authorization") || Contains(n, "cookie") || Contains(n, "token")
    || Contains(n, "api-key") || Contains(n, "api_key")
  }

  function MakeHeader(name: string, value: string): HeaderValue {
    HeaderValue(name, value, IsSensitive(name))
  }

  predicate HasHeader(headers: seq<HeaderValue>, lowerName: string) {
    exists i :: 0 <= i < |headers| && Lower(headers[i].name) == lowerName
  }

  function Join(parts: seq<string>, separator: string): string {
    if parts == [] then "" else if |parts| == 1 then parts[0] else parts[0] + separator + Join(parts[1..], separator)
  }

  /** replace(/\r\n/g, '\n'): one pass from the left. */
  function ReplaceCrlf(s: string): (r: string)
    ensures |r| <= |s|
  {
    if |s| >= 2 && s[0] == '\r' && s[1] == '\n' then "\n" + ReplaceCrlf(s[2..])
    else if s == "" then ""
    else [s[0]] + ReplaceCrlf(s[1..])
  }

  predicate HasCrlf(s: string) {
    exists i :: 0 <= i < |s| - 1 && s[i] == '\r' && s[i + 1] == '\n'
  }

  // ---------------------------------------------------------------- options

  predicate IsLineTerminator(c: char) {
    c == '\n' || c == '\r' || c == '\U{2028}' || c == '\U{2029}'
  }

  /** An option and the value attached to it: `--name=value`, or a short option with text right behind it. */
  function SplitOption(token: string): (string, Option<string>) {
    if "--" <= token && '=' in token then
      var split := IndexOf(token, '=');
      (token[..split], Some(token[split + 1..]))
    else if |token| >= 3 && token[0] == '-' && token[1] in "XHduAb" && !IsLineTerminator(token[2]) then
      (token[..2], Some(token[2..]))
    else (token, None)
  }

  datatype Class = Ignored | Head | Get | Valued | Unsupported | Positional

  function Classify(option: string): Class {
    if option in {"-L", "--location", "--compressed", "-s", "--silent", "-S", "--show-error", "-sS"} then Ignored
    else if option in {"-I", "--head"} then Head
    else if option in {"-G", "--get"} then Get
    else if option in {"-X", "--request", "-H", "--header", "-d", "--data", "--data-raw", "--data-binary",
                       "--data-urlencode", "--json", "-A", "--user-agent", "-b", "--cookie", "-u", "--user", "--url"}
    then Valued
    else if "-" <= option then Unsupported
    else Positional
  }

  type Step = Result<Options, CurlError>

  function WithUrl(st: Options, url: string): Step {
    if st.url != "" then Err(SecondUrl) else Ok(st.(url := url))
  }

  function WithHeader(st: Options, raw: string): Step {
    var colon := IndexOf(raw, ':');
    if colon < 1 || colon == |raw| then Err(BadHeader)
    else Ok(st.(headers := st.headers + [MakeHeader(Trim(raw[..colon]), Trim(raw[colon + 1..]))]))
  }

  function WithData(p: Platform, st: Options, option: string, value: string): Step {
    if option != "--data-raw" && "@" <= value then Err(FileBody)
    else if option == "--data-urlencode" then
      var split := IndexOf(value, '=');
      if '@' in value && split == |value| then Err(FileBody)
      else
        var body := if split == |value| then p.encode(value) else value[..split + 1] + p.encode(value[split + 1..]);
        Ok(st.(data := st.data + [body]))
    else Ok(st.(data := st.data + [value], json := st.json || option == "--json"))
  }

  /** One option that takes a value. */
  function WithOption(p: Platform, st: Options, option: string, value: string): Step {
    if option == "-X" || option == "--request" then Ok(st.(httpMethod := p.upper(value)))
    else if option == "-H" || option == "--header" then WithHeader(st, value)
    else if option == "-A" || option == "--user-agent" then Ok(st.(headers := st.headers + [MakeHeader("User-Agent", value)]))
    else if option == "-b" || option == "--cookie" then
      if '=' !in value then Err(CookieFile)
      else Ok(st.(headers := st.headers + [MakeHeader("Cookie", value)]))
    else if option == "-u" || option == "--user" then
      if ':' !in value then Err(BadCredentials)
      else Ok(st.(headers := st.headers + [MakeHeader("Authorization", "Basic " + p.basic(value))]))
    else if option == "--url" then WithUrl(st, value)
    else WithData(p, st, option, value)
  }

  function ParseArgs(p: Platform, tokens: seq<string>, st: Options): Step
    decreases |tokens|, 0
  {
    if tokens == [] then Ok(st)
    else
      var (option, inline) := SplitOption(tokens[0]);
      match Classify(option)
      case Ignored => ParseArgs(p, tokens[1..], st)
      case Head => ParseArgs(p, tokens[1..], st.(head := true))
      case Get => ParseArgs(p, tokens[1..], st.(get := true))
      case Unsupported => Err(UnsupportedOption)
      case Positional => Continue(p, tokens[1..], WithUrl(st, option))
      case Valued =>
        if inline.Some? then Continue(p, tokens[1..], WithOption(p, st, option, inline.value))
        else if |tokens| == 1 then Err(MissingValue)
        else Continue(p, tokens[2..], WithOption(p, st, option, tokens[1]))
  }

  function Continue(p: Platform, tokens: seq<string>, step: Step): Step
    decreases |tokens|, 1
  {
    match step
    case Ok(st) => ParseArgs(p, tokens, st)
    case Err(e) => Err(e)
  }

  /** Everything after the option loop. */
  function Finish(p: Platform, st: Options): Result<Import, CurlError> {
    var protocol := p.protocol(st.url);
    if protocol.None? then Err(InvalidUrl)
    else if protocol.value !in {"http:", "https:"} then Err(NotHttp)
    else
      var httpMethod := if st.httpMethod != "" then st.httpMethod
                        else if st.head then "HEAD" else if st.get then "GET"
                        else if st.data != [] then "POST" else "GET";
      if httpMethod !in METHODS then Err(UnsupportedMethod)
      else
        var body := Join(st.data, if st.json then "" else "&");
        var url := if st.get && st.data != [] then WithQuery(st.url, body) else st.url;
        var headers := if st.data != [] && !st.get && !HasHeader(st.headers, "content-type")
                       then st.headers + [MakeHeader("Content-Type",
                              if st.json then "application/json" else "application/x-www-form-urlencoded")]
                       else st.headers;
        var headers' := if st.json && !HasHeader(headers, "accept")
                        then headers + [MakeHeader("Accept", "application/json")] else headers;
        Ok(Import(url, httpMethod, headers', !st.get && body != "", if st.get then "" else body))
  }

  /** The data of a GET request goes before the fragment of its URL. */
  function WithQuery(url: string, body: string): string {
    var hash := IndexOf(url, '#');
    var base := url[..hash];
    base + (if '?' in base then "&" else "?") + body + url[hash..]
  }

  function ParseTokens(p: Platform, tokens: seq<string>): Result<Import, CurlError> {
    if tokens == [] || tokens[0] != "curl" then Err(NotCurl)
    else
      match ParseArgs(p, tokens[1..], NO_OPTIONS)
      case Ok(st) => Finish(p, st)
      case Err(e) => Err(e)
  }

  /** What parseCurl returns. */
  function Parsed(p: Platform, command: string): Result<Import, CurlError> {
    match Scan(ReplaceCrlf(command), "", Unquoted, false)
    case Ok(tokens) => ParseTokens(p, tokens)
    case Err(e) => Err(BadQuoting(e))
  }

  method ParseCurl(p: Platform, command: string) returns (r: Result<Import, CurlError>)
    ensures r == Parsed(p, command)
  {
    hide Scan, ReplaceCrlf, SplitOption, Classify, WithOption, WithUrl, Finish;
    var scanned := Tokenize(ReplaceCrlf(command));
    if scanned.Err? {
      return Err(BadQuoting(scanned.error));
    }
    if scanned.value == [] || scanned.value[0] != "curl" {
      return Err(NotCurl);
    }
    var tokens := scanned.value[1..];
    var st := NO_OPTIONS;
    var i := 0;
    assert tokens[0..] == tokens;
    while i < |tokens|
      invariant 0 <= i <= |tokens|
      invariant ParseArgs(p, tokens, NO_OPTIONS) == ParseArgs(p, tokens[i..], st)
    {
      var (option, inline) := SplitOption(tokens[i]);
      assert tokens[i..][0] == tokens[i] && tokens[i..][1..] == tokens[i + 1..];
      var step: Step;
      match Classify(option) {
        case Ignored => step := Ok(st);
        case Head => step := Ok(st.(head := true));
        case Get => step := Ok(st.(get := true));
        case Unsupported => return Err(UnsupportedOption);
        case Positional => step := WithUrl(st, option);
        case Valued =>
          var value := inline;
          if value.None? {
            i := i + 1;
            if i == |tokens| {
              return Err(MissingValue);
            }
            assert tokens[i - 1..][1] == tokens[i] && tokens[i - 1..][2..] == tokens[i + 1..];
            value := Some(tokens[i]);
          }
          step := WithOption(p, st, option, value.value);
      }
      if step.Err? {
        return Err(step.error);
      }
      st := step.value;
      i := i + 1;
    }
    r := Finish(p, st);
  }
}
