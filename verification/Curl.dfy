/** Requests to curl command lines and back. */
module Curl {
  import opened Common
  import opened ShellWords
  import opened Substrings

  datatype BodyKind = NoBody | JsonBody | FormBody | BinaryBody | OtherBody(name: string)

  datatype Body = Body(kind: BodyKind, text: string, fields: seq<KeyValue>)

  datatype Resolved = Resolved(
    httpMethod: string, url: string, headers: seq<KeyValue>, params: seq<KeyValue>, body: Option<Body>)

  datatype BasicAuth = BasicAuth(username: string, password: string)

  datatype RequestDef = RequestDef(
    httpMethod: string, url: string, headers: seq<KeyValue>, auth: Option<BasicAuth>, body: Option<Body>)

  // ---- Text helpers ---------------------------------------------------------

  /** unicode.IsSpace. */
  predicate IsSpace(c: char)
  {
    var n := c as int;
    9 <= n <= 13 || n == 32 || n == 0x85 || n == 0xA0 || n == 0x1680 || 0x2000 <= n <= 0x200a ||
    n == 0x2028 || n == 0x2029 || n == 0x202f || n == 0x205f || n == 0x3000
  }

  function TrimLeft(s: string): string
  {
    if s != "" && IsSpace(s[0]) then TrimLeft(s[1..]) else s
  }

  function TrimRight(s: string): string
  {
    if s != "" && IsSpace(s[|s| - 1]) then TrimRight(s[..|s| - 1]) else s
  }

  function TrimSpace(s: string): string
  {
    TrimRight(TrimLeft(s))
  }

  /** No white space at either end. */
  predicate Trimmed(s: string)
  {
    s == "" || (!IsSpace(s[0]) && !IsSpace(s[|s| - 1]))
  }

  function UpperChar(c: char): char
  {
    if 'a' <= c <= 'z' then c - ' ' else c
  }

  function ToUpper(s: string): string
  {
    seq(|s|, i requires 0 <= i < |s| => UpperChar(s[i]))
  }

  predicate HasPrefix(s: string, prefix: string)
  {
    prefix <= s
  }

  predicate LooksLikeUrl(s: string)
  {
    HasPrefix(s, "http://") || HasPrefix(s, "https://") || Contains(s, "://")
  }

  predicate LooksLikeJson(s: string)
  {
    HasPrefix(TrimSpace(s), "{") || HasPrefix(TrimSpace(s), "[")
  }

  function AppendQueryString(url: string, qs: string): string
  {
    if qs == "" then url else if '?' in url then url + "&" + qs else url + "?" + qs
  }

  function FormField(pair: string): KeyValue
  {
    var i := IndexOf(pair, '=');
    if i == |pair| then KeyValue(pair, "", true) else KeyValue(pair[..i], pair[i + 1..], true)
  }

  function FormFields(body: string): seq<KeyValue>
    decreases |body|
  {
    var i := IndexOf(body, '&');
    (if i == 0 then [] else [FormField(body[..i])]) + if i == |body| then [] else FormFields(body[i + 1..])
  }

  // ---- ToCurl ---------------------------------------------------------------

  function MethodOf(req: RequestDef, r: Resolved): string
  {
    if r.httpMethod != "" then r.httpMethod else if req.httpMethod != "" then req.httpMethod else "GET"
  }

  function QueryParts(params: seq<KeyValue>): seq<string>
  {
    if params == [] then []
    else (if params[0].enabled then [params[0].key + "=" + params[0].value] else []) + QueryParts(params[1..])
  }

  function UrlOf(req: RequestDef, r: Resolved): string
  {
    AppendQueryString(if r.url != "" then r.url else req.url, Join(QueryParts(r.params), "&"))
  }

  predicate SendsBody(r: Resolved)
  {
    r.body.Some? && !r.body.value.kind.NoBody? && r.body.value.text != ""
  }

  function MethodText(req: RequestDef, r: Resolved): string
  {
    if MethodOf(req, r) != "GET" then " -X " + ShellQuote(MethodOf(req, r)) else ""
  }

  function HeaderPart(h: KeyValue): string
  {
    if h.enabled then " -H " + ShellQuote(h.key + ": " + h.value) else ""
  }

  function HeaderText(headers: seq<KeyValue>): string
  {
    if headers == [] then "" else HeaderPart(headers[0]) + HeaderText(headers[1..])
  }

  function BodyText(r: Resolved): string
  {
    if !SendsBody(r) then ""
    else (if r.body.value.kind.BinaryBody? then " --data-binary " else " -d ") + ShellQuote(r.body.value.text)
  }

  function ToCurl(req: RequestDef, r: Resolved): string
  {
    "curl" + MethodText(req, r) + " " + ShellQuote(UrlOf(req, r)) + HeaderText(r.headers) + BodyText(r)
  }

  // ---- ParseCurl ------------------------------------------------------------

  datatype Args = Args(
    url: string, httpMethod: string, headers: seq<KeyValue>, data: seq<string>, binary: bool, useGet: bool,
    user: string, cookies: seq<string>)

  const NO_ARGS := Args("", "", [], [], false, false, "", [])

  function ParseHeader(raw: string): Option<KeyValue>
  {
    var i := IndexOf(raw, ':');
    if i == |raw| then None else Some(KeyValue(TrimSpace(raw[..i]), TrimSpace(raw[i + 1..]), true))
  }

  const METHOD_FLAGS := ["-X", "--request"]
  const HEADER_FLAGS := ["-H", "--header"]
  const DATA_FLAGS := ["-d", "--data", "--data-raw", "--data-ascii", "--data-binary", "--data-urlencode"]
  const USER_FLAGS := ["-u", "--user"]
  const COOKIE_FLAGS := ["-b", "--cookie"]
  const AGENT_FLAGS := ["-A", "--user-agent"]
  const REFERER_FLAGS := ["-e", "--referer"]
  const GET_FLAGS := ["-G", "--get"]
  const IGNORED_FLAGS := ["--compressed", "-k", "--insecure", "-s", "--silent", "-v", "--verbose",
                          "-i", "--include", "-L", "--location"]

  predicate TakesValue(tok: string)
  {
    tok in METHOD_FLAGS || tok in HEADER_FLAGS || tok in DATA_FLAGS || tok in USER_FLAGS ||
    tok in COOKIE_FLAGS || tok in AGENT_FLAGS || tok in REFERER_FLAGS
  }

  function WithValue(a: Args, tok: string, val: string): Args
  {
    if tok in METHOD_FLAGS then a.(httpMethod := val)
    else if tok in HEADER_FLAGS then
      if ParseHeader(val).Some? then a.(headers := a.headers + [ParseHeader(val).value]) else a
    else if tok in DATA_FLAGS then a.(data := a.data + [val], binary := a.binary || tok == "--data-binary")
    else if tok in USER_FLAGS then a.(user := val)
    else if tok in COOKIE_FLAGS then a.(cookies := a.cookies + [val])
    else if tok in AGENT_FLAGS then a.(headers := a.headers + [KeyValue("User-Agent", val, true)])
    else if tok in REFERER_FLAGS then a.(headers := a.headers + [KeyValue("Referer", val, true)])
    else a
  }

  /** An unknown flag; what follows it is skipped too when it looks like the flag's value. */
  function UnknownFlagWidth(tokens: seq<string>, a: Args): nat
    requires tokens != []
  {
    if |tokens| > 1 && !HasPrefix(tokens[1], "-") && a.url == "" && !LooksLikeUrl(tokens[1]) then 2 else 1
  }

  function ParseArgs(tokens: seq<string>, a: Args): Result<Args, string>
    decreases |tokens|
  {
    if tokens == [] then Ok(a)
    else
      var tok := tokens[0];
      if TakesValue(tok) then
        if |tokens| == 1 then Err(tok + " requires a value")
        else ParseArgs(tokens[2..], WithValue(a, tok, tokens[1]))
      else if tok in GET_FLAGS then ParseArgs(tokens[1..], a.(useGet := true))
      else if tok in IGNORED_FLAGS then ParseArgs(tokens[1..], a)
      else if HasPrefix(tok, "-") && tok != "-" then ParseArgs(tokens[UnknownFlagWidth(tokens, a)..], a)
      else ParseArgs(tokens[1..], if a.url == "" then a.(url := tok) else a)
  }

  function BodyOf(a: Args): Option<Body>
  {
    var joined := Join(a.data, "&");
    if a.data == [] || a.useGet then None
    else if a.binary then Some(Body(BinaryBody, joined, []))
    else if LooksLikeJson(joined) then Some(Body(JsonBody, joined, []))
    else Some(Body(FormBody, joined, FormFields(joined)))
  }

  function Finish(a: Args): Result<RequestDef, string>
  {
    if a.url == "" then Err("no URL found in curl command")
    else
      var verb :=
        if a.httpMethod != "" then a.httpMethod else if a.useGet || a.data == [] then "GET" else "POST";
      var colon := IndexOf(a.user, ':');
      Ok(RequestDef(
        ToUpper(verb),
        if a.useGet && a.data != [] then AppendQueryString(a.url, Join(a.data, "&")) else a.url,
        a.headers + (if a.cookies == [] then [] else [KeyValue("Cookie", Join(a.cookies, "; "), true)]),
        if a.user == "" then None
        else Some(BasicAuth(a.user[..colon], if colon == |a.user| then "" else a.user[colon + 1..])),
        BodyOf(a)))
  }

  function SkipCommand(tokens: seq<string>): seq<string>
  {
    if tokens != [] && (tokens[0] == "curl" || tokens[0] == "curl.exe") then tokens[1..] else tokens
  }

  function ParseCurl(command: string): Result<RequestDef, string>
  {
    match Tokenize(command)
    case Err(e) => Err(e)
    case Ok(tokens) =>
      match ParseArgs(SkipCommand(tokens), NO_ARGS)
      case Err(e) => Err(e)
      case Ok(a) => Finish(a)
  }

  // ---- The command as a word list -------------------------------------------

  function MethodWords(req: RequestDef, r: Resolved): seq<string>
  {
    if MethodOf(req, r) != "GET" then ["-X", MethodOf(req, r)] else []
  }

  function HeaderWords(headers: seq<KeyValue>): seq<string>
  {
    if headers == [] then []
    else (if headers[0].enabled then ["-H", headers[0].key + ": " + headers[0].value] else []) + HeaderWords(headers[1..])
  }

  function BodyWords(r: Resolved): seq<string>
  {
    if !SendsBody(r) then []
    else [if r.body.value.kind.BinaryBody? then "--data-binary" else "-d", r.body.value.text]
  }

  function CurlWords(req: RequestDef, r: Resolved): seq<string>
  {
    ["curl"] + ArgumentWords(req, r)
  }

  /** Each word with a space before it. */
  function Spaced(words: seq<string>): string
  {
    if words == [] then "" else " " + ShellQuote(words[0]) + Spaced(words[1..])
  }

  lemma {:induction false} SpacedAppend(a: seq<string>, b: seq<string>)
    ensures Spaced(a + b) == Spaced(a) + Spaced(b)
    decreases |a|
  {
    if a == [] {
      assert a + b == b;
    } else {
      assert (a + b)[1..] == a[1..] + b;
      SpacedAppend(a[1..], b);
    }
  }

  lemma {:induction false} JoinIsSpaced(first: string, rest: seq<string>)
    ensures JoinQuoted([first] + rest) == ShellQuote(first) + Spaced(rest)
    decreases |rest|
  {
    var words := [first] + rest;
    if rest != [] {
      assert words[1..] == rest == [rest[0]] + rest[1..];
      JoinIsSpaced(rest[0], rest[1..]);
      var tail := Spaced(rest[1..]);
      assert JoinQuoted(words) == ShellQuote(first) + " " + (ShellQuote(rest[0]) + tail);
      assert Spaced(rest) == " " + ShellQuote(rest[0]) + tail;
    }
  }

  lemma FlagsAreBare(flag: string)
    requires flag == "curl" || flag == "-X" || flag == "-H" || flag == "-d" || flag == "--data-binary"
    ensures ShellQuote(flag) == flag
  {
  }

  lemma SpacedPair(flag: string, value: string)
    requires flag == "-X" || flag == "-H" || flag == "-d" || flag == "--data-binary"
    ensures Spaced([flag, value]) == " " + flag + " " + ShellQuote(value)
  {
    FlagsAreBare(flag);
    assert [flag, value][1..] == [value] && [value][1..] == [];
    assert Spaced([value]) == " " + ShellQuote(value);
  }

  lemma {:induction false} HeaderTextIsSpaced(headers: seq<KeyValue>)
    ensures HeaderText(headers) == Spaced(HeaderWords(headers))
    decreases |headers|
  {
    if headers != [] {
      HeaderTextIsSpaced(headers[1..]);
      if headers[0].enabled {
        var text := headers[0].key + ": " + headers[0].value;
        SpacedPair("-H", text);
        assert " " + "-H" + " " == " -H ";
        SpacedAppend(["-H", text], HeaderWords(headers[1..]));
      } else {
        assert [] + HeaderWords(headers[1..]) == HeaderWords(headers[1..]);
      }
    }
  }

  /** The words after the command's name. */
  function ArgumentWords(req: RequestDef, r: Resolved): seq<string>
  {
    MethodWords(req, r) + ([UrlOf(req, r)] + (HeaderWords(r.headers) + BodyWords(r)))
  }

  lemma SpacedFour(a: seq<string>, b: seq<string>, c: seq<string>, d: seq<string>)
    ensures Spaced(a + (b + (c + d))) == Spaced(a) + (Spaced(b) + (Spaced(c) + Spaced(d)))
  {
    SpacedAppend(a, b + (c + d));
    SpacedAppend(b, c + d);
    SpacedAppend(c, d);
  }

  lemma SpacedOne(word: string)
    ensures Spaced([word]) == " " + ShellQuote(word)
  {
    assert [word][1..] == [];
    assert " " + ShellQuote(word) + "" == " " + ShellQuote(word);
  }

  /** The text ToCurl builds is its word list, quoted. */
  lemma ToCurlIsJoin(req: RequestDef, r: Resolved)
    ensures ToCurl(req, r) == JoinQuoted(CurlWords(req, r))
  {
    SpacedFour(MethodWords(req, r), [UrlOf(req, r)], HeaderWords(r.headers), BodyWords(r));
    MethodIsSpaced(req, r);
    SpacedOne(UrlOf(req, r));
    HeaderTextIsSpaced(r.headers);
    BodyIsSpaced(r);
    JoinIsSpaced("curl", ArgumentWords(req, r));
    FlagsAreBare("curl");
    Regroup("curl", MethodText(req, r), " ", ShellQuote(UrlOf(req, r)), HeaderText(r.headers), BodyText(r));
  }

  lemma Regroup(a: string, b: string, c: string, d: string, e: string, f: string)
    ensures a + (b + ((c + d) + (e + f))) == a + b + c + d + e + f
  {
  }

  lemma MethodIsSpaced(req: RequestDef, r: Resolved)
    ensures Spaced(MethodWords(req, r)) == MethodText(req, r)
  {
    if MethodOf(req, r) != "GET" {
      SpacedPair("-X", MethodOf(req, r));
      assert " " + "-X" + " " == " -X ";
    }
  }

  lemma FlagText(flag: string, text: string)
    requires flag == "-d" || flag == "--data-binary"
    ensures text == (if flag == "-d" then " -d " else " --data-binary ") ==> " " + flag + " " == text
  {
  }

  lemma BodyIsSpaced(r: Resolved)
    ensures Spaced(BodyWords(r)) == BodyText(r)
  {
    if SendsBody(r) {
      SpacedPair(BodyWords(r)[0], r.body.value.text);
      FlagText(BodyWords(r)[0], if r.body.value.kind.BinaryBody? then " --data-binary " else " -d ");
    }
  }

  // ---- Reading the words back -----------------------------------------------

  /** What ParseArgs takes as the bare URL argument. */
  predicate UrlOk(url: string)
  {
    url != "" && (url[0] != '-' || url == "-")
  }

  lemma UrlIsNoFlag(tok: string)
    requires tok == "" || tok[0] != '-' || tok == "-"
    ensures !TakesValue(tok) && tok !in GET_FLAGS && tok !in IGNORED_FLAGS && !(HasPrefix(tok, "-") && tok != "-")
  {
  }

  lemma ParseFlag(flag: string, value: string, rest: seq<string>, a: Args)
    requires flag == "-X" || flag == "-H" || flag == "-d" || flag == "--data-binary"
    ensures ParseArgs([flag, value] + rest, a) == ParseArgs(rest, WithValue(a, flag, value))
  {
    assert ([flag, value] + rest)[2..] == rest;
  }

  lemma ParseUrl(url: string, rest: seq<string>, a: Args)
    requires UrlOk(url) && a.url == ""
    ensures ParseArgs([url] + rest, a) == ParseArgs(rest, a.(url := url))
  {
    UrlIsNoFlag(url);
    assert ([url] + rest)[1..] == rest;
  }

  function ParsedHeader(h: KeyValue): KeyValue
  {
    var text := h.key + ": " + h.value;
    assert text[|h.key|] == ':';
    ParseHeader(text).value
  }

  function ParsedHeaders(headers: seq<KeyValue>): seq<KeyValue>
  {
    if headers == [] then []
    else (if headers[0].enabled then [ParsedHeader(headers[0])] else []) + ParsedHeaders(headers[1..])
  }

  lemma OneHeaderWord(h: KeyValue, rest: seq<string>, a: Args)
    ensures ParseArgs(["-H", h.key + ": " + h.value] + rest, a) ==
      ParseArgs(rest, a.(headers := a.headers + [ParsedHeader(h)]))
  {
    var text := h.key + ": " + h.value;
    ParseFlag("-H", text, rest, a);
    assert text[|h.key|] == ':';
  }

  /** The enabled first header of a list, taken off the front. */
  lemma FirstHeaderWord(headers: seq<KeyValue>, rest: seq<string>, a: Args)
    requires headers != [] && headers[0].enabled
    ensures ParseArgs(HeaderWords(headers) + rest, a) ==
      ParseArgs(HeaderWords(headers[1..]) + rest, a.(headers := a.headers + [ParsedHeader(headers[0])]))
  {
    var h, more := headers[0], HeaderWords(headers[1..]);
    assert ["-H", h.key + ": " + h.value] + more + rest == ["-H", h.key + ": " + h.value] + (more + rest);
    OneHeaderWord(h, more + rest, a);
  }

  lemma HeadersSoFar(a: Args, headers: seq<KeyValue>)
    requires headers != []
    ensures ParsedHeaders(headers) ==
      if headers[0].enabled then [ParsedHeader(headers[0])] + ParsedHeaders(headers[1..]) else ParsedHeaders(headers[1..])
    ensures headers[0].enabled ==>
      a.headers + [ParsedHeader(headers[0])] + ParsedHeaders(headers[1..]) == a.headers + ParsedHeaders(headers)
  {
    assert [] + ParsedHeaders(headers[1..]) == ParsedHeaders(headers[1..]);
  }

  lemma {:induction false} ParseHeaderWords(headers: seq<KeyValue>, rest: seq<string>, a: Args)
    ensures ParseArgs(HeaderWords(headers) + rest, a) ==
      ParseArgs(rest, a.(headers := a.headers + ParsedHeaders(headers)))
    decreases |headers|
  {
    if headers == [] {
      assert HeaderWords(headers) + rest == rest && a.headers + [] == a.headers;
    } else {
      HeadersSoFar(a, headers);
      if headers[0].enabled {
        FirstHeaderWord(headers, rest, a);
        ParseHeaderWords(headers[1..], rest, a.(headers := a.headers + [ParsedHeader(headers[0])]));
      } else {
        assert HeaderWords(headers) == HeaderWords(headers[1..]);
        ParseHeaderWords(headers[1..], rest, a);
      }
    }
  }

  /** The argument values ParseCurl collects from a command ToCurl wrote. */
  function Collected(req: RequestDef, r: Resolved): Args
  {
    Args(UrlOf(req, r), if MethodOf(req, r) != "GET" then MethodOf(req, r) else "", ParsedHeaders(r.headers),
         if SendsBody(r) then [r.body.value.text] else [],
         SendsBody(r) && r.body.value.kind.BinaryBody?, false, "", [])
  }

  lemma CommandIsCollected(req: RequestDef, r: Resolved)
    requires UrlOk(UrlOf(req, r))
    ensures ParseCurl(ToCurl(req, r)) == Finish(Collected(req, r))
  {
    ToCurlIsJoin(req, r);
    TokenizeInvertsQuoting(CurlWords(req, r));
    assert CurlWords(req, r)[1..] == ArgumentWords(req, r);
    ParseMethodWords(req, r, [UrlOf(req, r)] + (HeaderWords(r.headers) + BodyWords(r)));
    ParseUrlWords(req, r);
  }

  lemma ParseMethodWords(req: RequestDef, r: Resolved, rest: seq<string>)
    ensures ParseArgs(MethodWords(req, r) + rest, NO_ARGS) ==
      ParseArgs(rest, NO_ARGS.(httpMethod := Collected(req, r).httpMethod))
  {
    if MethodOf(req, r) != "GET" {
      ParseFlag("-X", MethodOf(req, r), rest, NO_ARGS);
    } else {
      assert MethodWords(req, r) + rest == rest;
    }
  }

  lemma ParseUrlWords(req: RequestDef, r: Resolved)
    requires UrlOk(UrlOf(req, r))
    ensures ParseArgs([UrlOf(req, r)] + (HeaderWords(r.headers) + BodyWords(r)),
                      NO_ARGS.(httpMethod := Collected(req, r).httpMethod)) == Ok(Collected(req, r))
  {
    var a := NO_ARGS.(httpMethod := Collected(req, r).httpMethod);
    var a' := a.(url := UrlOf(req, r));
    ParseUrl(UrlOf(req, r), HeaderWords(r.headers) + BodyWords(r), a);
    ParseHeaderWords(r.headers, BodyWords(r), a');
    assert [] + ParsedHeaders(r.headers) == ParsedHeaders(r.headers);
    ParseBodyWords(r, a'.(headers := ParsedHeaders(r.headers)));
  }

  lemma ParseBodyWords(r: Resolved, a: Args)
    requires a.data == [] && !a.binary
    ensures ParseArgs(BodyWords(r), a) == Ok(a.(
      data := if SendsBody(r) then [r.body.value.text] else [],
      binary := SendsBody(r) && r.body.value.kind.BinaryBody?))
  {
    if SendsBody(r) {
      var flag, text := BodyWords(r)[0], r.body.value.text;
      ParseFlag(flag, text, [], a);
      assert [flag, text] + [] == BodyWords(r);
      assert [] + [text] == [text];
    }
  }

  // ---- Headers --------------------------------------------------------------

  lemma {:induction false} TrimLeftIff(s: string)
    ensures if s == "" || !IsSpace(s[0]) then TrimLeft(s) == s else |TrimLeft(s)| < |s|
  {
    if s != "" && IsSpace(s[0]) {
      TrimLeftIff(s[1..]);
    }
  }

  lemma {:induction false} TrimRightIff(s: string)
    ensures if s == "" || !IsSpace(s[|s| - 1]) then TrimRight(s) == s else |TrimRight(s)| < |s|
  {
    if s != "" && IsSpace(s[|s| - 1]) {
      TrimRightIff(s[..|s| - 1]);
    }
  }

  lemma TrimIff(s: string)
    ensures |TrimSpace(s)| <= |s| && (TrimSpace(s) == s <==> Trimmed(s))
  {
    TrimLeftIff(s);
    TrimRightIff(TrimLeft(s));
    TrimRightIff(s);
  }

  predicate HeaderOk(h: KeyValue)
  {
    ':' !in h.key && Trimmed(h.key) && Trimmed(h.value)
  }

  /** A header survives the command line exactly when its key has no colon and neither side has outer white space. */
  lemma HeaderSurvivesIff(h: KeyValue)
    ensures ParsedHeader(h) == KeyValue(h.key, h.value, true) <==> HeaderOk(h)
  {
    var text := h.key + ": " + h.value;
    var i := IndexOf(text, ':');
    assert text[|h.key|] == ':';
    assert i <= |h.key|;
    TrimIff(text[..i]);
    if i < |h.key| {
      assert text[i] == h.key[i];
    } else {
      assert forall j :: 0 <= j < |h.key| ==> text[j] == h.key[j];
      assert text[..i] == h.key;
      var after := text[i + 1..];
      assert after == " " + h.value && after[1..] == h.value;
      assert TrimLeft(after) == TrimLeft(h.value);
      TrimIff(h.value);
    }
  }

  function EnabledRows(headers: seq<KeyValue>): seq<KeyValue>
  {
    if headers == [] then []
    else (if headers[0].enabled then [headers[0]] else []) + EnabledRows(headers[1..])
  }

  predicate HeadersOk(headers: seq<KeyValue>)
  {
    forall i :: 0 <= i < |headers| && headers[i].enabled ==> HeaderOk(headers[i])
  }

  lemma {:induction false} HeadersSurviveIff(headers: seq<KeyValue>)
    ensures |ParsedHeaders(headers)| == |EnabledRows(headers)|
    ensures ParsedHeaders(headers) == EnabledRows(headers) <==> HeadersOk(headers)
    decreases |headers|
  {
    if headers != [] {
      var h, rest := headers[0], headers[1..];
      HeadersSurviveIff(rest);
      HeaderSurvivesIff(h);
      assert HeadersOk(headers) <==> (h.enabled ==> HeaderOk(h)) && HeadersOk(rest) by {
        assert forall i :: 0 <= i < |rest| ==> rest[i] == headers[i + 1];
        assert forall i :: 0 < i < |headers| ==> headers[i] == rest[i - 1];
      }
      if h.enabled {
        var p, e := ParsedHeaders(headers), EnabledRows(headers);
        assert p[0] == ParsedHeader(h) && p[1..] == ParsedHeaders(rest);
        assert e[0] == h && e[1..] == EnabledRows(rest);
        assert p == e <==> p[0] == e[0] && p[1..] == e[1..] by {
          assert p == [p[0]] + p[1..] && e == [e[0]] + e[1..];
        }
      } else {
        assert ParsedHeaders(headers) == ParsedHeaders(rest) && EnabledRows(headers) == EnabledRows(rest);
      }
    }
  }

  // ---- The round trip -------------------------------------------------------

  function PairTexts(pairs: seq<KeyValue>): seq<string>
  {
    if pairs == [] then [] else [pairs[0].key + "=" + pairs[0].value] + PairTexts(pairs[1..])
  }

  /** The URL to copy: the resolved one, or else the request's, and the enabled parameters as its query. */
  predicate UrlWritten(req: RequestDef, r: Resolved, url: string)
  {
    var base := if r.url == "" then req.url else r.url;
    var query := Join(PairTexts(EnabledRows(r.params)), "&");
    if EnabledRows(r.params) == [] then url == base
    else url == base + (if '?' in base then "&" else "?") + query
  }

  lemma {:induction false} QueryPartsAre(params: seq<KeyValue>)
    ensures QueryParts(params) == PairTexts(EnabledRows(params))
    decreases |params|
  {
    if params != [] {
      QueryPartsAre(params[1..]);
      if params[0].enabled {
        assert EnabledRows(params)[1..] == EnabledRows(params[1..]);
      } else {
        assert EnabledRows(params) == EnabledRows(params[1..]);
      }
    }
  }

  lemma UrlIsWritten(req: RequestDef, r: Resolved)
    ensures UrlWritten(req, r, UrlOf(req, r))
  {
    QueryPartsAre(r.params);
    var base := if r.url == "" then req.url else r.url;
    var pairs := PairTexts(EnabledRows(r.params));
    SumsAssociate(base, "&", Join(pairs, "&"));
    SumsAssociate(base, "?", Join(pairs, "&"));
    if pairs != [] {
      assert pairs[0] != "" && pairs[0] <= Join(pairs, "&");
    }
  }

  /** `text` is `verb` in capitals, as far as the letters a to z go. */
  predicate Capitals(text: string, verb: string)
  {
    |text| == |verb| &&
    forall i :: 0 <= i < |verb| ==> text[i] == if 'a' <= verb[i] <= 'z' then (verb[i] as int - 32) as char else verb[i]
  }

  /** The method of the resolved request, or else of the request, or else GET. */
  predicate VerbRead(req: RequestDef, r: Resolved, text: string)
  {
    if r.httpMethod != "" then Capitals(text, r.httpMethod)
    else if req.httpMethod != "" then Capitals(text, req.httpMethod)
    else text == "GET"
  }

  lemma VerbIsRead(req: RequestDef, r: Resolved, text: string)
    ensures VerbRead(req, r, text) <==> text == ToUpper(MethodOf(req, r))
  {
    assert ToUpper("GET") == "GET";
    assert Capitals(text, MethodOf(req, r)) <==> text == ToUpper(MethodOf(req, r));
  }

  /** The body is read back when it has a kind and a text, and its kind is told apart from binary. */
  predicate BodyRead(r: Resolved, body: Option<Body>)
  {
    if r.body.None? || r.body.value.kind == NoBody || r.body.value.text == "" then body.None?
    else
      body.Some? && body.value.text == r.body.value.text &&
      (body.value.kind == BinaryBody <==> r.body.value.kind == BinaryBody)
  }

  /** The request def read back says what the resolved request said. */
  predicate Recovered(req: RequestDef, r: Resolved, p: Result<RequestDef, string>)
  {
    p.Ok? && UrlWritten(req, r, p.value.url) && VerbRead(req, r, p.value.httpMethod) &&
    p.value.headers == EnabledRows(r.headers) && p.value.auth.None? && BodyRead(r, p.value.body)
  }

  lemma CollectedBody(req: RequestDef, r: Resolved)
    ensures BodyRead(r, BodyOf(Collected(req, r)))
  {
    assert SendsBody(r) ==> Join(Collected(req, r).data, "&") == r.body.value.text;
  }

  lemma CollectedFinishes(req: RequestDef, r: Resolved)
    requires UrlOk(UrlOf(req, r))
    ensures var p := Finish(Collected(req, r));
      p.Ok? && p.value.url == UrlOf(req, r) && p.value.headers == ParsedHeaders(r.headers) && p.value.auth.None? &&
      p.value.httpMethod == ToUpper(if MethodOf(req, r) == "GET" && SendsBody(r) then "POST" else MethodOf(req, r)) &&
      BodyRead(r, p.value.body)
  {
    var a := Collected(req, r);
    assert a.headers + [] == a.headers;
    CollectedBody(req, r);
  }

  /** "-" followed by a query string: the only form in which a leading dash can reappear in a parsed URL. */
  predicate OddUrl(url: string)
  {
    |url| > 1 && url[0] == '-' && (url[1] == '?' || url[1] == '&')
  }

  lemma OddUrlIsNoKnownFlag(url: string)
    requires OddUrl(url)
    ensures !TakesValue(url) && url !in GET_FLAGS && url !in IGNORED_FLAGS && HasPrefix(url, "-") && url != "-"
  {
  }

  lemma OddUrlIsSkipped(url: string, rest: seq<string>, a: Args)
    requires OddUrl(url) && (rest != [] ==> HasPrefix(rest[0], "-"))
    ensures ParseArgs([url] + rest, a) == ParseArgs(rest, a)
  {
    OddUrlIsNoKnownFlag(url);
    assert rest != [] ==> ([url] + rest)[1] == rest[0];
    assert ([url] + rest)[1..] == rest;
  }

  lemma {:induction false} HeaderWordsStart(headers: seq<KeyValue>, rest: seq<string>)
    requires rest != [] ==> HasPrefix(rest[0], "-")
    ensures HeaderWords(headers) + rest != [] ==> HasPrefix((HeaderWords(headers) + rest)[0], "-")
    decreases |headers|
  {
    if headers == [] {
      assert HeaderWords(headers) + rest == rest;
    } else if headers[0].enabled {
      assert (HeaderWords(headers) + rest)[0] == "-H";
    } else {
      HeaderWordsStart(headers[1..], rest);
      assert HeaderWords(headers) == HeaderWords(headers[1..]);
    }
  }

  /** Written by ToCurl, such a URL is read as an unknown flag, and the command has no URL. */
  lemma OddUrlFails(req: RequestDef, r: Resolved)
    requires OddUrl(UrlOf(req, r))
    ensures ParseCurl(ToCurl(req, r)).Err?
  {
    var rest := HeaderWords(r.headers) + BodyWords(r);
    var a := NO_ARGS.(httpMethod := Collected(req, r).httpMethod);
    ToCurlIsJoin(req, r);
    TokenizeInvertsQuoting(CurlWords(req, r));
    assert CurlWords(req, r)[1..] == ArgumentWords(req, r);
    ParseMethodWords(req, r, [UrlOf(req, r)] + rest);
    HeaderWordsStart(r.headers, BodyWords(r));
    OddUrlIsSkipped(UrlOf(req, r), rest, a);
    ParseHeaderWords(r.headers, BodyWords(r), a);
    ParseBodyWords(r, a.(headers := a.headers + ParsedHeaders(r.headers)));
  }

  /**
   * Copy as cURL then paste gives back method, URL, headers and body exactly when the URL can stand as a
   * bare argument, every enabled header survives, and it is not a GET with a body.
   */
  lemma CurlRoundTripIff(req: RequestDef, r: Resolved)
    ensures Recovered(req, r, ParseCurl(ToCurl(req, r))) <==>
      UrlOk(UrlOf(req, r)) && HeadersOk(r.headers) && !(MethodOf(req, r) == "GET" && SendsBody(r))
  {
    UrlIsWritten(req, r);
    if ParseCurl(ToCurl(req, r)).Ok? {
      VerbIsRead(req, r, ParseCurl(ToCurl(req, r)).value.httpMethod);
    }
    if UrlOk(UrlOf(req, r)) {
      CommandIsCollected(req, r);
      CollectedFinishes(req, r);
      HeadersSurviveIff(r.headers);
      assert ToUpper("GET")[0] == 'G' && ToUpper("POST")[0] == 'P';
    } else if OddUrl(UrlOf(req, r)) {
      OddUrlFails(req, r);
    } else {
      UnreadableUrl(ToCurl(req, r), UrlOf(req, r));
    }
  }

  lemma {:induction false} ArgumentUrl(tokens: seq<string>, a: Args)
    requires a.url == "" || UrlOk(a.url)
    ensures var p := ParseArgs(tokens, a); p.Ok? ==> p.value.url == "" || UrlOk(p.value.url)
    decreases |tokens|
  {
    if tokens != [] {
      var tok := tokens[0];
      if TakesValue(tok) {
        if |tokens| > 1 {
          ArgumentUrl(tokens[2..], WithValue(a, tok, tokens[1]));
        }
      } else if tok in GET_FLAGS {
        ArgumentUrl(tokens[1..], a.(useGet := true));
      } else if tok in IGNORED_FLAGS {
        ArgumentUrl(tokens[1..], a);
      } else if HasPrefix(tok, "-") && tok != "-" {
        ArgumentUrl(tokens[UnknownFlagWidth(tokens, a)..], a);
      } else {
        ArgumentUrl(tokens[1..], if a.url == "" then a.(url := tok) else a);
      }
    }
  }

  /** No command at all parses to an empty URL or to one that begins like a flag. */
  lemma UnreadableUrl(command: string, url: string)
    requires !UrlOk(url) && !OddUrl(url)
    ensures ParseCurl(command).Ok? ==> ParseCurl(command).value.url != url
  {
    if ParseCurl(command).Ok? {
      var tokens := SkipCommand(Tokenize(command).value);
      ArgumentUrl(tokens, NO_ARGS);
    }
  }

  // ---- The loops ------------------------------------------------------------

  method RenderCurl(req: RequestDef, r: Resolved) returns (b: string)
    ensures b == ToCurl(req, r)
  {
    b := "curl";
    b := b + MethodText(req, r);
    b := b + " ";
    b := b + ShellQuote(UrlOf(req, r));
    b := RenderHeaders(b, r.headers);
    b := b + BodyText(r);
  }

  method RenderHeaders(prefix: string, headers: seq<KeyValue>) returns (b: string)
    ensures b == prefix + HeaderText(headers)
  {
    b := prefix;
    var i := 0;
    while i < |headers|
      invariant i <= |headers| && b + HeaderText(headers[i..]) == prefix + HeaderText(headers)
    {
      HeaderTextNext(b, headers, i);
      b := RenderHeader(b, headers[i]);
      i := i + 1;
    }
    assert b + "" == b;
  }

  method RenderHeader(prefix: string, h: KeyValue) returns (b: string)
    ensures b == prefix + HeaderPart(h)
  {
    b := prefix;
    if h.enabled {
      b := b + (" -H " + ShellQuote(h.key + ": " + h.value));
    }
  }

  lemma HeaderTextNext(b: string, headers: seq<KeyValue>, i: nat)
    requires i < |headers|
    ensures b + HeaderText(headers[i..]) == (b + HeaderPart(headers[i])) + HeaderText(headers[i + 1..])
  {
    var part, rest := HeaderPart(headers[i]), HeaderText(headers[i + 1..]);
    assert headers[i..][0] == headers[i] && headers[i..][1..] == headers[i + 1..];
    assert b + (part + rest) == (b + part) + rest;
  }

  method ParseCommand(command: string) returns (r: Result<RequestDef, string>)
    ensures r == ParseCurl(command)
  {
    var words := TokenizeRunes(command);
    if words.Err? {
      return Err(words.error);
    }
    var tokens := words.value;
    var i, a := 0, NO_ARGS;
    if |tokens| > 0 && (tokens[0] == "curl" || tokens[0] == "curl.exe") {
      i := 1;
    }
    assert tokens[i..] == SkipCommand(tokens);
    while i < |tokens|
      invariant i <= |tokens| && ParseArgs(tokens[i..], a) == ParseArgs(SkipCommand(tokens), NO_ARGS)
    {
      var tok := tokens[i];
      ghost var left := tokens[i..];
      assert left[0] == tok && left[1..] == tokens[i + 1..];
      if TakesValue(tok) {
        if i + 1 >= |tokens| {
          return Err(tok + " requires a value");
        }
        assert left[1] == tokens[i + 1] && left[2..] == tokens[i + 2..];
        a := WithValue(a, tok, tokens[i + 1]);
        i := i + 2;
      } else if tok in GET_FLAGS {
        a := a.(useGet := true);
        i := i + 1;
      } else if tok in IGNORED_FLAGS {
        i := i + 1;
      } else if HasPrefix(tok, "-") && tok != "-" {
        i := i + 1;
        if i < |tokens| && !HasPrefix(tokens[i], "-") && a.url == "" && !LooksLikeUrl(tokens[i]) {
          assert left[1] == tokens[i] && left[2..] == tokens[i + 1..];
          i := i + 1;
        }
      } else {
        if a.url == "" {
          a := a.(url := tok);
        }
        i := i + 1;
      }
    }
    return Finish(a);
  }
}
