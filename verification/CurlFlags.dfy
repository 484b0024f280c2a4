/** What ParseCurl makes of any command, stated on the parts the command consists of. */
module CurlFlags {
  import opened Common
  import opened ShellWords
  import opened Curl
  import Substrings

  /** What a flag with a value is for. */
  datatype Kind = Verb | Header | Data | Binary | User | Cookie | Agent | Referer

  /** A flag with its value, a flag alone, an unknown flag with or without a word skipped after it, or a bare word. */
  datatype Part =
    | Valued(kind: Kind, flag: string, text: string)
    | Get(flag: string)
    | Ignored(flag: string)
    | Unknown(flag: string)
    | Skipped(flag: string, text: string)
    | Word(text: string)

  predicate Spells(kind: Kind, flag: string)
  {
    match kind
    case Verb => flag == "-X" || flag == "--request"
    case Header => flag == "-H" || flag == "--header"
    case Data =>
      flag == "-d" || flag == "--data" || flag == "--data-raw" || flag == "--data-ascii" || flag == "--data-urlencode"
    case Binary => flag == "--data-binary"
    case User => flag == "-u" || flag == "--user"
    case Cookie => flag == "-b" || flag == "--cookie"
    case Agent => flag == "-A" || flag == "--user-agent"
    case Referer => flag == "-e" || flag == "--referer"
  }

  predicate SpellsGet(flag: string)
  {
    flag == "-G" || flag == "--get"
  }

  predicate SpellsIgnored(flag: string)
  {
    flag == "--compressed" || flag == "-k" || flag == "--insecure" || flag == "-s" || flag == "--silent" ||
    flag == "-v" || flag == "--verbose" || flag == "-i" || flag == "--include" || flag == "-L" || flag == "--location"
  }

  predicate NeedsValue(flag: string)
  {
    exists kind :: Spells(kind, flag)
  }

  predicate SpellsUnknown(flag: string)
  {
    |flag| > 1 && flag[0] == '-' && !NeedsValue(flag) && !SpellsGet(flag) && !SpellsIgnored(flag)
  }

  predicate IsBare(word: string)
  {
    word == "" || word[0] != '-' || word == "-"
  }

  predicate HasScheme(word: string)
  {
    exists i :: 0 <= i < |word| && "://" <= word[i..]
  }

  function PartWords(p: Part): seq<string>
  {
    match p
    case Valued(_, flag, text) => [flag, text]
    case Skipped(flag, text) => [flag, text]
    case Get(flag) => [flag]
    case Ignored(flag) => [flag]
    case Unknown(flag) => [flag]
    case Word(text) => [text]
  }

  function Words(parts: seq<Part>): seq<string>
  {
    if parts == [] then [] else PartWords(parts[0]) + Words(parts[1..])
  }

  /** What may be the value of an unknown flag: not a flag, not a URL with its scheme, and no URL seen yet. */
  predicate Swallowed(word: string, seen: bool)
  {
    !seen && (word == "" || word[0] != '-') && !HasScheme(word)
  }

  /** A part as it can be written before the words `rest`, `seen` being whether the URL came before it. */
  predicate PartOk(p: Part, rest: seq<string>, seen: bool)
  {
    match p
    case Valued(kind, flag, _) => Spells(kind, flag)
    case Get(flag) => SpellsGet(flag)
    case Ignored(flag) => SpellsIgnored(flag)
    case Unknown(flag) => SpellsUnknown(flag) && (rest != [] ==> !Swallowed(rest[0], seen))
    case Skipped(flag, text) => SpellsUnknown(flag) && Swallowed(text, seen)
    case Word(text) => IsBare(text)
  }

  predicate PartsOk(parts: seq<Part>, rest: seq<string>, seen: bool)
  {
    parts != [] ==>
      PartOk(parts[0], Words(parts[1..]) + rest, seen) &&
      PartsOk(parts[1..], rest, seen || (parts[0].Word? && parts[0].text != ""))
  }

  // ---- What the parts say ---------------------------------------------------

  function GivenBy(p: Part, kinds: set<Kind>): seq<string>
  {
    if p.Valued? && p.kind in kinds then [p.text] else []
  }

  /** The values given for flags of the kinds, in order. */
  function Given(parts: seq<Part>, kinds: set<Kind>): seq<string>
  {
    if parts == [] then [] else GivenBy(parts[0], kinds) + Given(parts[1..], kinds)
  }

  /** The first bare word that is not empty. */
  function TheUrl(parts: seq<Part>): string
  {
    if parts == [] then ""
    else if parts[0].Word? && parts[0].text != "" then parts[0].text
    else TheUrl(parts[1..])
  }

  function HeadersOf(p: Part): seq<KeyValue>
  {
    if !p.Valued? then []
    else if p.kind == Agent then [KeyValue("User-Agent", p.text, true)]
    else if p.kind == Referer then [KeyValue("Referer", p.text, true)]
    else if p.kind == Header && ParseHeader(p.text).Some? then [ParseHeader(p.text).value]
    else []
  }

  function TheHeaders(parts: seq<Part>): seq<KeyValue>
  {
    if parts == [] then [] else HeadersOf(parts[0]) + TheHeaders(parts[1..])
  }

  predicate GetGiven(parts: seq<Part>)
  {
    parts != [] && (parts[0].Get? || GetGiven(parts[1..]))
  }

  // ---- Collecting the parts -------------------------------------------------

  function Override(first: string, texts: seq<string>): string
  {
    if texts == [] then first else texts[|texts| - 1]
  }

  /** The argument values after the parts, `a` before them. */
  function After(a: Args, parts: seq<Part>): Args
  {
    Args(
      if a.url != "" then a.url else TheUrl(parts),
      Override(a.httpMethod, Given(parts, {Verb})),
      a.headers + TheHeaders(parts),
      a.data + Given(parts, {Data, Binary}),
      a.binary || Given(parts, {Binary}) != [],
      a.useGet || GetGiven(parts),
      Override(a.user, Given(parts, {User})),
      a.cookies + Given(parts, {Cookie}))
  }

  lemma KindsAreKnown(kind: Kind, flag: string)
    requires Spells(kind, flag)
    ensures TakesValue(flag)
  {
  }

  lemma ValueFlagsAreKnown(flag: string)
    requires TakesValue(flag)
    ensures NeedsValue(flag)
  {
    if flag in METHOD_FLAGS {
      assert Spells(Verb, flag);
    } else if flag in HEADER_FLAGS {
      assert Spells(Header, flag);
    } else if flag in DATA_FLAGS {
      assert Spells(if flag == "--data-binary" then Binary else Data, flag);
    } else if flag in USER_FLAGS {
      assert Spells(User, flag);
    } else if flag in COOKIE_FLAGS {
      assert Spells(Cookie, flag);
    } else if flag in AGENT_FLAGS {
      assert Spells(Agent, flag);
    } else {
      assert Spells(Referer, flag);
    }
  }

  lemma SwitchesAreKnown(flag: string)
    ensures flag in GET_FLAGS <==> SpellsGet(flag)
    ensures flag in IGNORED_FLAGS <==> SpellsIgnored(flag)
  {
  }

  /** The one argument a part changes. */
  function With(a: Args, p: Part): Args
  {
    match p
    case Valued(Verb, _, text) => a.(httpMethod := text)
    case Valued(User, _, text) => a.(user := text)
    case Valued(Data, _, text) => a.(data := a.data + [text])
    case Valued(Binary, _, text) => a.(data := a.data + [text], binary := true)
    case Valued(Cookie, _, text) => a.(cookies := a.cookies + [text])
    case Valued(_, _, _) => a.(headers := a.headers + HeadersOf(p))
    case Get(_) => a.(useGet := true)
    case Word(text) => if a.url == "" then a.(url := text) else a
    case _ => a
  }

  lemma ValuedStep(p: Part, rest: seq<string>, a: Args)
    requires p.Valued? && Spells(p.kind, p.flag)
    ensures ParseArgs(PartWords(p) + rest, a) == ParseArgs(rest, With(a, p))
  {
    KindsAreKnown(p.kind, p.flag);
    assert (PartWords(p) + rest)[2..] == rest;
    assert a.headers + [] == a.headers;
  }

  lemma SchemeIs(word: string)
    ensures LooksLikeUrl(word) <==> HasScheme(word)
  {
    if HasPrefix(word, "http://") {
      assert "://" <= word[4..];
    }
    if HasPrefix(word, "https://") {
      assert "://" <= word[5..];
    }
    assert Substrings.Contains(word, "://") <==> HasScheme(word);
  }

  lemma UnknownStep(p: Part, rest: seq<string>, a: Args)
    requires (p.Unknown? || p.Skipped?) && PartOk(p, rest, a.url != "")
    ensures ParseArgs(PartWords(p) + rest, a) == ParseArgs(rest, a)
  {
    var tokens := PartWords(p) + rest;
    SwitchesAreKnown(p.flag);
    if TakesValue(p.flag) {
      ValueFlagsAreKnown(p.flag);
      assert false;
    }
    if p.Skipped? {
      SchemeIs(p.text);
      assert tokens[2..] == rest;
    } else {
      if rest != [] {
        SchemeIs(rest[0]);
        assert tokens[1] == rest[0];
      }
      assert tokens[1..] == rest;
    }
  }

  lemma SwitchesTakeNoValue(flag: string)
    requires SpellsGet(flag) || SpellsIgnored(flag)
    ensures !TakesValue(flag)
  {
  }

  lemma SwitchStep(p: Part, rest: seq<string>, a: Args)
    requires (p.Get? || p.Ignored?) && PartOk(p, rest, a.url != "")
    ensures ParseArgs(PartWords(p) + rest, a) == ParseArgs(rest, With(a, p))
  {
    SwitchesAreKnown(p.flag);
    SwitchesTakeNoValue(p.flag);
    assert ([p.flag] + rest)[1..] == rest;
  }

  lemma PartStep(p: Part, rest: seq<string>, a: Args)
    requires PartOk(p, rest, a.url != "")
    ensures ParseArgs(PartWords(p) + rest, a) == ParseArgs(rest, With(a, p))
  {
    if p.Valued? {
      ValuedStep(p, rest, a);
    } else if p.Unknown? || p.Skipped? {
      UnknownStep(p, rest, a);
    } else if p.Word? {
      UrlIsNoFlag(p.text);
      assert ([p.text] + rest)[1..] == rest;
    } else {
      SwitchStep(p, rest, a);
    }
  }

  lemma GivenNext(p: Part, more: seq<Part>, kinds: set<Kind>)
    ensures Given([p] + more, kinds) == GivenBy(p, kinds) + Given(more, kinds)
  {
    assert ([p] + more)[1..] == more;
  }

  lemma VerbNext(a: Args, p: Part, more: seq<Part>)
    ensures Override(a.httpMethod, Given([p] + more, {Verb})) == Override(With(a, p).httpMethod, Given(more, {Verb}))
  {
    GivenNext(p, more, {Verb});
    assert With(a, p).httpMethod == Override(a.httpMethod, GivenBy(p, {Verb}));
    OverrideTwice(a.httpMethod, GivenBy(p, {Verb}), Given(more, {Verb}));
  }

  lemma UserNext(a: Args, p: Part, more: seq<Part>)
    ensures Override(a.user, Given([p] + more, {User})) == Override(With(a, p).user, Given(more, {User}))
  {
    GivenNext(p, more, {User});
    assert With(a, p).user == Override(a.user, GivenBy(p, {User}));
    OverrideTwice(a.user, GivenBy(p, {User}), Given(more, {User}));
  }

  lemma OverrideTwice(first: string, texts: seq<string>, more: seq<string>)
    ensures Override(first, texts + more) == Override(Override(first, texts), more)
  {
    assert texts + [] == texts;
  }

  lemma UrlAndGetNext(a: Args, p: Part, more: seq<Part>)
    ensures (if a.url != "" then a.url else TheUrl([p] + more)) ==
      if With(a, p).url != "" then With(a, p).url else TheUrl(more)
    ensures (a.useGet || GetGiven([p] + more)) == (With(a, p).useGet || GetGiven(more))
  {
    assert ([p] + more)[1..] == more;
  }

  lemma DataNext(a: Args, p: Part, more: seq<Part>)
    ensures a.data + Given([p] + more, {Data, Binary}) == With(a, p).data + Given(more, {Data, Binary})
  {
    GivenNext(p, more, {Data, Binary});
    assert With(a, p).data == a.data + GivenBy(p, {Data, Binary});
    SumsAssociate(a.data, GivenBy(p, {Data, Binary}), Given(more, {Data, Binary}));
  }

  lemma CookiesNext(a: Args, p: Part, more: seq<Part>)
    ensures a.cookies + Given([p] + more, {Cookie}) == With(a, p).cookies + Given(more, {Cookie})
  {
    GivenNext(p, more, {Cookie});
    assert With(a, p).cookies == a.cookies + GivenBy(p, {Cookie});
    SumsAssociate(a.cookies, GivenBy(p, {Cookie}), Given(more, {Cookie}));
  }

  lemma BinaryNext(a: Args, p: Part, more: seq<Part>)
    ensures (a.binary || Given([p] + more, {Binary}) != []) == (With(a, p).binary || Given(more, {Binary}) != [])
  {
    GivenNext(p, more, {Binary});
    assert With(a, p).binary == (a.binary || GivenBy(p, {Binary}) != []);
  }

  lemma HeadersNext(a: Args, p: Part, more: seq<Part>)
    ensures a.headers + TheHeaders([p] + more) == With(a, p).headers + TheHeaders(more)
  {
    assert ([p] + more)[1..] == more;
    SumsAssociate(a.headers, HeadersOf(p), TheHeaders(more));
    assert a.headers + [] == a.headers;
  }

  lemma WithIsAfter(a: Args, p: Part, more: seq<Part>)
    ensures After(a, [p] + more) == After(With(a, p), more)
  {
    var parts := [p] + more;
    VerbNext(a, p, more);
    UserNext(a, p, more);
    UrlAndGetNext(a, p, more);
    DataNext(a, p, more);
    CookiesNext(a, p, more);
    BinaryNext(a, p, more);
    HeadersNext(a, p, more);
  }

  lemma {:induction false} PartsAreCollected(parts: seq<Part>, rest: seq<string>, a: Args)
    requires PartsOk(parts, rest, a.url != "")
    ensures ParseArgs(Words(parts) + rest, a) == ParseArgs(rest, After(a, parts))
    decreases |parts|
  {
    if parts == [] {
      assert Words(parts) + rest == rest;
      assert a.headers + [] == a.headers && a.data + [] == a.data && a.cookies + [] == a.cookies;
    } else {
      var p, more := parts[0], parts[1..];
      SumsAssociate(PartWords(p), Words(more), rest);
      PartStep(p, Words(more) + rest, a);
      PartsAreCollected(more, rest, With(a, p));
      assert parts == [p] + more;
      WithIsAfter(a, p, more);
    }
  }

  // ---- What the command says ------------------------------------------------

  function DataOf(parts: seq<Part>): seq<string>
  {
    Given(parts, {Data, Binary})
  }

  /** The last method given; else GET with -G or without data, and POST with data. */
  function TheVerb(parts: seq<Part>): string
  {
    if Override("", Given(parts, {Verb})) != "" then Override("", Given(parts, {Verb}))
    else if GetGiven(parts) || DataOf(parts) == [] then "GET"
    else "POST"
  }

  /** With -G the data go to the end of the URL, after a question mark if that is the first. */
  predicate UrlSays(parts: seq<Part>, url: string)
  {
    var query := Join(DataOf(parts), "&");
    if !GetGiven(parts) || query == "" then url == TheUrl(parts)
    else url == TheUrl(parts) + (if '?' in TheUrl(parts) then "&" else "?") + query
  }

  /** The cookies come last, in one header. */
  predicate HeadersSay(parts: seq<Part>, headers: seq<KeyValue>)
  {
    var cookies := Given(parts, {Cookie});
    if cookies == [] then headers == TheHeaders(parts)
    else headers == TheHeaders(parts) + [KeyValue("Cookie", Join(cookies, "; "), true)]
  }

  /** The user is what comes before the first colon, the password what comes after it. */
  predicate AuthSays(user: string, auth: Option<BasicAuth>)
  {
    if user == "" then auth.None?
    else
      auth.Some? && ':' !in auth.value.username &&
      (if ':' in user then user == auth.value.username + ":" + auth.value.password
       else user == auth.value.username && auth.value.password == "")
  }

  /** The first character that is not white space opens an object or a list. */
  predicate OpensJson(text: string)
  {
    exists i :: 0 <= i < |text| && (text[i] == '{' || text[i] == '[') && AllSpace(text[..i])
  }

  predicate AllSpace(s: string)
  {
    forall i :: 0 <= i < |s| ==> IsSpace(s[i])
  }

  /** The data joined with "&", unless there are none or -G took them. */
  predicate BodySays(parts: seq<Part>, body: Option<Body>)
  {
    var text := Join(DataOf(parts), "&");
    if DataOf(parts) == [] || GetGiven(parts) then body.None?
    else
      body.Some? && body.value.text == text &&
      if Given(parts, {Binary}) != [] then body.value.kind.BinaryBody? && body.value.fields == []
      else if OpensJson(text) then body.value.kind.JsonBody? && body.value.fields == []
      else body.value.kind.FormBody? && body.value.fields == FormFields(text)
  }

  predicate Says(parts: seq<Part>, r: Result<RequestDef, string>)
  {
    if TheUrl(parts) == "" then r == Err("no URL found in curl command")
    else
      r.Ok? && Capitals(r.value.httpMethod, TheVerb(parts)) && UrlSays(parts, r.value.url) &&
      HeadersSay(parts, r.value.headers) && AuthSays(Override("", Given(parts, {User})), r.value.auth) &&
      BodySays(parts, r.value.body)
  }

  /** `k` is where the white space at the beginning ends. */
  predicate SpaceEnds(s: string, k: nat)
  {
    k <= |s| && AllSpace(s[..k]) && (k < |s| ==> !IsSpace(s[k]))
  }

  lemma {:induction false} TrimLeftIs(s: string) returns (k: nat)
    ensures SpaceEnds(s, k) && TrimLeft(s) == s[k..]
    decreases |s|
  {
    if s != "" && IsSpace(s[0]) {
      k := TrimLeftIs(s[1..]);
      assert s[..k + 1] == [s[0]] + s[1..][..k] && s[1..][k..] == s[k + 1..];
      k := k + 1;
    } else {
      k := 0;
    }
  }

  lemma {:induction false} TrimRightStarts(s: string)
    requires s != "" && !IsSpace(s[0])
    ensures TrimRight(s) != "" && TrimRight(s)[0] == s[0]
    decreases |s|
  {
    if IsSpace(s[|s| - 1]) {
      TrimRightStarts(s[..|s| - 1]);
    }
  }

  /** Trimmed text begins where the white space ends. */
  lemma TrimStarts(text: string) returns (k: nat)
    ensures SpaceEnds(text, k)
    ensures if k == |text| then TrimSpace(text) == "" else TrimSpace(text) != "" && TrimSpace(text)[0] == text[k]
  {
    k := TrimLeftIs(text);
    if k < |text| {
      TrimRightStarts(text[k..]);
    }
  }

  lemma PrefixIs(s: string)
    ensures HasPrefix(s, "{") || HasPrefix(s, "[") <==> s != "" && (s[0] == '{' || s[0] == '[')
  {
  }

  lemma SpaceEndsOnce(s: string, k: nat, i: nat)
    requires SpaceEnds(s, k) && i < |s| && AllSpace(s[..i]) && !IsSpace(s[i])
    ensures i == k
  {
  }

  lemma JsonIff(text: string)
    ensures LooksLikeJson(text) <==> OpensJson(text)
  {
    var k := TrimStarts(text);
    PrefixIs(TrimSpace(text));
    if OpensJson(text) {
      var i :| 0 <= i < |text| && (text[i] == '{' || text[i] == '[') && AllSpace(text[..i]);
      SpaceEndsOnce(text, k, i);
    }
  }

  lemma CutSays(user: string)
    requires user != ""
    ensures var colon := IndexOf(user, ':');
      AuthSays(user, Some(BasicAuth(user[..colon], if colon == |user| then "" else user[colon + 1..])))
  {
    var colon := IndexOf(user, ':');
    assert ':' !in user[..colon];
    if colon < |user| {
      assert user[colon] == ':';
      RejoinAt(user, colon);
    } else {
      assert user[..colon] == user;
    }
  }

  lemma RejoinAt(s: string, i: nat)
    requires i < |s| && s[i] == ':'
    ensures s == s[..i] + ":" + s[i + 1..] && ':' in s
  {
  }

  lemma VerbSays(parts: seq<Part>, verb: string)
    ensures Capitals(ToUpper(verb), verb)
  {
  }

  lemma NothingBefore<T>(texts: seq<T>)
    ensures [] + texts == texts
  {
  }

  /** Collected from nothing, the arguments are what the parts give. */
  lemma AfterNothing(parts: seq<Part>)
    ensures var a := After(NO_ARGS, parts);
      a.url == TheUrl(parts) && a.headers == TheHeaders(parts) && a.data == DataOf(parts) &&
      a.cookies == Given(parts, {Cookie})
  {
    NothingBefore(TheHeaders(parts));
    NothingBefore(DataOf(parts));
    NothingBefore(Given(parts, {Cookie}));
  }

  lemma BodyIs(parts: seq<Part>)
    ensures BodySays(parts, BodyOf(After(NO_ARGS, parts)))
  {
    AfterNothing(parts);
    JsonIff(Join(DataOf(parts), "&"));
  }

  lemma HeadersAre(parts: seq<Part>)
    ensures var a := After(NO_ARGS, parts);
      HeadersSay(parts, a.headers + if a.cookies == [] then [] else [KeyValue("Cookie", Join(a.cookies, "; "), true)])
  {
    AfterNothing(parts);
    assert TheHeaders(parts) + [] == TheHeaders(parts);
  }

  lemma UrlIs(parts: seq<Part>)
    ensures var a := After(NO_ARGS, parts);
      UrlSays(parts, if a.useGet && a.data != [] then AppendQueryString(a.url, Join(a.data, "&")) else a.url)
  {
    AfterNothing(parts);
    SumsAssociate(TheUrl(parts), "&", Join(DataOf(parts), "&"));
    SumsAssociate(TheUrl(parts), "?", Join(DataOf(parts), "&"));
  }

  /** Finishing is what the collected parts say. */
  lemma FinishSays(parts: seq<Part>)
    ensures Says(parts, Finish(After(NO_ARGS, parts)))
  {
    var a := After(NO_ARGS, parts);
    AfterNothing(parts);
    if a.url != "" {
      BodyIs(parts);
      HeadersAre(parts);
      UrlIs(parts);
      VerbSays(parts, TheVerb(parts));
      if a.user != "" {
        CutSays(a.user);
      }
    }
  }

  // ---- Every command --------------------------------------------------------

  /** The command's name, which may be left out. */
  predicate IsName(name: seq<string>, words: seq<string>)
  {
    name == ["curl"] || name == ["curl.exe"] ||
    (name == [] && (words == [] || (words[0] != "curl" && words[0] != "curl.exe")))
  }

  lemma NameIsSkipped(name: seq<string>, words: seq<string>)
    requires IsName(name, words)
    ensures SkipCommand(name + words) == words
  {
    assert name == [] ==> name + words == words;
    assert name != [] ==> (name + words)[1..] == words;
  }

  /** However its words are quoted, a command is read as what its parts say. */
  lemma CommandSays(command: string, name: seq<string>, parts: seq<Part>)
    requires PartsOk(parts, [], false) && IsName(name, Words(parts))
    requires Tokenize(command) == Ok(name + Words(parts))
    ensures Says(parts, ParseCurl(command))
  {
    NameIsSkipped(name, Words(parts));
    assert Words(parts) + [] == Words(parts);
    PartsAreCollected(parts, [], NO_ARGS);
    FinishSays(parts);
  }

  lemma MissingValueFails(command: string, name: seq<string>, parts: seq<Part>, flag: string)
    requires PartsOk(parts, [flag], false) && NeedsValue(flag) && IsName(name, Words(parts) + [flag])
    requires Tokenize(command) == Ok(name + (Words(parts) + [flag]))
    ensures ParseCurl(command) == Err(flag + " requires a value")
  {
    NameIsSkipped(name, Words(parts) + [flag]);
    PartsAreCollected(parts, [flag], NO_ARGS);
    var kind :| Spells(kind, flag);
    KindsAreKnown(kind, flag);
  }

  /** The first part of any words that do not end in a flag without its value. */
  lemma FirstPart(words: seq<string>, seen: bool) returns (p: Part, rest: seq<string>)
    requires words != [] && (|words| == 1 ==> !NeedsValue(words[0]))
    ensures PartWords(p) + rest == words && PartOk(p, rest, seen)
  {
    var flag := words[0];
    rest := words[1..];
    assert words == [flag] + rest;
    if NeedsValue(flag) {
      var kind :| Spells(kind, flag);
      assert words == [flag, words[1]] + words[2..];
      p, rest := Valued(kind, flag, words[1]), words[2..];
    } else if SpellsGet(flag) {
      p := Get(flag);
    } else if SpellsIgnored(flag) {
      p := Ignored(flag);
    } else if IsBare(flag) {
      p := Word(flag);
    } else if rest != [] && Swallowed(rest[0], seen) {
      assert words == [flag, words[1]] + words[2..];
      p, rest := Skipped(flag, words[1]), words[2..];
    } else {
      p := Unknown(flag);
    }
  }

  /** So nothing is left out: all words are parts, or parts and a flag that lacks its value. */
  lemma {:induction false} EveryCommandHasParts(words: seq<string>, seen: bool)
    returns (parts: seq<Part>, dangling: seq<string>)
    ensures Words(parts) + dangling == words && PartsOk(parts, dangling, seen)
    ensures dangling == [] || (|dangling| == 1 && NeedsValue(dangling[0]))
    decreases |words|
  {
    if words == [] {
      parts, dangling := [], [];
    } else if |words| == 1 && NeedsValue(words[0]) {
      parts, dangling := [], words;
    } else {
      var p, rest := FirstPart(words, seen);
      var more, left := EveryCommandHasParts(rest, seen || (p.Word? && p.text != ""));
      parts, dangling := [p] + more, left;
      assert parts[1..] == more;
      SumsAssociate(PartWords(p), Words(more), left);
    }
  }

  // ---- Header values and form fields ----------------------------------------

  /** A header needs a colon; white space around the name and around the value is dropped. */
  lemma HeaderReads(a: string, key: string, b: string, c: string, value: string, d: string)
    requires AllSpace(a) && AllSpace(b) && AllSpace(c) && AllSpace(d) && ':' !in key
    requires Trimmed(key) && Trimmed(value)
    ensures ParseHeader((a + key + b) + ":" + (c + value + d)) == Some(KeyValue(key, value, true))
  {
    var left, right := a + key + b, c + value + d;
    var raw := left + ":" + right;
    assert ':' !in left by {
      SpacesHaveNoColon(a);
      SpacesHaveNoColon(b);
    }
    assert raw[|left|] == ':' && forall i :: 0 <= i < |left| ==> raw[i] == left[i];
    assert IndexOf(raw, ':') == |left| && raw[..|left|] == left && raw[|left| + 1..] == right;
    TrimPadded(a, key, b);
    TrimPadded(c, value, d);
  }

  lemma SpacesHaveNoColon(s: string)
    requires AllSpace(s)
    ensures ':' !in s
  {
    assert !IsSpace(':');
  }

  lemma {:induction false} TrimLeftPadded(pad: string, s: string)
    requires AllSpace(pad) && (s != "" ==> !IsSpace(s[0]))
    ensures TrimLeft(pad + s) == s
    decreases |pad|
  {
    if pad == "" {
      assert pad + s == s;
    } else {
      assert (pad + s)[1..] == pad[1..] + s;
      TrimLeftPadded(pad[1..], s);
    }
  }

  lemma {:induction false} TrimRightPadded(s: string, pad: string)
    requires AllSpace(pad) && (s != "" ==> !IsSpace(s[|s| - 1]))
    ensures TrimRight(s + pad) == s
    decreases |pad|
  {
    if pad == "" {
      assert s + pad == s;
    } else {
      var shorter := pad[..|pad| - 1];
      assert (s + pad)[..|s + pad| - 1] == s + shorter;
      TrimRightPadded(s, shorter);
    }
  }

  lemma TrimPadded(a: string, s: string, b: string)
    requires AllSpace(a) && AllSpace(b) && Trimmed(s)
    ensures TrimSpace(a + s + b) == s
  {
    if s == "" {
      assert a + s + b == (a + b) + "";
      TrimLeftPadded(a + b, "");
    } else {
      SumsAssociate(a, s, b);
      TrimLeftPadded(a, s + b);
      TrimRightPadded(s, b);
    }
  }

  lemma HeaderNeedsColon(raw: string)
    ensures ParseHeader(raw).None? <==> ':' !in raw
  {
  }

  /** One field of a form, and how it is written. */
  predicate FieldWrites(f: KeyValue, piece: string)
  {
    f.enabled && '=' !in f.key && (piece == f.key + "=" + f.value || (f.value == "" && piece == f.key))
  }

  lemma FieldReads(f: KeyValue, piece: string)
    requires FieldWrites(f, piece)
    ensures FormField(piece) == f
  {
    if piece == f.key + "=" + f.value {
      assert piece[|f.key|] == '=' && forall i :: 0 <= i < |f.key| ==> piece[i] == f.key[i];
      assert piece[..|f.key|] == f.key && piece[|f.key| + 1..] == f.value;
    } else {
      assert piece[..|f.key|] == f.key;
    }
  }

  /** A piece of the body without "&": empty, or one field. */
  predicate PiecesWrite(fields: seq<KeyValue>, pieces: seq<string>)
    decreases |pieces|
  {
    if pieces == [] then fields == []
    else
      '&' !in pieces[0] &&
      if pieces[0] == "" then PiecesWrite(fields, pieces[1..])
      else fields != [] && FieldWrites(fields[0], pieces[0]) && PiecesWrite(fields[1..], pieces[1..])
  }

  lemma FirstPiece(piece: string, rest: string)
    requires '&' !in piece
    ensures FormFields(piece) == if piece == "" then [] else [FormField(piece)]
    ensures FormFields(piece + "&" + rest) == (if piece == "" then [] else [FormField(piece)]) + FormFields(rest)
  {
    var s := piece + "&" + rest;
    assert IndexOf(piece, '&') == |piece| && piece[..|piece|] == piece;
    assert s[|piece|] == '&' && forall i :: 0 <= i < |piece| ==> s[i] == piece[i];
    assert IndexOf(s, '&') == |piece| && s[..|piece|] == piece && s[|piece| + 1..] == rest;
  }

  /** The fields of the pieces after the first. */
  function MoreFields(fields: seq<KeyValue>, piece: string): seq<KeyValue>
    requires piece != "" ==> fields != []
  {
    if piece == "" then fields else fields[1..]
  }

  lemma FirstField(fields: seq<KeyValue>, piece: string)
    requires piece != "" ==> fields != [] && FieldWrites(fields[0], piece)
    ensures (if piece == "" then [] else [FormField(piece)]) + MoreFields(fields, piece) == fields
  {
    if piece != "" {
      FieldReads(fields[0], piece);
      assert fields == [fields[0]] + fields[1..];
    } else {
      assert [] + fields == fields;
    }
  }

  /** Fields joined with "&" are read back in order, empty pieces aside. */
  lemma {:induction false} FormReads(fields: seq<KeyValue>, pieces: seq<string>)
    requires PiecesWrite(fields, pieces)
    ensures FormFields(Join(pieces, "&")) == fields
    decreases |pieces|
  {
    if pieces == [] {
      assert FormFields("") == [];
    } else {
      var more := MoreFields(fields, pieces[0]);
      assert PiecesWrite(more, pieces[1..]);
      FirstField(fields, pieces[0]);
      FirstPiece(pieces[0], Join(pieces[1..], "&"));
      if |pieces| == 1 {
        assert more == [] && Join(pieces, "&") == pieces[0];
      } else {
        FormReads(more, pieces[1..]);
        assert Join(pieces, "&") == pieces[0] + "&" + Join(pieces[1..], "&");
      }
    }
  }

  // ---- Commands one meets ---------------------------------------------------

  lemma QuotedCommandSays(parts: seq<Part>)
    requires PartsOk(parts, [], false)
    ensures Says(parts, ParseCurl(JoinQuoted(["curl"] + Words(parts))))
  {
    TokenizeInvertsQuoting(["curl"] + Words(parts));
    CommandSays(JoinQuoted(["curl"] + Words(parts)), ["curl"], parts);
  }

  /** The flag before each of the values. */
  function Repeated(flag: string, texts: seq<string>): seq<string>
  {
    if texts == [] then [] else [flag, texts[0]] + Repeated(flag, texts[1..])
  }

  function ValuesThenUrl(kind: Kind, flag: string, texts: seq<string>, url: string): seq<Part>
  {
    if texts == [] then [Word(url)] else [Valued(kind, flag, texts[0])] + ValuesThenUrl(kind, flag, texts[1..], url)
  }

  lemma {:induction false} ValuesWords(kind: Kind, flag: string, texts: seq<string>, url: string)
    requires Spells(kind, flag) && UrlOk(url)
    ensures var parts := ValuesThenUrl(kind, flag, texts, url);
      Words(parts) == Repeated(flag, texts) + [url] && PartsOk(parts, [], false)
    decreases |texts|
  {
    var parts := ValuesThenUrl(kind, flag, texts, url);
    if texts == [] {
      assert parts[1..] == [];
    } else {
      ValuesWords(kind, flag, texts[1..], url);
      assert parts[1..] == ValuesThenUrl(kind, flag, texts[1..], url);
    }
  }

  lemma {:induction false} ValuesGive(kind: Kind, flag: string, texts: seq<string>, url: string, kinds: set<Kind>)
    requires url != ""
    ensures var parts := ValuesThenUrl(kind, flag, texts, url);
      Given(parts, kinds) == (if kind in kinds then texts else []) && TheUrl(parts) == url && !GetGiven(parts)
    decreases |texts|
  {
    var parts := ValuesThenUrl(kind, flag, texts, url);
    if texts == [] {
      assert parts[1..] == [];
    } else {
      ValuesGive(kind, flag, texts[1..], url, kinds);
      assert parts[1..] == ValuesThenUrl(kind, flag, texts[1..], url);
      assert [texts[0]] + texts[1..] == texts;
    }
  }

  lemma {:induction false} ValuesHeaders(kind: Kind, flag: string, texts: seq<string>, url: string)
    requires kind != Header && kind != Agent && kind != Referer
    ensures TheHeaders(ValuesThenUrl(kind, flag, texts, url)) == []
    decreases |texts|
  {
    var parts := ValuesThenUrl(kind, flag, texts, url);
    if texts == [] {
      assert parts[1..] == [];
    } else {
      ValuesHeaders(kind, flag, texts[1..], url);
      assert parts[1..] == ValuesThenUrl(kind, flag, texts[1..], url);
    }
  }

  lemma UserIsRead(user: string, password: string, url: string)
    requires ':' !in user && UrlOk(url)
    ensures var r := ParseCurl(JoinQuoted(["curl"] + (["-u", user + ":" + password] + [url])));
      r.Ok? && r.value.url == url && r.value.auth == Some(BasicAuth(user, password))
  {
    var given := user + ":" + password;
    var parts := ValuesThenUrl(User, "-u", [given], url);
    ValuesWords(User, "-u", [given], url);
    ValuesGive(User, "-u", [given], url, {User});
    ValuesGive(User, "-u", [given], url, {Data, Binary});
    assert Repeated("-u", [given]) == ["-u", given] + Repeated("-u", []) == ["-u", given];
    QuotedCommandSays(parts);
    var r := ParseCurl(JoinQuoted(["curl"] + Words(parts)));
    assert given[|user|] == ':';
    CutOnce(user, password, r.value.auth.value.username, r.value.auth.value.password);
  }

  lemma CutOnce(a: string, b: string, c: string, d: string)
    requires ':' !in a && ':' !in c && a + ":" + b == c + ":" + d
    ensures a == c && b == d
  {
    var s := a + ":" + b;
    assert s[|a|] == ':' && s[|c|] == ':';
    assert a == s[..|a|] && b == s[|a| + 1..];
  }

  lemma CookiesAreRead(cookies: seq<string>, url: string)
    requires cookies != [] && UrlOk(url)
    ensures var r := ParseCurl(JoinQuoted(["curl"] + (Repeated("-b", cookies) + [url])));
      r.Ok? && r.value.headers == [KeyValue("Cookie", Join(cookies, "; "), true)]
  {
    var parts := ValuesThenUrl(Cookie, "-b", cookies, url);
    ValuesWords(Cookie, "-b", cookies, url);
    ValuesGive(Cookie, "-b", cookies, url, {Cookie});
    ValuesHeaders(Cookie, "-b", cookies, url);
    QuotedCommandSays(parts);
  }

  lemma CapitalsStay(text: string, verb: string)
    requires Capitals(text, verb) && (verb == "GET" || verb == "POST")
    ensures text == verb
  {
  }

  lemma DataAreRead(data: seq<string>, url: string)
    requires data != [] && UrlOk(url)
    ensures var r := ParseCurl(JoinQuoted(["curl"] + (Repeated("-d", data) + [url])));
      r.Ok? && r.value.httpMethod == "POST" && r.value.url == url &&
      r.value.body.Some? && r.value.body.value.text == Join(data, "&")
  {
    var parts := ValuesThenUrl(Data, "-d", data, url);
    ValuesWords(Data, "-d", data, url);
    ValuesGive(Data, "-d", data, url, {Data, Binary});
    ValuesGive(Data, "-d", data, url, {Verb});
    QuotedCommandSays(parts);
    CapitalsStay(ParseCurl(JoinQuoted(["curl"] + Words(parts))).value.httpMethod, "POST");
  }

  /** With -G in front the same data make a GET with a query and no body. */
  lemma GetTakesData(data: seq<string>, url: string)
    requires Join(data, "&") != "" && UrlOk(url)
    ensures var r := ParseCurl(JoinQuoted(["curl"] + (["-G"] + (Repeated("-d", data) + [url]))));
      r.Ok? && r.value.httpMethod == "GET" && r.value.body.None? &&
      r.value.url == url + (if '?' in url then "&" else "?") + Join(data, "&")
  {
    var more := ValuesThenUrl(Data, "-d", data, url);
    var parts := [Get("-G")] + more;
    ValuesWords(Data, "-d", data, url);
    GetBefore(more, {Data, Binary});
    GetBefore(more, {Verb});
    ValuesGive(Data, "-d", data, url, {Data, Binary});
    ValuesGive(Data, "-d", data, url, {Verb});
    QuotedCommandSays(parts);
    CapitalsStay(ParseCurl(JoinQuoted(["curl"] + Words(parts))).value.httpMethod, "GET");
  }

  lemma GetBefore(more: seq<Part>, kinds: set<Kind>)
    ensures var parts := [Get("-G")] + more;
      Words(parts) == ["-G"] + Words(more) && Given(parts, kinds) == Given(more, kinds) && GetGiven(parts) &&
      TheUrl(parts) == TheUrl(more) && (PartsOk(more, [], false) ==> PartsOk(parts, [], false))
  {
    assert ([Get("-G")] + more)[1..] == more;
  }

  lemma ValuedBefore(p: Part, more: seq<Part>, kinds: set<Kind>)
    requires p.Valued? && Spells(p.kind, p.flag) && PartsOk(more, [], false)
    ensures var parts := [p] + more;
      PartsOk(parts, [], false) && Words(parts) == [p.flag, p.text] + Words(more) && TheUrl(parts) == TheUrl(more) &&
      TheHeaders(parts) == HeadersOf(p) + TheHeaders(more) && Given(parts, kinds) == GivenBy(p, kinds) + Given(more, kinds)
  {
    assert ([p] + more)[1..] == more;
  }

  lemma UrlAlone(url: string, kinds: set<Kind>)
    requires UrlOk(url)
    ensures var parts := [Word(url)];
      PartsOk(parts, [], false) && Words(parts) == [url] && TheUrl(parts) == url && TheHeaders(parts) == [] &&
      Given(parts, kinds) == []
  {
    assert [Word(url)][1..] == [];
  }

  lemma AgentAndRefererAreRead(agent: string, referer: string, url: string)
    requires UrlOk(url)
    ensures var r := ParseCurl(JoinQuoted(["curl"] + (["-A", agent] + (["-e", referer] + [url]))));
      r.Ok? && r.value.headers == [KeyValue("User-Agent", agent, true), KeyValue("Referer", referer, true)]
  {
    var last := [Valued(Referer, "-e", referer)] + [Word(url)];
    UrlAlone(url, {Cookie});
    ValuedBefore(Valued(Referer, "-e", referer), [Word(url)], {Cookie});
    ValuedBefore(Valued(Agent, "-A", agent), last, {Cookie});
    QuotedCommandSays([Valued(Agent, "-A", agent)] + last);
  }

  lemma SpellingHasNoEquals(kind: Kind, flag: string)
    requires Spells(kind, flag)
    ensures '=' !in flag
  {
  }

  /** A value written behind "=" is not read: the whole word is an unknown flag, and so is what it was to say. */
  lemma EqualsFormIsUnknown(name: string, value: string)
    ensures SpellsUnknown("--" + name + "=" + value)
  {
    var flag := "--" + name + "=" + value;
    assert flag[2 + |name|] == '=';
    forall kind ensures !Spells(kind, flag) {
      if Spells(kind, flag) {
        SpellingHasNoEquals(kind, flag);
        assert false;
      }
    }
  }

  /** Such a word also takes the next one with it, unless that is a URL with its scheme. */
  lemma EqualsFormTakesUrl(name: string, value: string, url: string)
    requires url != "" && url[0] != '-' && !HasScheme(url)
    ensures ParseCurl(JoinQuoted(["curl"] + ["--" + name + "=" + value, url])) == Err("no URL found in curl command")
  {
    EqualsFormIsUnknown(name, value);
    SkippedAlone("--" + name + "=" + value, url);
  }

  lemma SkippedParts(flag: string, word: string)
    requires SpellsUnknown(flag) && Swallowed(word, false)
    ensures var parts := [Skipped(flag, word)];
      PartsOk(parts, [], false) && Words(parts) == [flag, word] && TheUrl(parts) == ""
  {
    assert [Skipped(flag, word)][1..] == [];
    assert [flag, word] + [] == [flag, word];
  }

  lemma SkippedAlone(flag: string, word: string)
    requires SpellsUnknown(flag) && Swallowed(word, false)
    ensures ParseCurl(JoinQuoted(["curl"] + [flag, word])) == Err("no URL found in curl command")
  {
    SkippedParts(flag, word);
    QuotedCommandSays([Skipped(flag, word)]);
  }

  /** The query ToCurl writes is read back as the enabled parameters. */
  lemma {:induction false} QueryReads(params: seq<KeyValue>)
    requires forall p :: p in params ==> '=' !in p.key && '&' !in p.key && '&' !in p.value
    ensures FormFields(Join(QueryParts(params), "&")) == EnabledRows(params)
  {
    QueryWrites(params);
    FormReads(EnabledRows(params), QueryParts(params));
  }

  lemma {:induction false} QueryWrites(params: seq<KeyValue>)
    requires forall p :: p in params ==> '=' !in p.key && '&' !in p.key && '&' !in p.value
    ensures PiecesWrite(EnabledRows(params), QueryParts(params))
    decreases |params|
  {
    if params != [] {
      var p, more := params[0], params[1..];
      QueryWrites(more);
      if p.enabled {
        var piece := p.key + "=" + p.value;
        assert QueryParts(params)[0] == piece && QueryParts(params)[1..] == QueryParts(more);
        assert EnabledRows(params)[0] == p && EnabledRows(params)[1..] == EnabledRows(more);
        assert FieldWrites(p, piece);
      } else {
        assert QueryParts(params) == QueryParts(more) && EnabledRows(params) == EnabledRows(more);
      }
    }
  }
}
