/** The shell quoter and the word splitter. Strings are sequences of runes. */
module ShellWords {
  import opened Common

  predicate Plain(c: char)
  {
    'a' <= c <= 'z' || 'A' <= c <= 'Z' || '0' <= c <= '9' || c in "-_.:/@%+="
  }

  predicate NeedsQuoting(s: string)
  {
    exists i :: 0 <= i < |s| && !Plain(s[i])
  }

  /** Every single quote closes the quoting, is escaped, and reopens it. */
  function EscapeQuotes(s: string): string
  {
    if s == "" then "" else (if s[0] == '\'' then "'\\''" else [s[0]]) + EscapeQuotes(s[1..])
  }

  function ShellQuote(s: string): string
  {
    if s == "" then "''" else if !NeedsQuoting(s) then s else "'" + EscapeQuotes(s) + "'"
  }

  predicate IsBlank(c: char)
  {
    c == ' ' || c == '\t' || c == '\n' || c == '\r'
  }

  /** What a backslash escapes inside double quotes. */
  const ESCAPABLE := "\"\\$`\n"

  type Words = Result<seq<string>, string>

  function Prepend(word: string, rest: Words): Words
  {
    match rest
    case Ok(words) => Ok([word] + words)
    case Err(e) => Err(e)
  }

  /** The words of `s`, continuing a word `cur` that has begun when `has`. */
  function Scan(s: string, cur: string, has: bool): Words
    decreases |s|
  {
    if s == "" then (if has then Ok([cur]) else Ok([]))
    else if s[0] == '\\' && |s| > 1 && s[1] == '\n' then Scan(s[2..], cur, has)
    else if s[0] == '\\' && |s| > 1 then Scan(s[2..], cur + [s[1]], true)
    else if s[0] == '\'' then ScanSingle(s[1..], cur)
    else if s[0] == '"' then ScanDouble(s[1..], cur)
    else if IsBlank(s[0]) then (if has then Prepend(cur, Scan(s[1..], "", false)) else Scan(s[1..], cur, false))
    else Scan(s[1..], cur + [s[0]], true)
  }

  function ScanSingle(s: string, cur: string): Words
    decreases |s|
  {
    if s == "" then Err("unterminated single quote")
    else if s[0] == '\'' then Scan(s[1..], cur, true)
    else ScanSingle(s[1..], cur + [s[0]])
  }

  function ScanDouble(s: string, cur: string): Words
    decreases |s|
  {
    if s == "" then Err("unterminated double quote")
    else if s[0] == '"' then Scan(s[1..], cur, true)
    else if s[0] == '\\' && |s| > 1 && s[1] in ESCAPABLE then ScanDouble(s[2..], cur + [s[1]])
    else ScanDouble(s[1..], cur + [s[0]])
  }

  function Tokenize(command: string): Words
  {
    Scan(command, "", false)
  }

  function JoinQuoted(words: seq<string>): string
  {
    if words == [] then ""
    else if |words| == 1 then ShellQuote(words[0])
    else ShellQuote(words[0]) + " " + JoinQuoted(words[1..])
  }

  lemma {:induction false} ScanPlain(w: string, rest: string, cur: string, has: bool)
    requires forall i :: 0 <= i < |w| ==> Plain(w[i])
    ensures Scan(w + rest, cur, has) == Scan(rest, cur + w, has || w != "")
    decreases |w|
  {
    if w == "" {
      assert w + rest == rest && cur + w == cur;
    } else {
      assert Plain(w[0]);
      assert (w + rest)[1..] == w[1..] + rest;
      ScanPlain(w[1..], rest, cur + [w[0]], true);
      assert cur + [w[0]] + w[1..] == cur + w;
    }
  }

  lemma OpenQuote(rest: string, cur: string, has: bool)
    ensures Scan("'" + rest, cur, has) == ScanSingle(rest, cur)
  {
    assert ("'" + rest)[1..] == rest;
  }

  lemma CloseQuote(rest: string, cur: string)
    ensures ScanSingle("'" + rest, cur) == Scan(rest, cur, true)
  {
    assert ("'" + rest)[1..] == rest;
  }

  lemma EscapedQuote(rest: string, cur: string, has: bool)
    ensures Scan("\\'" + rest, cur, has) == Scan(rest, cur + "'", true)
  {
    assert ("\\'" + rest)[2..] == rest;
  }

  lemma InsideQuote(c: char, rest: string, cur: string)
    requires c != '\''
    ensures ScanSingle([c] + rest, cur) == ScanSingle(rest, cur + [c])
  {
    assert ([c] + rest)[1..] == rest;
  }

  lemma {:induction false} ScanEscaped(w: string, rest: string, cur: string)
    ensures ScanSingle(EscapeQuotes(w) + "'" + rest, cur) == Scan(rest, cur + w, true)
    decreases |w|
  {
    if w == "" {
      assert EscapeQuotes(w) + "'" + rest == "'" + rest && cur + w == cur;
      CloseQuote(rest, cur);
    } else {
      var tail := EscapeQuotes(w[1..]) + "'" + rest;
      ScanEscaped(w[1..], rest, cur + [w[0]]);
      assert cur + [w[0]] + w[1..] == cur + w;
      if w[0] == '\'' {
        assert EscapeQuotes(w) + "'" + rest == "'" + ("\\'" + ("'" + tail));
        CloseQuote("\\'" + ("'" + tail), cur);
        EscapedQuote("'" + tail, cur, true);
        OpenQuote(tail, cur + "'", true);
      } else {
        assert EscapeQuotes(w) + "'" + rest == [w[0]] + tail;
        InsideQuote(w[0], tail, cur);
      }
    }
  }

  lemma QuotedForm(w: string, rest: string)
    ensures w == "" ==> ShellQuote(w) + rest == "'" + ("'" + rest)
    ensures w != "" && NeedsQuoting(w) ==> ShellQuote(w) + rest == "'" + (EscapeQuotes(w) + "'" + rest)
  {
    if w == "" {
      assert "'" + ("'" + rest) == "''" + rest;
    } else {
      var e := EscapeQuotes(w);
      assert ("'" + e + "'") + rest == "'" + (e + "'" + rest);
    }
  }

  /** A quoted word is read back as one complete word, whatever follows it. */
  lemma ScanQuoted(w: string, rest: string)
    ensures Scan(ShellQuote(w) + rest, "", false) == Scan(rest, w, true)
  {
    assert "" + w == w;
    if w == "" {
      QuotedForm(w, rest);
      OpenQuote("'" + rest, "", false);
      CloseQuote(rest, "");
    } else if !NeedsQuoting(w) {
      ScanPlain(w, rest, "", false);
    } else {
      QuotedForm(w, rest);
      OpenQuote(EscapeQuotes(w) + "'" + rest, "", false);
      ScanEscaped(w, rest, "");
    }
  }

  /** Splitting the quoted words gives the words back: for every list of every string. */
  lemma {:induction false} TokenizeInvertsQuoting(words: seq<string>)
    ensures Tokenize(JoinQuoted(words)) == Ok(words)
    decreases |words|
  {
    if |words| == 1 {
      ScanQuoted(words[0], "");
      assert ShellQuote(words[0]) + "" == ShellQuote(words[0]);
      assert words == [words[0]];
    } else if |words| > 1 {
      var rest := " " + JoinQuoted(words[1..]);
      ScanQuoted(words[0], rest);
      assert JoinQuoted(words) == ShellQuote(words[0]) + rest;
      assert rest[1..] == JoinQuoted(words[1..]);
      TokenizeInvertsQuoting(words[1..]);
      assert [words[0]] + words[1..] == words;
    }
  }

  /** tokenize: the scanner as one loop over the runes. */
  method TokenizeRunes(runes: string) returns (r: Words)
    ensures r == Tokenize(runes)
  {
    var tokens: seq<string>, cur, hasToken := [], "", false;
    var i, n := 0, |runes|;
    assert runes[0..] == runes;
    JoinedNothing(Tokenize(runes));
    while i < n
      invariant i <= n
      invariant Tokenize(runes) == Joined(tokens, Scan(runes[i..], cur, hasToken))
      invariant !hasToken ==> cur == ""
    {
      var c := runes[i];
      assert runes[i..][1..] == runes[i + 1..];
      assert i + 1 < n ==> runes[i..][2..] == runes[i + 2..];
      if c == '\\' && i + 1 < n && runes[i + 1] == '\n' {
        i := i + 2;
      } else if c == '\\' && i + 1 < n {
        cur := cur + [runes[i + 1]];
        hasToken := true;
        i := i + 2;
      } else if c == '\'' {
        hasToken := true;
        i := i + 1;
        while i < n && runes[i] != '\''
          invariant i <= n
          invariant Tokenize(runes) == Joined(tokens, ScanSingle(runes[i..], cur))
          decreases n - i
        {
          assert runes[i..][1..] == runes[i + 1..];
          cur := cur + [runes[i]];
          i := i + 1;
        }
        if i >= n {
          return Err("unterminated single quote");
        }
        assert runes[i..][1..] == runes[i + 1..];
        i := i + 1;
      } else if c == '"' {
        hasToken := true;
        i := i + 1;
        while i < n && runes[i] != '"'
          invariant i <= n
          invariant Tokenize(runes) == Joined(tokens, ScanDouble(runes[i..], cur))
          decreases n - i
        {
          assert runes[i..][1..] == runes[i + 1..];
          assert i + 1 < n ==> runes[i..][2..] == runes[i + 2..];
          if runes[i] == '\\' && i + 1 < n && runes[i + 1] in ESCAPABLE {
            cur := cur + [runes[i + 1]];
            i := i + 2;
          } else {
            cur := cur + [runes[i]];
            i := i + 1;
          }
        }
        if i >= n {
          return Err("unterminated double quote");
        }
        assert runes[i..][1..] == runes[i + 1..];
        i := i + 1;
      } else if IsBlank(c) {
        if hasToken {
          JoinedPrepend(tokens, cur, Scan(runes[i + 1..], "", false));
          tokens := tokens + [cur];
          cur := "";
          hasToken := false;
        }
        i := i + 1;
      } else {
        cur := cur + [c];
        hasToken := true;
        i := i + 1;
      }
    }
    if hasToken {
      tokens := tokens + [cur];
    }
    assert tokens + [] == tokens;
    return Ok(tokens);
  }

  function Joined(words: seq<string>, rest: Words): Words
  {
    match rest
    case Ok(more) => Ok(words + more)
    case Err(e) => Err(e)
  }

  lemma JoinedNothing(rest: Words)
    ensures Joined([], rest) == rest
  {
    assert rest.Ok? ==> [] + rest.value == rest.value;
  }

  lemma JoinedPrepend(words: seq<string>, word: string, rest: Words)
    ensures Joined(words, Prepend(word, rest)) == Joined(words + [word], rest)
  {
    if rest.Ok? {
      assert words + ([word] + rest.value) == words + [word] + rest.value;
    }
  }
}
