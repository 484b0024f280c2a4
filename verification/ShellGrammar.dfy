/** What the word splitter reads, stated on the ways a shell word can be written. */
module ShellGrammar {
  import opened Common
  import opened ShellWords

  /** One character between double quotes, as it is or behind a backslash. */
  datatype Mark = Char(c: char) | Escape(c: char)

  /** A part of a word; a joint is a backslash before a line feed. */
  datatype Piece = Bare(c: char) | Slash(c: char) | Joint | Single(text: string) | Double(marks: seq<Mark>)

  predicate IsEscapable(c: char)
  {
    c == '"' || c == '\\' || c == '$' || c == '`' || c == '\n'
  }

  function MarkText(marks: seq<Mark>): string
  {
    if marks == [] then "" else (if marks[0].Escape? then ['\\', marks[0].c] else [marks[0].c]) + MarkText(marks[1..])
  }

  function MarkMeaning(marks: seq<Mark>): string
  {
    if marks == [] then "" else [marks[0].c] + MarkMeaning(marks[1..])
  }

  /** A backslash stands for itself only before a character it cannot escape. */
  predicate MarksOk(marks: seq<Mark>)
  {
    marks != [] ==>
      (if marks[0].Escape? then IsEscapable(marks[0].c)
       else marks[0].c != '"' && (marks[0].c == '\\' ==> |marks| > 1 && marks[1].Char? && !IsEscapable(marks[1].c))) &&
      MarksOk(marks[1..])
  }

  function Written(p: Piece): string
  {
    match p
    case Bare(c) => [c]
    case Slash(c) => ['\\', c]
    case Joint => ['\\', '\n']
    case Single(text) => "'" + text + "'"
    case Double(marks) => "\"" + MarkText(marks) + "\""
  }

  function Meaning(p: Piece): string
  {
    match p
    case Bare(c) => [c]
    case Slash(c) => [c]
    case Joint => ""
    case Single(text) => text
    case Double(marks) => MarkMeaning(marks)
  }

  predicate PieceOk(p: Piece)
  {
    match p
    case Bare(c) => c != '\\' && c != '\'' && c != '"' && c != ' ' && c != '\t' && c != '\n' && c != '\r'
    case Slash(c) => c != '\n'
    case Joint => true
    case Single(text) => '\'' !in text
    case Double(marks) => MarksOk(marks)
  }

  function WordText(word: seq<Piece>): string
  {
    if word == [] then "" else Written(word[0]) + WordText(word[1..])
  }

  function WordMeaning(word: seq<Piece>): string
  {
    if word == [] then "" else Meaning(word[0]) + WordMeaning(word[1..])
  }

  predicate WordOk(word: seq<Piece>)
  {
    forall p :: p in word ==> PieceOk(p)
  }

  /** A word is there, were it empty, as soon as it has something other than a joint. */
  predicate Begun(word: seq<Piece>)
  {
    exists p :: p in word && !p.Joint?
  }

  /** Blanks and joints. */
  predicate IsGap(s: string)
    decreases |s|
  {
    s == "" || (s[0] in " \t\n\r" && IsGap(s[1..])) || (|s| > 1 && s[0] == '\\' && s[1] == '\n' && IsGap(s[2..]))
  }

  predicate HasBlank(s: string)
    decreases |s|
  {
    s != "" && (s[0] in " \t\n\r" || (|s| > 1 && HasBlank(s[2..])))
  }

  /** Each word, a gap with a blank in it before every word but the first. */
  function Line(words: seq<seq<Piece>>, gaps: seq<string>): string
    requires |gaps| == |words|
  {
    if words == [] then "" else gaps[0] + (WordText(words[0]) + Line(words[1..], gaps[1..]))
  }

  predicate LineOk(words: seq<seq<Piece>>, gaps: seq<string>)
  {
    |gaps| == |words| &&
    (forall i :: 0 <= i < |words| ==> WordOk(words[i]) && Begun(words[i])) &&
    (forall i :: 0 <= i < |gaps| ==> IsGap(gaps[i])) &&
    (forall i :: 0 < i < |gaps| ==> HasBlank(gaps[i]))
  }

  function Meanings(words: seq<seq<Piece>>): seq<string>
  {
    if words == [] then [] else [WordMeaning(words[0])] + Meanings(words[1..])
  }

  // ---- Words left as they are -----------------------------------------------

  /** An ASCII letter or digit, or one of - _ . : / @ % + = by its code. */
  predicate PlainCode(n: int)
  {
    97 <= n <= 122 || 65 <= n <= 90 || 48 <= n <= 57 || n == 45 || n == 95 || n == 46 || n == 58 || n == 47 || n == 64 ||
    n == 37 || n == 43 || n == 61
  }

  lemma PlainIs(c: char)
    ensures Plain(c) <==> PlainCode(c as int)
  {
    assert "-_.:/@%+=" == ['-', '_', '.', ':', '/', '@', '%', '+', '='];
  }

  /** A word is left as it is exactly when it has no character a shell might read otherwise. */
  lemma UnquotedIff(s: string)
    ensures ShellQuote(s) == s <==> s != "" && forall i :: 0 <= i < |s| ==> PlainCode(s[i] as int)
  {
    forall i | 0 <= i < |s| ensures Plain(s[i]) <==> PlainCode(s[i] as int) {
      PlainIs(s[i]);
    }
    EscapingGrows(s);
  }

  lemma {:induction false} EscapingGrows(s: string)
    ensures |EscapeQuotes(s)| >= |s|
  {
    if s != "" {
      EscapingGrows(s[1..]);
    }
  }

  // ---- Pieces ---------------------------------------------------------------

  lemma {:induction false} ScanSingleText(text: string, rest: string, cur: string)
    requires '\'' !in text
    ensures ScanSingle(text + "'" + rest, cur) == Scan(rest, cur + text, true)
    decreases |text|
  {
    if text == "" {
      assert text + "'" + rest == "'" + rest && cur + text == cur;
      CloseQuote(rest, cur);
    } else {
      var more := text[1..] + "'" + rest;
      assert text + "'" + rest == [text[0]] + more;
      InsideQuote(text[0], more, cur);
      ScanSingleText(text[1..], rest, cur + [text[0]]);
      assert cur + [text[0]] + text[1..] == cur + text;
    }
  }

  lemma EscapableIs(c: char)
    ensures c in ESCAPABLE <==> IsEscapable(c)
  {
    assert ESCAPABLE == ['"', '\\', '$', '`', '\n'];
  }

  lemma MarkStep(m: Mark, rest: string, cur: string)
    requires if m.Escape? then IsEscapable(m.c) else m.c != '"' && (m.c == '\\' ==> rest != "" && !IsEscapable(rest[0]))
    ensures ScanDouble((if m.Escape? then ['\\', m.c] else [m.c]) + rest, cur) == ScanDouble(rest, cur + [m.c])
  {
    var s := (if m.Escape? then ['\\', m.c] else [m.c]) + rest;
    if m.Escape? {
      EscapableIs(m.c);
      assert s[0] == '\\' && s[1] == m.c && s[2..] == rest;
    } else {
      assert s[0] == m.c && s[1..] == rest;
      if |s| > 1 {
        EscapableIs(s[1]);
        assert s[1] == rest[0];
      }
    }
  }

  lemma {:induction false} ScanMarks(marks: seq<Mark>, rest: string, cur: string)
    requires MarksOk(marks)
    ensures ScanDouble(MarkText(marks) + "\"" + rest, cur) == Scan(rest, cur + MarkMeaning(marks), true)
    decreases |marks|
  {
    if marks == [] {
      var s := MarkText(marks) + "\"" + rest;
      assert s[0] == '"' && s[1..] == rest && cur + MarkMeaning(marks) == cur;
    } else {
      var first := if marks[0].Escape? then ['\\', marks[0].c] else [marks[0].c];
      var more := MarkText(marks[1..]) + "\"" + rest;
      assert MarkText(marks) + "\"" + rest == first + more;
      assert |marks| > 1 && marks[1].Char? ==> more[0] == marks[1].c;
      MarkStep(marks[0], more, cur);
      ScanMarks(marks[1..], rest, cur + [marks[0].c]);
      assert cur + [marks[0].c] + MarkMeaning(marks[1..]) == cur + MarkMeaning(marks);
    }
  }

  lemma ScanQuotedPiece(p: Piece, rest: string, cur: string, has: bool)
    requires PieceOk(p) && (p.Single? || p.Double?)
    ensures Scan(Written(p) + rest, cur, has) == Scan(rest, cur + Meaning(p), true)
  {
    var s := Written(p) + rest;
    if p.Single? {
      assert s == "'" + (p.text + "'" + rest);
      OpenQuote(p.text + "'" + rest, cur, has);
      ScanSingleText(p.text, rest, cur);
    } else {
      assert s[0] == '"' && s[1..] == MarkText(p.marks) + "\"" + rest;
      ScanMarks(p.marks, rest, cur);
    }
  }

  lemma ScanOnePiece(p: Piece, rest: string, cur: string, has: bool)
    requires PieceOk(p) && !p.Single? && !p.Double?
    ensures Scan(Written(p) + rest, cur, has) == Scan(rest, cur + Meaning(p), has || !p.Joint?)
  {
    var s := Written(p) + rest;
    if p.Bare? {
      assert s[0] == p.c && s[1..] == rest;
    } else {
      assert s[0] == '\\' && s[1] == Written(p)[1] && s[2..] == rest;
      assert cur + "" == cur;
    }
  }

  /** Each part of a word adds what it means and starts the word, joints aside. */
  lemma ScanPiece(p: Piece, rest: string, cur: string, has: bool)
    requires PieceOk(p)
    ensures Scan(Written(p) + rest, cur, has) == Scan(rest, cur + Meaning(p), has || !p.Joint?)
  {
    if p.Single? || p.Double? {
      ScanQuotedPiece(p, rest, cur, has);
    } else {
      ScanOnePiece(p, rest, cur, has);
    }
  }

  lemma {:induction false} ScanWord(word: seq<Piece>, rest: string, cur: string, has: bool)
    requires WordOk(word)
    ensures Scan(WordText(word) + rest, cur, has) == Scan(rest, cur + WordMeaning(word), has || Begun(word))
    decreases |word|
  {
    if word == [] {
      assert WordText(word) + rest == rest && cur + WordMeaning(word) == cur;
    } else {
      var p, more := word[0], word[1..];
      assert WordText(word) + rest == Written(p) + (WordText(more) + rest);
      ScanPiece(p, WordText(more) + rest, cur, has);
      ScanWord(more, rest, cur + Meaning(p), has || !p.Joint?);
      assert cur + Meaning(p) + WordMeaning(more) == cur + WordMeaning(word);
      assert Begun(word) <==> !p.Joint? || Begun(more) by {
        assert word == [p] + more;
      }
    }
  }

  /** A gap ends the word before it when it has a blank. */
  lemma {:induction false} ScanGap(gap: string, rest: string, cur: string, has: bool)
    requires IsGap(gap) && (!has ==> cur == "")
    ensures has && HasBlank(gap) ==> Scan(gap + rest, cur, has) == Prepend(cur, Scan(rest, "", false))
    ensures !has || !HasBlank(gap) ==> Scan(gap + rest, cur, has) == Scan(rest, cur, has)
    decreases |gap|
  {
    var s := gap + rest;
    if gap == "" {
      assert s == rest;
    } else if gap[0] in " \t\n\r" {
      assert s[0] == gap[0] && s[1..] == gap[1..] + rest;
      ScanGap(gap[1..], rest, "", false);
    } else {
      assert s[0] == '\\' && s[1] == '\n' && s[2..] == gap[2..] + rest;
      ScanGap(gap[2..], rest, cur, has);
    }
  }

  // ---- Command lines --------------------------------------------------------

  /** What has been read of a word, and the words after it. */
  function After(cur: string, has: bool, words: seq<string>): seq<string>
  {
    if has then [cur] + words else words
  }

  lemma LineRest(words: seq<seq<Piece>>, gaps: seq<string>)
    requires LineOk(words, gaps) && words != []
    ensures LineOk(words[1..], gaps[1..]) && WordOk(words[0]) && Begun(words[0]) && IsGap(gaps[0])
    ensures |words| > 1 ==> HasBlank(gaps[1..][0])
  {
  }

  lemma ScanEnd(tail: string, cur: string, has: bool)
    requires IsGap(tail) && (!has ==> cur == "")
    ensures Scan(tail, cur, has) == Ok(After(cur, has, []))
  {
    assert tail + "" == tail;
    ScanGap(tail, "", cur, has);
    assert [cur] + [] == [cur];
  }

  /** One word, with the gap before it. */
  lemma ScanGapWord(gap: string, word: seq<Piece>, rest: string, cur: string, has: bool)
    requires IsGap(gap) && (!has ==> cur == "") && (has ==> HasBlank(gap)) && WordOk(word) && Begun(word)
    ensures var next := Scan(rest, WordMeaning(word), true);
      Scan(gap + (WordText(word) + rest), cur, has) == if has then Prepend(cur, next) else next
  {
    ScanGap(gap, WordText(word) + rest, cur, has);
    ScanWord(word, rest, "", false);
    assert "" + WordMeaning(word) == WordMeaning(word);
  }

  lemma LineSplits(words: seq<seq<Piece>>, gaps: seq<string>, tail: string)
    requires |gaps| == |words| && words != []
    ensures Line(words, gaps) + tail == gaps[0] + (WordText(words[0]) + (Line(words[1..], gaps[1..]) + tail))
    ensures Meanings(words) == [WordMeaning(words[0])] + Meanings(words[1..])
  {
    SumsAssociate(gaps[0], WordText(words[0]) + Line(words[1..], gaps[1..]), tail);
    SumsAssociate(WordText(words[0]), Line(words[1..], gaps[1..]), tail);
  }

  /** The words of `s` after `cur`. */
  predicate Reads(s: string, cur: string, has: bool, words: seq<string>)
  {
    Scan(s, cur, has) == Ok(After(cur, has, words))
  }

  lemma ScanNext(gap: string, word: seq<Piece>, rest: string, cur: string, has: bool, words: seq<string>)
    requires IsGap(gap) && (!has ==> cur == "") && (has ==> HasBlank(gap)) && WordOk(word) && Begun(word)
    requires Reads(rest, WordMeaning(word), true, words)
    ensures Reads(gap + (WordText(word) + rest), cur, has, [WordMeaning(word)] + words)
  {
    ScanGapWord(gap, word, rest, cur, has);
  }

  lemma {:induction false} ScanLine(words: seq<seq<Piece>>, gaps: seq<string>, tail: string, cur: string, has: bool)
    requires LineOk(words, gaps) && IsGap(tail) && (!has ==> cur == "")
    requires has && words != [] ==> HasBlank(gaps[0])
    ensures Reads(Line(words, gaps) + tail, cur, has, Meanings(words))
    decreases |words|
  {
    if words == [] {
      assert Line(words, gaps) + tail == tail;
      ScanEnd(tail, cur, has);
    } else {
      LineRest(words, gaps);
      LineSplits(words, gaps, tail);
      ScanLine(words[1..], gaps[1..], tail, WordMeaning(words[0]), true);
      ScanNext(gaps[0], words[0], Line(words[1..], gaps[1..]) + tail, cur, has, Meanings(words[1..]));
    }
  }

  /**
   * Words written in any mixture of bare, escaped, single- and double-quoted parts, set apart by blanks and line
   * continuations, are read as the texts they stand for.
   */
  lemma WordsAreRead(words: seq<seq<Piece>>, gaps: seq<string>, tail: string)
    requires LineOk(words, gaps) && IsGap(tail)
    ensures Tokenize(Line(words, gaps) + tail) == Ok(Meanings(words))
  {
    ScanLine(words, gaps, tail, "", false);
  }

  // ---- Open quotes ----------------------------------------------------------

  lemma {:induction false} SingleLeftOpen(text: string, cur: string)
    requires '\'' !in text
    ensures ScanSingle(text, cur) == Err("unterminated single quote")
    decreases |text|
  {
    if text != "" {
      SingleLeftOpen(text[1..], cur + [text[0]]);
    }
  }

  lemma {:induction false} DoubleLeftOpen(marks: seq<Mark>, cur: string)
    requires MarksOk(marks)
    ensures ScanDouble(MarkText(marks), cur) == Err("unterminated double quote")
    decreases |marks|
  {
    if marks != [] {
      var more := MarkText(marks[1..]);
      assert |marks| > 1 && marks[1].Char? ==> more[0] == marks[1].c;
      MarkStep(marks[0], more, cur);
      DoubleLeftOpen(marks[1..], cur + [marks[0].c]);
    }
  }

  /** A quote that is not closed is an error, whatever comes before it. */
  ghost predicate LeftOpen(quote: string, error: string)
  {
    (exists text :: quote == "'" + text && '\'' !in text && error == "unterminated single quote") ||
    (exists marks :: quote == "\"" + MarkText(marks) && MarksOk(marks) && error == "unterminated double quote")
  }

  lemma ScanOpen(quote: string, error: string, cur: string, has: bool)
    requires LeftOpen(quote, error)
    ensures Scan(quote, cur, has) == Err(error)
  {
    if text :| quote == "'" + text && '\'' !in text && error == "unterminated single quote" {
      OpenQuote(text, cur, has);
      SingleLeftOpen(text, cur);
    } else {
      var marks :| quote == "\"" + MarkText(marks) && MarksOk(marks) && error == "unterminated double quote";
      assert quote[0] == '"' && quote[1..] == MarkText(marks);
      DoubleLeftOpen(marks, cur);
    }
  }

  ghost predicate AlwaysFails(s: string, error: string)
  {
    forall cur: string, has: bool :: (has || cur == "") ==> Scan(s, cur, has) == Err(error)
  }

  lemma OpenAfter(gap: string, word: seq<Piece>, quote: string, error: string)
    requires IsGap(gap) && WordOk(word) && LeftOpen(quote, error)
    ensures AlwaysFails(gap + (WordText(word) + quote), error)
  {
    forall cur: string, has: bool | has || cur == ""
      ensures Scan(gap + (WordText(word) + quote), cur, has) == Err(error)
    {
      ScanGap(gap, WordText(word) + quote, cur, has);
      ScanWord(word, quote, cur, has);
      ScanWord(word, quote, "", false);
      ScanOpen(quote, error, cur + WordMeaning(word), has || Begun(word));
      ScanOpen(quote, error, "" + WordMeaning(word), Begun(word));
    }
  }

  lemma {:induction false} ScanToError(
      words: seq<seq<Piece>>, gaps: seq<string>, tail: string, error: string, cur: string, has: bool)
    requires LineOk(words, gaps) && (!has ==> cur == "") && (has && words != [] ==> HasBlank(gaps[0]))
    requires AlwaysFails(tail, error)
    ensures Scan(Line(words, gaps) + tail, cur, has) == Err(error)
    decreases |words|
  {
    if words == [] {
      assert Line(words, gaps) + tail == tail;
    } else {
      LineRest(words, gaps);
      LineSplits(words, gaps, tail);
      ScanToError(words[1..], gaps[1..], tail, error, WordMeaning(words[0]), true);
      ScanGapWord(gaps[0], words[0], Line(words[1..], gaps[1..]) + tail, cur, has);
    }
  }

  lemma OpenQuotesFail(
      words: seq<seq<Piece>>, gaps: seq<string>, gap: string, word: seq<Piece>, quote: string, error: string)
    requires LineOk(words, gaps) && IsGap(gap) && WordOk(word) && LeftOpen(quote, error)
    ensures Tokenize(Line(words, gaps) + (gap + (WordText(word) + quote))) == Err(error)
  {
    OpenAfter(gap, word, quote, error);
    ScanToError(words, gaps, gap + (WordText(word) + quote), error, "", false);
  }
}
