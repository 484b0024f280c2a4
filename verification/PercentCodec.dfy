/** Percent-encoding of single path segments, and splitting at separators. Strings are sequences of bytes. */
module PercentCodec {
  import opened Common

  /** One byte of a Go string. */
  type Byte = c: char | (c as int) < 256 witness 'a'

  type Bytes = seq<Byte>

  /** RFC 3986, section 2.3. */
  predicate Unreserved(c: char)
  {
    'a' <= c <= 'z' || 'A' <= c <= 'Z' || '0' <= c <= '9' || c == '-' || c == '.' || c == '_' || c == '~'
  }

  function HexDigit(n: nat): Byte
    requires n < 16
  {
    if n < 10 then ('0' as int + n) as char else ('A' as int + (n - 10)) as char
  }

  function HexValue(c: char): Option<nat>
  {
    if '0' <= c <= '9' then Some(c as int - '0' as int)
    else if 'A' <= c <= 'F' then Some(c as int - 'A' as int + 10)
    else if 'a' <= c <= 'f' then Some(c as int - 'a' as int + 10)
    else None
  }

  function EscapeByte(c: Byte): Bytes
  {
    if Unreserved(c) then [c] else ['%', HexDigit(c as int / 16), HexDigit(c as int % 16)]
  }

  /** escapePathSegment and awsURIEncode: everything but unreserved bytes, byte by byte. */
  function Escape(s: Bytes): Bytes
  {
    if s == [] then [] else EscapeByte(s[0]) + Escape(s[1..])
  }

  /** url.PathUnescape; a "%" without two hex digits is an error. */
  function Unescape(s: Bytes): Option<Bytes>
    decreases |s|
  {
    if s == [] then Some([])
    else if s[0] != '%' then Prefixed(s[0], Unescape(s[1..]))
    else if |s| < 3 || HexValue(s[1]).None? || HexValue(s[2]).None? then None
    else Prefixed((HexValue(s[1]).value * 16 + HexValue(s[2]).value) as char, Unescape(s[3..]))
  }

  function Prefixed(c: Byte, rest: Option<Bytes>): Option<Bytes>
  {
    if rest.None? then None else Some([c] + rest.value)
  }

  const HEX := "0123456789ABCDEF"

  /** A letter, a digit or one of - . _ ~ by its code. */
  predicate SafeCode(n: int)
  {
    65 <= n <= 90 || 97 <= n <= 122 || 48 <= n <= 57 || n == 45 || n == 46 || n == 95 || n == 126
  }

  lemma HexDigitIs(n: nat)
    requires n < 16
    ensures HexDigit(n) == HEX[n]
  {
    assert HEX == ['0', '1', '2', '3', '4', '5', '6', '7', '8', '9', 'A', 'B', 'C', 'D', 'E', 'F'];
  }

  /** Safe bytes stand for themselves; any other is a percent sign and its two digits in capitals. */
  lemma EscapeByteIs(c: Byte)
    ensures if SafeCode(c as int) then EscapeByte(c) == [c]
            else EscapeByte(c) == ['%', HEX[c as int / 16], HEX[c as int % 16]]
  {
    HexDigitIs(c as int / 16);
    HexDigitIs(c as int % 16);
  }

  lemma HexRoundTrip(n: nat)
    requires n < 16
    ensures HexValue(HexDigit(n)) == Some(n)
  {
  }

  lemma UnescapeEscaped(c: Byte, rest: Bytes)
    ensures Unescape(EscapeByte(c) + rest) == Prefixed(c, Unescape(rest))
  {
    var s := EscapeByte(c) + rest;
    if Unreserved(c) {
      assert s[1..] == rest;
    } else {
      HexRoundTrip(c as int / 16);
      HexRoundTrip(c as int % 16);
      assert s[3..] == rest;
    }
  }

  /** Every byte string is read back from its encoding. */
  lemma {:induction false} EscapeRoundTrip(s: Bytes)
    ensures Unescape(Escape(s)) == Some(s)
    decreases |s|
  {
    if s != [] {
      UnescapeEscaped(s[0], Escape(s[1..]));
      EscapeRoundTrip(s[1..]);
      assert [s[0]] + s[1..] == s;
    }
  }

  /** An encoding holds only unreserved bytes and "%". */
  lemma {:induction false} EscapedBytes(s: Bytes)
    ensures forall i :: 0 <= i < |Escape(s)| ==> Unreserved(Escape(s)[i]) || Escape(s)[i] == '%'
    ensures |Escape(s)| >= |s|
    decreases |s|
  {
    if s != [] {
      EscapedBytes(s[1..]);
    }
  }

  lemma EscapeNext(done: Bytes, v: Bytes, i: nat)
    requires i < |v|
    ensures done + Escape(v[i..]) == done + EscapeByte(v[i]) + Escape(v[i + 1..])
  {
    assert v[i..][1..] == v[i + 1..];
  }

  method WriteByte(b: Bytes, c: Byte) returns (r: Bytes)
    ensures r == b + EscapeByte(c)
  {
    if Unreserved(c) {
      return b + [c];
    }
    r := b + ['%'];
    r := r + [HexDigit(c as int / 16)];
    r := r + [HexDigit(c as int % 16)];
  }

  /** The builder loop both encoders run. */
  method EscapeBytes(v: Bytes) returns (b: Bytes)
    ensures b == Escape(v)
  {
    b := [];
    for i := 0 to |v|
      invariant b + Escape(v[i..]) == Escape(v)
    {
      EscapeNext(b, v, i);
      b := WriteByte(b, v[i]);
    }
  }

  // ---- strings.Split and its inverse -----------------------------------------

  function Split(s: Bytes, sep: Byte): (parts: seq<Bytes>)
    ensures |parts| >= 1
    decreases |s|
  {
    var i := IndexOf(s, sep);
    if i == |s| then [s] else [s[..i]] + Split(s[i + 1..], sep)
  }

  predicate NoneHas(parts: seq<Bytes>, c: Byte)
  {
    forall i :: 0 <= i < |parts| ==> c !in parts[i]
  }

  lemma IndexOfIs(s: Bytes, c: Byte, i: nat)
    requires i <= |s| && (i < |s| ==> s[i] == c) && forall j :: 0 <= j < i ==> s[j] != c
    ensures IndexOf(s, c) == i
  {
  }

  lemma SplitAt(s: Bytes, sep: Byte, p: Bytes, rest: Bytes)
    requires sep !in p && s == p + [sep] + rest
    ensures Split(s, sep) == [p] + Split(rest, sep)
  {
    assert forall j :: 0 <= j < |p| ==> s[j] == p[j] && p[j] in p;
    IndexOfIs(s, sep, |p|);
    assert s[..|p|] == p && s[|p| + 1..] == rest;
  }

  lemma {:induction false} SplitParts(s: Bytes, sep: Byte)
    ensures NoneHas(Split(s, sep), sep) && Join<Byte>(Split(s, sep), [sep]) == s
    decreases |s|
  {
    var i := IndexOf(s, sep);
    if i < |s| {
      var p, rest := s[..i], s[i + 1..];
      assert s == p + [sep] + rest && sep !in p;
      SplitParts(rest, sep);
      SplitAt(s, sep, p, rest);
      assert ([p] + Split(rest, sep))[1..] == Split(rest, sep);
    }
  }

  lemma {:induction false} SplitJoin(parts: seq<Bytes>, sep: Byte)
    requires parts != [] && NoneHas(parts, sep)
    ensures Split(Join<Byte>(parts, [sep]), sep) == parts
    decreases |parts|
  {
    var s, p := Join<Byte>(parts, [sep]), parts[0];
    if |parts| == 1 {
      IndexOfIs(s, sep, |s|);
      assert parts == [p];
    } else {
      SplitAt(s, sep, p, Join<Byte>(parts[1..], [sep]));
      SplitJoin(parts[1..], sep);
      assert parts == [p] + parts[1..];
    }
  }
}
