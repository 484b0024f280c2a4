/** The bytes a licence's signature covers, and a reader that takes them apart again. */
module License {
  import opened Common

  type Byte = b: int | 0 <= b < 256

  type Bytes = seq<Byte>

  const U32: int := 0x1_0000_0000

  /** A UTC time at second precision. */
  datatype Instant = Instant(year: int, month: nat, day: nat, hour: nat, minute: nat, second: nat)
  {
    predicate Valid() {
      1 <= month <= 12 && 1 <= day <= 31 && hour < 24 && minute < 60 && second < 60
    }
  }

  type Time = t: Instant | t.Valid() witness Instant(1, 1, 1, 0, 0, 0)

  datatype License = License(
    licenseKey: Bytes, email: Bytes, name: Bytes, plan: Bytes, machineId: Bytes,
    maxMachines: int, machineCount: int, issuedAt: Time, expiresUpdatesAt: Time)

  // ---- Numbers as text ------------------------------------------------------

  const ZERO: Byte := 48

  const MINUS: Byte := 45

  predicate IsDigit(b: Byte)
  {
    48 <= b <= 57
  }

  function Digits(n: nat): (d: Bytes)
    ensures d != [] && forall i :: 0 <= i < |d| ==> IsDigit(d[i])
  {
    if n < 10 then [ZERO + n] else Digits(n / 10) + [ZERO + n % 10]
  }

  function Value(d: Bytes): int
  {
    if d == [] then 0 else Value(d[..|d| - 1]) * 10 + (d[|d| - 1] - ZERO)
  }

  /** strconv.Itoa. */
  function Itoa(n: int): Bytes
  {
    if n < 0 then [MINUS] + Digits(-n) else Digits(n)
  }

  function Atoi(s: Bytes): int
  {
    if s != [] && s[0] == MINUS then -Value(s[1..]) else Value(s)
  }

  function Zeros(n: nat): (z: Bytes)
    ensures |z| == n
  {
    seq(n, _ => ZERO)
  }

  /** The digits of a padded number. */
  function Body(n: int, width: nat): Bytes
  {
    var d := Digits(if n < 0 then -n else n);
    if |d| < width then Zeros(width - |d|) + d else d
  }

  /** A number padded with zeros to at least `width` digits, its sign in front. */
  function Padded(n: int, width: nat): Bytes
  {
    (if n < 0 then [MINUS] else []) + Body(n, width)
  }

  lemma {:induction false} ValueOfDigits(n: nat)
    ensures Value(Digits(n)) == n
  {
    if n >= 10 {
      ValueOfDigits(n / 10);
      assert Digits(n)[..|Digits(n)| - 1] == Digits(n / 10);
    } else {
      assert Digits(n)[..0] == [];
    }
  }

  lemma {:induction false} ValueOfZeros(k: nat, d: Bytes)
    ensures Value(Zeros(k) + d) == Value(d)
    decreases |d|, k
  {
    if d == [] {
      assert Zeros(k) + d == Zeros(k);
      if k > 0 {
        ValueOfZeros(k - 1, []);
        assert Zeros(k)[..k - 1] == Zeros(k - 1) + [];
      }
    } else {
      var n := |d| - 1;
      assert (Zeros(k) + d)[..k + n] == Zeros(k) + d[..n];
      ValueOfZeros(k, d[..n]);
    }
  }

  lemma AtoiOfItoa(n: int)
    ensures Atoi(Itoa(n)) == n
  {
    ValueOfDigits(if n < 0 then -n else n);
    assert n < 0 ==> Itoa(n)[1..] == Digits(-n);
  }

  lemma BodyIs(n: int, width: nat)
    ensures Value(Body(n, width)) == (if n < 0 then -n else n) && |Body(n, width)| >= width && Body(n, width) != []
    ensures forall i :: 0 <= i < |Body(n, width)| ==> IsDigit(Body(n, width)[i])
  {
    var d := Digits(if n < 0 then -n else n);
    ValueOfDigits(if n < 0 then -n else n);
    if |d| < width {
      ValueOfZeros(width - |d|, d);
    }
  }

  lemma AtoiOfPadded(n: int, width: nat)
    ensures Atoi(Padded(n, width)) == n && Padded(n, width) != []
  {
    var body := Body(n, width);
    BodyIs(n, width);
    if n < 0 {
      assert Padded(n, width)[1..] == body;
    } else {
      assert Padded(n, width) == body && IsDigit(body[0]);
    }
  }

  // ---- RFC 3339 -------------------------------------------------------------

  /** Two digits. */
  function Two(n: nat): (d: Bytes)
    requires n < 100
    ensures |d| == 2
  {
    [ZERO + n / 10, ZERO + n % 10]
  }

  function ReadTwo(s: Bytes, i: nat): (n: nat)
    requires i + 2 <= |s|
  {
    var a: int, b: int := s[i], s[i + 1];
    if a < ZERO || b < ZERO then 0 else (a - ZERO) * 10 + (b - ZERO)
  }

  lemma ReadTwoBack(s: Bytes, i: nat, n: nat)
    requires n < 100 && i + 2 <= |s| && s[i..i + 2] == Two(n)
    ensures ReadTwo(s, i) == n
  {
    assert s[i] == s[i..i + 2][0] && s[i + 1] == s[i..i + 2][1];
  }

  /** "-MM-DDTHH:MM:SSZ" */
  function AfterYear(t: Time): (d: Bytes)
    ensures |d| == 16
  {
    [MINUS] + Two(t.month) + [MINUS] + Two(t.day) + [84] + Two(t.hour) + [58] + Two(t.minute) +
    [58] + Two(t.second) + [90]
  }

  function Rfc3339(t: Time): Bytes
  {
    Padded(t.year, 4) + AfterYear(t)
  }

  function ReadTime(s: Bytes): Instant
    requires |s| >= 16
  {
    var y, t := s[..|s| - 16], s[|s| - 16..];
    Instant(Atoi(y), ReadTwo(t, 1), ReadTwo(t, 4), ReadTwo(t, 7), ReadTwo(t, 10), ReadTwo(t, 13))
  }

  lemma AfterYearCuts(t: Time)
    ensures var d := AfterYear(t);
      d[1..3] == Two(t.month) && d[4..6] == Two(t.day) && d[7..9] == Two(t.hour) && d[10..12] == Two(t.minute) &&
      d[13..15] == Two(t.second)
  {
    var d := AfterYear(t);
    assert d == ([MINUS] + Two(t.month)) + ([MINUS] + Two(t.day)) + ([84] + Two(t.hour)) + ([58] + Two(t.minute)) +
                ([58] + Two(t.second)) + [90];
    assert d[1] == Two(t.month)[0] && d[2] == Two(t.month)[1];
    assert d[4] == Two(t.day)[0] && d[5] == Two(t.day)[1];
    assert d[7] == Two(t.hour)[0] && d[8] == Two(t.hour)[1];
    assert d[10] == Two(t.minute)[0] && d[11] == Two(t.minute)[1];
    assert d[13] == Two(t.second)[0] && d[14] == Two(t.second)[1];
  }

  lemma TimeRoundTrip(t: Time)
    ensures |Rfc3339(t)| >= 16 && ReadTime(Rfc3339(t)) == t
  {
    var s, d := Rfc3339(t), AfterYear(t);
    AtoiOfPadded(t.year, 4);
    assert s[..|s| - 16] == Padded(t.year, 4) && s[|s| - 16..] == d;
    AfterYearCuts(t);
    ReadTwoBack(d, 1, t.month);
    ReadTwoBack(d, 4, t.day);
    ReadTwoBack(d, 7, t.hour);
    ReadTwoBack(d, 10, t.minute);
    ReadTwoBack(d, 13, t.second);
  }

  // ---- canonicalBytes -------------------------------------------------------

  /** binary.BigEndian.PutUint32. */
  function BigEndian(n: nat): (b: Bytes)
    requires n < U32
    ensures |b| == 4
  {
    [n / 0x100_0000, n / 0x1_0000 % 256, n / 256 % 256, n % 256]
  }

  function ReadBigEndian(s: Bytes): (n: nat)
    requires |s| >= 4
  {
    var a: int, b: int, c: int, d: int := s[0], s[1], s[2], s[3];
    a * 0x100_0000 + b * 0x1_0000 + c * 256 + d
  }

  lemma BigEndianRoundTrip(n: nat)
    requires n < U32
    ensures ReadBigEndian(BigEndian(n)) == n
  {
    assert n / 256 / 256 == n / 0x1_0000 && n / 0x1_0000 / 256 == n / 0x100_0000;
  }

  /** The length is cut to 32 bits, as the source's conversion does. */
  function Field(s: Bytes): Bytes
  {
    BigEndian(|s| % U32) + s
  }

  /** "AUK-LICENSE-v1\n" */
  const TAG: Bytes := [65, 85, 75, 45, 76, 73, 67, 69, 78, 83, 69, 45, 118, 49, 10]

  function FieldsOf(l: License): (fs: seq<Bytes>)
    ensures |fs| == 9
  {
    [l.licenseKey, l.email, l.name, l.plan, l.machineId, Itoa(l.maxMachines), Itoa(l.machineCount),
     Rfc3339(l.issuedAt), Rfc3339(l.expiresUpdatesAt)]
  }

  /** What is written for each field, one after the other. */
  function Gathered(write: Bytes -> Bytes, fs: seq<Bytes>): Bytes
  {
    if fs == [] then [] else Gathered(write, fs[..|fs| - 1]) + write(fs[|fs| - 1])
  }

  function Fields(fs: seq<Bytes>): Bytes
  {
    Gathered(Field, fs)
  }

  function CanonicalBytes(l: License): Bytes
  {
    TAG + Fields(FieldsOf(l))
  }

  // ---- Reading the bytes back -----------------------------------------------

  /** Takes n length-prefixed fields off the front; nothing may be left over. */
  function ReadFields(s: Bytes, n: nat): Option<seq<Bytes>>
    decreases n
  {
    if n == 0 then if s == [] then Some([]) else None
    else if |s| < 4 || |s| < 4 + ReadBigEndian(s) then None
    else
      var k := ReadBigEndian(s);
      var rest := ReadFields(s[4 + k..], n - 1);
      if rest.None? then None else Some([s[4..4 + k]] + rest.value)
  }

  /** "2006-01-02T15:04:05Z", with a year of any length. */
  predicate IsTime(s: Bytes)
  {
    |s| >= 20 && ReadTime(s).Valid() && HasMark(s, 16, '-') && HasMark(s, 13, '-') && HasMark(s, 10, 'T') &&
    HasMark(s, 7, ':') && HasMark(s, 4, ':') && HasMark(s, 1, 'Z')
  }

  /** The n-th byte from the end is this ASCII character. */
  predicate HasMark(s: Bytes, n: nat, c: char)
    requires 0 < n <= |s|
  {
    s[|s| - n] as int == c as int
  }

  const HEADING := "AUK-LICENSE-v1\n"

  predicate HasHeading(s: Bytes)
  {
    |s| >= 15 && forall i :: 0 <= i < 15 ==> s[i] as int == HEADING[i] as int
  }

  function ReadLicense(s: Bytes): Option<License>
  {
    if !HasHeading(s) then None
    else
      var fs := ReadFields(s[15..], 9);
      if fs.None? || |fs.value| != 9 || !IsTime(fs.value[7]) || !IsTime(fs.value[8]) then None
      else
        var f := fs.value;
        Some(License(f[0], f[1], f[2], f[3], f[4], Atoi(f[5]), Atoi(f[6]), ReadTime(f[7]), ReadTime(f[8])))
  }

  predicate AllShort(fs: seq<Bytes>)
  {
    forall i :: 0 <= i < |fs| ==> |fs[i]| < 0x1_0000_0000
  }

  lemma GatheredNext(write: Bytes -> Bytes, fs: seq<Bytes>, f: Bytes)
    ensures Gathered(write, fs + [f]) == Gathered(write, fs) + write(f)
  {
    assert (fs + [f])[..|fs|] == fs;
  }

  lemma {:induction false} GatheredSplit(write: Bytes -> Bytes, a: seq<Bytes>, b: seq<Bytes>)
    ensures Gathered(write, a + b) == Gathered(write, a) + Gathered(write, b)
    decreases |b|
  {
    if b == [] {
      assert a + b == a;
    } else {
      var front, last := b[..|b| - 1], b[|b| - 1];
      assert b == front + [last] && a + b == (a + front) + [last];
      GatheredSplit(write, a, front);
      GatheredNext(write, a + front, last);
      GatheredNext(write, front, last);
      SumsAssociate(Gathered(write, a), Gathered(write, front), write(last));
    }
  }

  lemma FieldsFromFront(fs: seq<Bytes>)
    requires fs != []
    ensures Fields(fs) == Field(fs[0]) + Fields(fs[1..])
  {
    assert fs == [fs[0]] + fs[1..] && [] + [fs[0]] == [fs[0]];
    GatheredSplit(Field, [fs[0]], fs[1..]);
    GatheredNext(Field, [], fs[0]);
  }

  /** Length prefixes mark every boundary, whatever the fields hold. */
  lemma {:induction false} FieldsRoundTrip(fs: seq<Bytes>)
    requires AllShort(fs)
    ensures ReadFields(Fields(fs), |fs|) == Some(fs)
    decreases |fs|
  {
    if fs != [] {
      FieldsFromFront(fs);
      FieldReadBack(fs[0], Fields(fs[1..]));
      FieldsRoundTrip(fs[1..]);
      assert fs == [fs[0]] + fs[1..];
    }
  }

  lemma FieldReadBack(f: Bytes, rest: Bytes)
    requires |f| < U32
    ensures var s := Field(f) + rest;
      |s| >= 4 + |f| && ReadBigEndian(s) == |f| && s[4..4 + |f|] == f && s[4 + |f|..] == rest
  {
    BigEndianRoundTrip(|f|);
    ThreeCuts(BigEndian(|f|), f, rest);
    FrontDecides(Field(f) + rest);
  }

  lemma ThreeCuts(a: Bytes, b: Bytes, c: Bytes)
    ensures (a + b + c)[..|a|] == a && (a + b + c)[|a|..|a| + |b|] == b && (a + b + c)[|a| + |b|..] == c
  {
  }

  lemma FrontDecides(s: Bytes)
    requires |s| >= 4
    ensures ReadBigEndian(s) == ReadBigEndian(s[..4])
  {
  }

  predicate Valid(l: License)
  {
    AllShort(FieldsOf(l))
  }

  lemma TagIsHeading(rest: Bytes)
    ensures HasHeading(TAG + rest) && (TAG + rest)[15..] == rest
  {
    assert HEADING == ['A', 'U', 'K', '-', 'L', 'I', 'C', 'E', 'N', 'S', 'E', '-', 'v', '1', '\n'];
    assert forall i :: 0 <= i < 15 ==> (TAG + rest)[i] == TAG[i];
  }

  lemma TimeIsRead(t: Time)
    ensures IsTime(Rfc3339(t)) && ReadTime(Rfc3339(t)) == t
  {
    var s, d := Rfc3339(t), AfterYear(t);
    BodyIs(t.year, 4);
    TimeRoundTrip(t);
    MarksAre(t);
    assert s[|s| - 16..] == d;
  }

  lemma MarksAre(t: Time)
    ensures var d := AfterYear(t);
      d[0] == 45 && d[3] == 45 && d[6] == 84 && d[9] == 58 && d[12] == 58 && d[15] == 90
  {
  }

  /** The signed bytes give back every field. */
  lemma LicenseRoundTrip(l: License)
    requires Valid(l)
    ensures ReadLicense(CanonicalBytes(l)) == Some(l)
  {
    var fs := FieldsOf(l);
    TagIsHeading(Fields(fs));
    FieldsRoundTrip(fs);
    AtoiOfItoa(l.maxMachines);
    AtoiOfItoa(l.machineCount);
    TimeIsRead(l.issuedAt);
    TimeIsRead(l.expiresUpdatesAt);
  }

  /** So no two such licences are signed by the same bytes. */
  lemma SameBytesSameLicense(a: License, b: License)
    requires Valid(a) && Valid(b) && CanonicalBytes(a) == CanonicalBytes(b)
    ensures a == b
  {
    LicenseRoundTrip(a);
    LicenseRoundTrip(b);
  }

  /** The bound is needed: a field of 2^32 zero bytes has the length prefix of an empty one. */
  lemma LongFieldsCollide(l: License) returns (a: License, b: License)
    ensures a != b && CanonicalBytes(a) == CanonicalBytes(b)
    ensures |a.licenseKey| == 0x1_0000_0000 && forall i :: 0 <= i < 0x1_0000_0000 ==> a.licenseKey[i] == 0
    ensures a == l.(licenseKey := a.licenseKey, email := []) && b == l.(licenseKey := [], email := a.licenseKey)
  {
    var z: Bytes := seq(U32, _ => 0);
    a, b := l.(licenseKey := z, email := []), l.(licenseKey := [], email := z);
    assert |z| == U32 && z != [];
    PairCollides(z);
    var fa, fb := FieldsOf(a), FieldsOf(b);
    assert fa[..2] == [z, []] && fb[..2] == [[], z] && fa[2..] == fb[2..];
    GatheredSplit(Field, fa[..2], fa[2..]);
    GatheredSplit(Field, fb[..2], fb[2..]);
    assert fa == fa[..2] + fa[2..] && fb == fb[..2] + fb[2..];
  }

  /** All fields are shorter than n bytes. */
  predicate Shorter(l: License, n: nat)
  {
    forall i :: 0 <= i < 9 ==> |FieldsOf(l)[i]| < n
  }

  /** Equal signed bytes mean equal licences, as long as fields are shorter than n. */
  ghost predicate TellsApart(n: nat)
  {
    forall a, b :: Shorter(a, n) && Shorter(b, n) && CanonicalBytes(a) == CanonicalBytes(b) ==> a == b
  }

  /** The bound is exact: 2^32 is the longest length bound under which the bytes determine the licence. */
  lemma TellsApartIff(n: nat)
    ensures TellsApart(n) <==> n <= 0x1_0000_0000
  {
    if n <= U32 {
      forall a, b | Shorter(a, n) && Shorter(b, n) && CanonicalBytes(a) == CanonicalBytes(b) ensures a == b {
        SameBytesSameLicense(a, b);
      }
    } else {
      var l := License([], [], [], [], [], 0, 0, Instant(1, 1, 1, 0, 0, 0), Instant(1, 1, 1, 0, 0, 0));
      SmallLicense(l);
      var a, b := LongFieldsCollide(l);
      assert Shorter(a, n) && Shorter(b, n);
    }
  }

  lemma SmallLicense(l: License)
    requires l.maxMachines == l.machineCount == 0 && l.issuedAt.year == l.expiresUpdatesAt.year == 1
    ensures |Itoa(l.maxMachines)| == |Itoa(l.machineCount)| == 1
    ensures |Rfc3339(l.issuedAt)| == |Rfc3339(l.expiresUpdatesAt)| == 20
  {
    assert |Digits(1)| == 1;
  }

  lemma PairCollides(z: Bytes)
    requires |z| == U32 && forall i :: 0 <= i < |z| ==> z[i] == 0
    ensures Fields([z, []]) == Fields([[], z])
  {
    var none: Bytes := [0, 0, 0, 0];
    assert Field(z) == none + z && Field([]) == none;
    FieldsFromFront([z, []]);
    FieldsFromFront([[], z]);
    assert [z, []][1..] == [[]] && [[], z][1..] == [z];
    FieldsFromFront([[]]);
    FieldsFromFront([z]);
    assert Fields([[]]) == none && Fields([z]) == none + z;
    assert none + z + none == none + (none + z);
  }

  // ---- The buffer -----------------------------------------------------------

  class Buffer {
    var data: Bytes
    ghost var written: seq<Bytes>

    ghost predicate Valid()
      reads this
    {
      data == TAG + Fields(written)
    }

    constructor ()
      ensures Valid() && written == []
    {
      data, written := TAG, [];
    }

    method WriteField(s: Bytes)
      requires Valid()
      modifies this
      ensures Valid() && written == old(written) + [s]
    {
      GatheredNext(Field, written, s);
      data := data + BigEndian(|s| % U32);
      data := data + s;
      written := written + [s];
    }
  }

  method WriteLicense(l: License) returns (bytes: Bytes)
    ensures bytes == CanonicalBytes(l)
  {
    var buf := new Buffer();
    buf.WriteField(l.licenseKey);
    buf.WriteField(l.email);
    buf.WriteField(l.name);
    buf.WriteField(l.plan);
    buf.WriteField(l.machineId);
    buf.WriteField(Itoa(l.maxMachines));
    buf.WriteField(Itoa(l.machineCount));
    buf.WriteField(Rfc3339(l.issuedAt));
    buf.WriteField(Rfc3339(l.expiresUpdatesAt));
    assert buf.written == FieldsOf(l);
    bytes := buf.data;
  }
}
