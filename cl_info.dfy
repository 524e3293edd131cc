/**
 * The parsing of OpenCL info queries that cl/source/Platform.cpp and
 * cl/source/Device.cpp share (each file has its own copy of the helpers):
 * a NUL-terminated string out of the returned bytes, the space-separated
 * extension list, the profile name and the `OpenCL <major>.<minor> <info>`
 * version string as `sscanf` reads it.
 *
 * A failed `assert` of the source is `None`. Characters are the byte
 * values 0 to 255.
 */
module ClInfo {
  import opened Wrappers
  import opened CType
  import Util

  type byte = Util.byte

  function CharOf(b: byte): char
  {
    (b as int) as char
  }

  /**
   * `StringFromBytes`: the `std::string` built from the bytes as a C
   * string, so the characters before the first NUL. The bytes must
   * contain a NUL, as OpenCL's info strings do.
   */
  function StringFromBytes(bytes: seq<byte>): (s: string)
    requires 0 in bytes
    ensures |s| < |bytes| && bytes[|s|] == 0
    ensures forall k :: 0 <= k < |s| ==> bytes[k] != 0 && s[k] == CharOf(bytes[k])
  {
    if bytes[0] == 0 then "" else [CharOf(bytes[0])] + StringFromBytes(bytes[1..])
  }

  /** The bytes of a string whose characters fit in a byte. */
  function BytesOfString(s: string): (bytes: seq<byte>)
    requires forall k :: 0 <= k < |s| ==> s[k] as int < 256
    ensures |bytes| == |s|
    ensures forall k :: 0 <= k < |s| ==> bytes[k] as int == s[k] as int
  {
    if |s| == 0 then [] else [s[0] as int as byte] + BytesOfString(s[1..])
  }

  /** Characters that are neither NUL nor beyond a byte: what a C string of bytes can carry. */
  predicate CStringChars(s: string)
  {
    forall k :: 0 <= k < |s| ==> 0 < s[k] as int < 256
  }

  /** A string without NUL, written out with a terminating NUL and anything after it, reads back as itself. */
  lemma {:induction false} StringFromBytesRoundTrip(s: string, rest: seq<byte>)
    requires CStringChars(s)
    ensures StringFromBytes(BytesOfString(s) + [0] + rest) == s
    decreases |s|
  {
    var bytes := BytesOfString(s) + [0] + rest;
    if |s| > 0 {
      StringFromBytesRoundTrip(s[1..], rest);
      assert bytes[1..] == BytesOfString(s[1..]) + [0] + rest;
      assert CharOf(bytes[0]) == s[0];
    }
  }

  /** The end of the field starting at `i`: the next delimiter, or the end of the string. */
  function FieldEnd(s: string, delimiter: char, i: nat): (e: nat)
    requires i <= |s|
    ensures i <= e <= |s|
    ensures forall k :: i <= k < e ==> s[k] != delimiter
    ensures e < |s| ==> s[e] == delimiter
    decreases |s| - i
  {
    if i == |s| || s[i] == delimiter then i else FieldEnd(s, delimiter, i + 1)
  }

  lemma {:induction false} FieldEndUnique(s: string, delimiter: char, i: nat, e: nat)
    requires i <= e <= |s|
    requires forall k :: i <= k < e ==> s[k] != delimiter
    requires e < |s| ==> s[e] == delimiter
    ensures FieldEnd(s, delimiter, i) == e
    decreases |s| - i
  {
    if i < e {
      FieldEndUnique(s, delimiter, i + 1, e);
    }
  }

  /**
   * The fields `getline` extracts one by one from position `i` on: each
   * runs up to the next delimiter, which is consumed; reading stops when
   * nothing is left, so no characters give no field and a trailing
   * delimiter opens none.
   */
  function Fields(s: string, delimiter: char, i: nat): seq<string>
    requires i <= |s|
    decreases |s| - i
  {
    if i == |s| then []
    else
      var e := FieldEnd(s, delimiter, i);
      [s[i..e]] + (if e == |s| then [] else Fields(s, delimiter, e + 1))
  }

  /** The fields with the delimiter between them. */
  function Join(fields: seq<string>, delimiter: char): string
  {
    if |fields| == 0 then ""
    else if |fields| == 1 then fields[0]
    else fields[0] + [delimiter] + Join(fields[1..], delimiter)
  }

  /** The next field is the text up to the next delimiter; the rest are the fields after it. */
  lemma FieldsStep(s: string, delimiter: char, i: nat, e: nat)
    requires i < |s| && i <= e <= |s|
    requires forall k :: i <= k < e ==> s[k] != delimiter
    requires e < |s| ==> s[e] == delimiter
    ensures Fields(s, delimiter, i) == [s[i..e]] + (if e == |s| then [] else Fields(s, delimiter, e + 1))
  {
    FieldEndUnique(s, delimiter, i, e);
  }

  /** No field contains the delimiter. */
  lemma {:induction false} FieldsExcludeDelimiter(s: string, delimiter: char, i: nat)
    requires i <= |s|
    ensures forall f :: f in Fields(s, delimiter, i) ==> delimiter !in f
    decreases |s| - i
  {
    if i < |s| {
      var e := FieldEnd(s, delimiter, i);
      if e < |s| {
        FieldsExcludeDelimiter(s, delimiter, e + 1);
      }
    }
  }

  /** The delimiter `getline` drops at the end of a string, if there is one. */
  function Trailing(s: string, delimiter: char): string
  {
    if |s| > 0 && s[|s| - 1] == delimiter then [delimiter] else []
  }

  /** A field and its delimiter in front of a non-empty rest whose fields join back to it. */
  lemma JoinStep(s: string, delimiter: char, i: nat, e: nat, fields: seq<string>)
    requires i <= e && e + 1 < |s| && s[e] == delimiter && |fields| > 0
    requires Join(fields, delimiter) + Trailing(s, delimiter) == s[e + 1..]
    ensures Join([s[i..e]] + fields, delimiter) + Trailing(s, delimiter) == s[i..]
  {
    assert ([s[i..e]] + fields)[1..] == fields;
    assert s[i..] == s[i..e] + [delimiter] + s[e + 1..];
  }

  /** A field that ends with the string or with its last character, a delimiter, joins back to the rest of the string. */
  lemma JoinLast(s: string, delimiter: char, i: nat, e: nat)
    requires i < |s| && i <= e && (e == |s| || (e + 1 == |s| && s[e] == delimiter))
    requires forall k :: i <= k < e ==> s[k] != delimiter
    ensures Join([s[i..e]], delimiter) + Trailing(s, delimiter) == s[i..]
  {
    if e < |s| {
      assert s[i..] == s[i..e] + [delimiter];
    } else {
      assert s[i..e] == s[i..];
    }
  }

  /** From a position with characters left, joining the fields gives back the rest of the string, short of a trailing delimiter. */
  lemma {:induction false} FieldsJoinFrom(s: string, delimiter: char, i: nat)
    requires i < |s|
    ensures Join(Fields(s, delimiter, i), delimiter) + Trailing(s, delimiter) == s[i..]
    decreases |s| - i
  {
    var e := FieldEnd(s, delimiter, i);
    if e == |s| || e + 1 == |s| {
      assert Fields(s, delimiter, i) == [s[i..e]] by {
        FieldsStep(s, delimiter, i, e);
        if e < |s| {
          assert Fields(s, delimiter, e + 1) == [];
        }
      }
      assert Join([s[i..e]], delimiter) + Trailing(s, delimiter) == s[i..] by {
        JoinLast(s, delimiter, i, e);
      }
    } else {
      var rest := Fields(s, delimiter, e + 1);
      assert Join([s[i..e]] + rest, delimiter) + Trailing(s, delimiter) == s[i..] by {
        FieldsJoinFrom(s, delimiter, e + 1);
        assert Join(rest, delimiter) + Trailing(s, delimiter) == s[e + 1..];
        assert |rest| > 0;
        JoinStep(s, delimiter, i, e, rest);
      }
      assert Fields(s, delimiter, i) == [s[i..e]] + rest by {
        FieldsStep(s, delimiter, i, e);
      }
    }
  }

  /** Joining the fields of a string with the delimiter gives the string back, short of the trailing delimiter `getline` drops. */
  lemma FieldsJoin(s: string, delimiter: char)
    ensures Join(Fields(s, delimiter, 0), delimiter) + Trailing(s, delimiter) == s
  {
    if |s| > 0 {
      FieldsJoinFrom(s, delimiter, 0);
    }
  }

  /**
   * One `std::getline(stream, token, delimiter)` on a stream at `position`
   * with characters left: the token is the text up to the next delimiter
   * or the end, and the stream moves past the delimiter.
   */
  method GetLine(s: string, position: nat, delimiter: char) returns (token: string, next: nat)
    requires position < |s|
    ensures position < next <= |s|
    ensures Fields(s, delimiter, position) == [token] + Fields(s, delimiter, next)
  {
    var end := position;
    while end < |s| && s[end] != delimiter
      invariant position <= end <= |s|
      invariant forall k :: position <= k < end ==> s[k] != delimiter
    {
      end := end + 1;
    }
    FieldsStep(s, delimiter, position, end);
    token := s[position..end];
    next := if end < |s| then end + 1 else end;
  }

  /**
   * `Split(string, delimiter)`: `getline` on a string stream until it
   * fails, pushing every field it extracts.
   */
  method Split(s: string, delimiter: char) returns (tokens: seq<string>)
    ensures tokens == Fields(s, delimiter, 0)
  {
    tokens := [];
    var position := 0;
    while position < |s|
      invariant position <= |s|
      invariant tokens + Fields(s, delimiter, position) == Fields(s, delimiter, 0)
      decreases |s| - position
    {
      var token;
      token, position := GetLine(s, position, delimiter);
      tokens := tokens + [token];
    }
  }

  /** The empty string has no field; a lone delimiter gives one empty field. */
  lemma SplitEmptyExamples()
    ensures Fields("", ' ', 0) == []
    ensures Fields(" ", ' ', 0) == [""]
  {
    FieldsStep(" ", ' ', 0, 0);
  }

  /** Adjacent delimiters give an empty field between them. */
  lemma SplitAdjacentExample()
    ensures Fields("a  b", ' ', 0) == ["a", "", "b"]
  {
    var s := "a  b";
    FieldsStep(s, ' ', 0, 1);
    FieldsStep(s, ' ', 2, 2);
    FieldsStep(s, ' ', 3, 4);
    assert s[0..1] == "a" && s[2..2] == "" && s[3..4] == "b";
  }

  /** A trailing delimiter opens no field. */
  lemma SplitTrailingExample()
    ensures Fields("a b ", ' ', 0) == ["a", "b"]
  {
    var s := "a b ";
    FieldsStep(s, ' ', 0, 1);
    FieldsStep(s, ' ', 2, 3);
    assert s[0..1] == "a" && s[2..3] == "b";
  }

  /** `Profile` */
  datatype Profile = Full | Embedded

  /** The profile names OpenCL reports. */
  function ProfileName(profile: Profile): string
  {
    match profile
    case Full => "FULL_PROFILE"
    case Embedded => "EMBEDDED_PROFILE"
  }

  /** The profile mapping of the `CL_*_PROFILE` results: any other name fails the `assert(false)`. */
  function ProfileOf(name: string): (r: Option<Profile>)
    ensures r.Some? ==> ProfileName(r.value) == name
    ensures r.None? ==> forall p :: name != ProfileName(p)
  {
    if name == "FULL_PROFILE" then Some(Full)
    else if name == "EMBEDDED_PROFILE" then Some(Embedded)
    else None
  }

  /** Exactly the two profile names are recognised, each as its own profile. */
  lemma ProfileRoundTrip(profile: Profile, name: string)
    ensures ProfileOf(ProfileName(profile)) == Some(profile)
    ensures ProfileOf(name) == Some(profile) <==> name == ProfileName(profile)
  {
  }

  /** `InfoResult<CL_*_PROFILE>::FromBytes` */
  function ProfileFromBytes(bytes: seq<byte>): (r: Option<Profile>)
    requires 0 in bytes
    ensures r.Some? ==> ProfileName(r.value) == StringFromBytes(bytes)
    ensures r.None? ==> forall p :: StringFromBytes(bytes) != ProfileName(p)
  {
    ProfileOf(StringFromBytes(bytes))
  }

  /** `Version`: two `uint32_t` numbers and the rest of the string. */
  datatype Version = Version(major: nat, minor: nat, info: string)

  const UINT32_MODULUS: nat := 0x1_0000_0000

  function DigitValue(c: char): nat
    requires IsDigit(c)
  {
    c as int - '0' as int
  }

  /** The decimal value of the digits in s[i..e]. */
  function DigitsValue(s: string, i: nat, e: nat): nat
    requires i <= e <= |s|
    requires forall k :: i <= k < e ==> IsDigit(s[k])
    decreases e
  {
    if e == i then 0 else 10 * DigitsValue(s, i, e - 1) + DigitValue(s[e - 1])
  }

  /** The end of the white space starting at `i`. */
  function SpaceEnd(s: string, i: nat): (e: nat)
    requires i <= |s|
    ensures i <= e <= |s| && (e == |s| || !IsSpace(s[e]))
    ensures forall k :: i <= k < e ==> IsSpace(s[k])
    decreases |s| - i
  {
    if i == |s| || !IsSpace(s[i]) then i else SpaceEnd(s, i + 1)
  }

  lemma {:induction false} SpaceEndUnique(s: string, i: nat, e: nat)
    requires i <= e <= |s| && (e == |s| || !IsSpace(s[e]))
    requires forall k :: i <= k < e ==> IsSpace(s[k])
    ensures SpaceEnd(s, i) == e
    decreases |s| - i
  {
    if i < e {
      SpaceEndUnique(s, i + 1, e);
    }
  }

  /** The end of the digits starting at `i`. */
  function DigitEnd(s: string, i: nat): (e: nat)
    requires i <= |s|
    ensures i <= e <= |s| && (e == |s| || !IsDigit(s[e]))
    ensures forall k :: i <= k < e ==> IsDigit(s[k])
    decreases |s| - i
  {
    if i == |s| || !IsDigit(s[i]) then i else DigitEnd(s, i + 1)
  }

  lemma {:induction false} DigitEndUnique(s: string, i: nat, e: nat)
    requires i <= e <= |s| && (e == |s| || !IsDigit(s[e]))
    requires forall k :: i <= k < e ==> IsDigit(s[k])
    ensures DigitEnd(s, i) == e
    decreases |s| - i
  {
    if i < e {
      DigitEndUnique(s, i + 1, e);
    }
  }

  /**
   * The number `strtoul` reads, stored in an `unsigned int`: reduced
   * modulo 2^32, and negated modulo 2^32 after a minus sign.
   */
  function UnsignedValue(negative: bool, n: nat): (value: nat)
    ensures value < UINT32_MODULUS
    ensures !negative ==> value == n % UINT32_MODULUS
    ensures negative ==> (value + n) % UINT32_MODULUS == 0
  {
    var low := n % UINT32_MODULUS;
    if negative && low != 0 then UINT32_MODULUS - low else low
  }

  /** A converted number and the position after its digits. */
  datatype Conversion = Conversion(value: nat, end: nat)

  /**
   * A `%u` conversion from position `i`: leading white space, an optional
   * sign and at least one digit, read in base 10. No digit is a matching
   * failure.
   */
  function ScanUnsigned(s: string, i: nat): (r: Option<Conversion>)
    requires i <= |s|
    ensures r.Some? ==> r.value.value < UINT32_MODULUS && i < r.value.end <= |s|
    ensures r.Some? ==> IsDigit(s[r.value.end - 1]) && (r.value.end == |s| || !IsDigit(s[r.value.end]))
  {
    var j := SpaceEnd(s, i);
    var k := if j < |s| && (s[j] == '+' || s[j] == '-') then j + 1 else j;
    var e := DigitEnd(s, k);
    if e == k then None
    else Some(Conversion(UnsignedValue(j < k && s[j] == '-', DigitsValue(s, k, e)), e))
  }

  predicate StartsWithOpenCl(s: string)
  {
    |s| >= 6 && s[..6] == "OpenCL"
  }

  /** Two converted numbers and the position after the second. */
  datatype Pair = Pair(major: nat, minor: nat, end: nat)

  /** `%u.%u` from position i: a number, a dot right after its digits, and a number. */
  function ScanPair(s: string, i: nat): (r: Option<Pair>)
    requires i <= |s|
    ensures r.Some? ==> r.value.major < UINT32_MODULUS && r.value.minor < UINT32_MODULUS && i < r.value.end <= |s|
  {
    var major := ScanUnsigned(s, i);
    if major.None? || major.value.end == |s| || s[major.value.end] != '.' then None
    else
      var minor := ScanUnsigned(s, major.value.end + 1);
      if minor.None? then None
      else Some(Pair(major.value.value, minor.value.value, minor.value.end))
  }

  /**
   * `sscanf(s, "OpenCL %u.%u %n", ...)` followed by the two asserts and
   * `substr`: the literal prefix, white space, the pair of numbers and
   * white space, whose end `%n` stores; `info` is what follows it. Any
   * mismatch leaves fewer than two conversions, and the parse fails.
   */
  function ScanVersion(s: string): (r: Option<Version>)
    ensures r.Some? ==> StartsWithOpenCl(s) && r.value.major < UINT32_MODULUS && r.value.minor < UINT32_MODULUS
  {
    if !StartsWithOpenCl(s) then None
    else
      var pair := ScanPair(s, SpaceEnd(s, 6));
      if pair.None? then None
      else Some(Version(pair.value.major, pair.value.minor, s[SpaceEnd(s, pair.value.end)..]))
  }

  /** The decimal digits of n, without leading zeros. */
  function Decimal(n: nat): (digits: string)
    ensures |digits| > 0
    ensures forall k :: 0 <= k < |digits| ==> IsDigit(digits[k])
    decreases n
  {
    var last := ['0' + (n % 10) as char];
    if n < 10 then last else Decimal(n / 10) + last
  }

  /** The string `d` appears in `s` at position `i`. */
  predicate DigitsAt(s: string, i: nat, d: string)
  {
    i + |d| <= |s| && forall p :: 0 <= p < |d| ==> s[i + p] == d[p]
  }

  /** The decimal digits of n, wherever they appear, have the value n. */
  lemma {:induction false} DecimalValue(s: string, i: nat, e: nat, n: nat)
    requires e == i + |Decimal(n)| && DigitsAt(s, i, Decimal(n))
    ensures forall k :: i <= k < e ==> IsDigit(s[k])
    ensures DigitsValue(s, i, e) == n
    decreases n
  {
    var d := Decimal(n);
    forall k | i <= k < e
      ensures IsDigit(s[k])
    {
      assert s[k] == d[k - i];
    }
    assert s[e - 1] == d[|d| - 1];
    if n >= 10 {
      var head := Decimal(n / 10);
      assert d == head + ['0' + (n % 10) as char];
      forall p | 0 <= p < |head|
        ensures s[i + p] == head[p]
      {
        assert d[p] == head[p];
      }
      DecimalValue(s, i, e - 1, n / 10);
    }
  }

  /** A run of digits with a value that fits, not followed by a digit, is what `%u` reads from its start. */
  lemma ScanDigits(s: string, i: nat, e: nat, n: nat)
    requires i < e <= |s| && (e == |s| || !IsDigit(s[e]))
    requires forall k :: i <= k < e ==> IsDigit(s[k])
    requires DigitsValue(s, i, e) == n < UINT32_MODULUS
    ensures ScanUnsigned(s, i) == Some(Conversion(n, e))
  {
    SpaceEndUnique(s, i, i);
    DigitEndUnique(s, i, e);
  }

  /** A space followed by such a run: `%u` skips the space and reads the run. */
  lemma ScanSpacedDigits(s: string, i: nat, e: nat, n: nat)
    requires i + 1 < e <= |s| && IsSpace(s[i]) && (e == |s| || !IsDigit(s[e]))
    requires forall k :: i + 1 <= k < e ==> IsDigit(s[k])
    requires DigitsValue(s, i + 1, e) == n < UINT32_MODULUS
    ensures ScanUnsigned(s, SpaceEnd(s, i)) == Some(Conversion(n, e))
  {
    SpaceEndUnique(s, i, i + 1);
    ScanDigits(s, i + 1, e, n);
  }

  /** A space followed by the info: the trailing white space of the format takes the space, and the info is what is left. */
  lemma InfoAfterSpace(s: string, k: nat, info: string)
    requires k < |s| && IsSpace(s[k]) && s[k + 1..] == info
    requires info == [] || !IsSpace(info[0])
    ensures s[SpaceEnd(s, k)..] == info
  {
    assert k + 1 < |s| ==> s[k + 1] == info[0];
    SpaceEndUnique(s, k, k + 1);
  }

  /** The pair is read when each of its numbers is and a dot lies between them. */
  lemma ScanPairSteps(s: string, i: nat, major: Conversion, minor: Conversion)
    requires i <= |s|
    requires ScanUnsigned(s, i) == Some(major)
    requires major.end < |s| && s[major.end] == '.'
    requires ScanUnsigned(s, major.end + 1) == Some(minor)
    ensures ScanPair(s, i) == Some(Pair(major.value, minor.value, minor.end))
  {
  }

  /** The version is read when its prefix and pair are, and the info is what follows the white space. */
  lemma ScanVersionSteps(s: string, p: Pair, info: string)
    requires StartsWithOpenCl(s)
    requires ScanPair(s, SpaceEnd(s, 6)) == Some(p)
    requires s[SpaceEnd(s, p.end)..] == info
    ensures ScanVersion(s) == Some(Version(p.major, p.minor, info))
  {
  }

  /**
   * The layout of a version text: the prefix, a space, the digits of the
   * major number up to `j`, a dot, the digits of the minor number up to
   * `k`, a space and the info.
   */
  predicate LaidOutVersion(s: string, v: Version, j: nat, k: nat)
  {
    && 7 < j && j + 1 < k && |s| == k + 1 + |v.info|
    && StartsWithOpenCl(s) && s[6] == ' ' && s[j] == '.' && s[k] == ' '
    && (forall p :: 7 <= p < j ==> IsDigit(s[p]))
    && (forall p :: j + 1 <= p < k ==> IsDigit(s[p]))
    && DigitsValue(s, 7, j) == v.major && DigitsValue(s, j + 1, k) == v.minor
    && s[k + 1..] == v.info
  }

  /** Any string laid out as a version whose numbers fit and whose info does not start with white space parses as that version. */
  lemma ScanLaidOutVersion(s: string, v: Version, j: nat, k: nat)
    requires v.major < UINT32_MODULUS && v.minor < UINT32_MODULUS
    requires v.info == [] || !IsSpace(v.info[0])
    requires LaidOutVersion(s, v, j, k)
    ensures ScanVersion(s) == Some(v)
  {
    ScanSpacedDigits(s, 6, j, v.major);
    ScanDigits(s, j + 1, k, v.minor);
    ScanPairSteps(s, SpaceEnd(s, 6), Conversion(v.major, j), Conversion(v.minor, k));
    InfoAfterSpace(s, k, v.info);
    ScanVersionSteps(s, Pair(v.major, v.minor, k), v.info);
  }

  /** How a platform or device writes its version: `OpenCL <major>.<minor> <info>`. */
  function VersionText(v: Version): string
  {
    "OpenCL " + Decimal(v.major) + "." + Decimal(v.minor) + " " + v.info
  }

  /** Where the parts of a text written as `OpenCL <d1>.<d2> <info>` lie. */
  lemma TextLayout(d1: string, d2: string, info: string)
    ensures var s := "OpenCL " + d1 + "." + d2 + " " + info;
      var j, k := 7 + |d1|, 8 + |d1| + |d2|;
      && |s| == k + 1 + |info|
      && StartsWithOpenCl(s) && s[6] == ' '
      && DigitsAt(s, 7, d1) && s[j] == '.' && DigitsAt(s, j + 1, d2)
      && s[k] == ' ' && s[k + 1..] == info
  {
    var head := "OpenCL " + d1;
    var tail := head + "." + d2 + " ";
    var s := tail + info;
    assert s[..|tail|] == tail && s[|tail|..] == info;
    assert s[..6] == "OpenCL";
  }

  /** A version text is laid out as its version, with the numbers' digits ending at `j` and `k`. */
  lemma VersionTextLaidOut(v: Version) returns (j: nat, k: nat)
    ensures LaidOutVersion(VersionText(v), v, j, k)
  {
    var d1, d2 := Decimal(v.major), Decimal(v.minor);
    var s := VersionText(v);
    j, k := 7 + |d1|, 8 + |d1| + |d2|;
    TextLayout(d1, d2, v.info);
    DecimalValue(s, 7, j, v.major);
    DecimalValue(s, j + 1, k, v.minor);
  }

  /** Every version the 32-bit fields can hold, whose info does not start with white space, is read back from its text. */
  lemma VersionRoundTrip(v: Version)
    requires v.major < UINT32_MODULUS && v.minor < UINT32_MODULUS
    requires v.info == [] || !IsSpace(v.info[0])
    ensures ScanVersion(VersionText(v)) == Some(v)
  {
    var j, k := VersionTextLaidOut(v);
    ScanLaidOutVersion(VersionText(v), v, j, k);
  }

  /** A version string with text after the numbers. */
  lemma VersionWithInfoExample()
    ensures ScanVersion("OpenCL 1.2 CUDA") == Some(Version(1, 2, "CUDA"))
  {
    var s := "OpenCL 1.2 CUDA";
    assert s[..6] == "OpenCL" && s[11..] == "CUDA";
    assert LaidOutVersion(s, Version(1, 2, "CUDA"), 8, 10);
    ScanLaidOutVersion(s, Version(1, 2, "CUDA"), 8, 10);
  }

  /** The white space of the format also matches no white space at all. */
  lemma VersionWithoutSpaceExample()
    ensures ScanVersion("OpenCL3.0") == Some(Version(3, 0, ""))
  {
    var s := "OpenCL3.0";
    assert s[..6] == "OpenCL";
    SpaceEndUnique(s, 6, 6);
    ScanDigits(s, 6, 7, 3);
    ScanDigits(s, 8, 9, 0);
    ScanPairSteps(s, 6, Conversion(3, 7), Conversion(0, 9));
    SpaceEndUnique(s, 9, 9);
    ScanVersionSteps(s, Pair(3, 0, 9), "");
  }

  /** The dot must follow the major number directly, and a number must follow the prefix. */
  lemma VersionRejectedExamples()
    ensures ScanVersion("OpenCL 1 .2") == None
    ensures ScanVersion("OpenCL C 1.2") == None
  {
    var u := "OpenCL 1 .2";
    assert u[..6] == "OpenCL";
    ScanSpacedDigits(u, 6, 8, 1);
    var w := "OpenCL C 1.2";
    assert w[..6] == "OpenCL";
    SpaceEndUnique(w, 6, 7);
    SpaceEndUnique(w, 7, 7);
    DigitEndUnique(w, 7, 7);
  }

  /**
   * `InfoResult<CL_*_VERSION>::FromBytes`: the version parse of the string.
   * A version is only read from bytes that spell "OpenCL" before the
   * terminating NUL, and both its numbers fit in `uint32_t`.
   */
  function VersionFromBytes(bytes: seq<byte>): (r: Option<Version>)
    requires 0 in bytes
    ensures r.Some? ==> |bytes| > 6 && forall k :: 0 <= k < 6 ==> bytes[k] as int == "OpenCL"[k] as int
    ensures r.Some? ==> r.value.major < UINT32_MODULUS && r.value.minor < UINT32_MODULUS
  {
    var s := StringFromBytes(bytes);
    assert ScanVersion(s).Some? ==> forall k :: 0 <= k < 6 ==> s[k] == s[..6][k];
    ScanVersion(s)
  }

  lemma CStringCharsConcat(a: string, b: string)
    requires CStringChars(a) && CStringChars(b)
    ensures CStringChars(a + b)
  {
  }

  /** The version text of a version whose info is a C string is a C string. */
  lemma VersionTextChars(v: Version)
    requires CStringChars(v.info)
    ensures CStringChars(VersionText(v))
  {
    var d1, d2 := Decimal(v.major), Decimal(v.minor);
    CStringCharsConcat("OpenCL ", d1);
    CStringCharsConcat("OpenCL " + d1, ".");
    CStringCharsConcat("OpenCL " + d1 + ".", d2);
    CStringCharsConcat("OpenCL " + d1 + "." + d2, " ");
    CStringCharsConcat("OpenCL " + d1 + "." + d2 + " ", v.info);
  }

  /** A version written out as a NUL-terminated byte string is read back by `VersionFromBytes`. */
  lemma VersionFromBytesRoundTrip(v: Version)
    requires v.major < UINT32_MODULUS && v.minor < UINT32_MODULUS
    requires v.info == [] || !IsSpace(v.info[0])
    requires CStringChars(v.info)
    ensures CStringChars(VersionText(v))
    ensures VersionFromBytes(BytesOfString(VersionText(v)) + [0]) == Some(v)
  {
    var s := VersionText(v);
    VersionTextChars(v);
    StringFromBytesRoundTrip(s, []);
    assert BytesOfString(s) + [0] + [] == BytesOfString(s) + [0];
    VersionRoundTrip(v);
  }

  /** `InfoResult<CL_*_EXTENSIONS>::FromBytes`: the string split at spaces. */
  method ExtensionsFromBytes(bytes: seq<byte>) returns (extensions: seq<string>)
    requires 0 in bytes
    ensures extensions == Fields(StringFromBytes(bytes), ' ', 0)
    ensures forall e :: e in extensions ==> ' ' !in e
  {
    extensions := Split(StringFromBytes(bytes), ' ');
    FieldsExcludeDelimiter(StringFromBytes(bytes), ' ', 0);
  }
}
