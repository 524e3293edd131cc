/**
 * The `InfoResult<...>::FromBytes` parsers of cl/source/Device.cpp that
 * the platform has no counterpart of: the device type and vendor id, read
 * as unsigned scalars from exactly as many bytes as they occupy, and the
 * driver version, a bare `<major>.<minor>`. The profile, version, vendor,
 * name and extension parsers of a device are those of `ClInfo`.
 *
 * A failed `assert` of the source is `None`.
 */
module ClDevice {
  import opened Wrappers
  import opened IntTypes
  import opened CType
  import Util
  import opened ClInfo

  /** `cl_device_type`, a `cl_bitfield`: a 64-bit unsigned integer. */
  const DEVICE_TYPE_SIZE: nat := 8

  /** `cl_uint`: a 32-bit unsigned integer. */
  const VENDOR_ID_SIZE: nat := 4

  /** `InfoResult<CL_DEVICE_TYPE>::FromBytes`: exactly eight bytes, read as the value they store. */
  function TypeFromBytes(bytes: seq<byte>): (r: Option<nat>)
    ensures r.Some? <==> |bytes| == DEVICE_TYPE_SIZE
    ensures r.Some? ==> r.value < Pow2(64) && Util.BytesOf(r.value, DEVICE_TYPE_SIZE) == bytes
  {
    Util.ReinterpretBytes(bytes, DEVICE_TYPE_SIZE)
  }

  /** Every device type is read back from the eight bytes that store it. */
  lemma TypeRoundTrip(deviceType: nat)
    requires deviceType < Pow2(64)
    ensures TypeFromBytes(Util.BytesOf(deviceType, DEVICE_TYPE_SIZE)) == Some(deviceType)
  {
    Util.ReinterpretStoredValue(deviceType, DEVICE_TYPE_SIZE);
  }

  /** `InfoResult<CL_DEVICE_VENDOR_ID>::FromBytes`: exactly four bytes, read as the value they store. */
  function VendorIdFromBytes(bytes: seq<byte>): (r: Option<nat>)
    ensures r.Some? <==> |bytes| == VENDOR_ID_SIZE
    ensures r.Some? ==> r.value < Pow2(32) && Util.BytesOf(r.value, VENDOR_ID_SIZE) == bytes
  {
    Util.ReinterpretBytes(bytes, VENDOR_ID_SIZE)
  }

  /** Every vendor id is read back from the four bytes that store it. */
  lemma VendorIdRoundTrip(vendorId: nat)
    requires vendorId < Pow2(32)
    ensures VendorIdFromBytes(Util.BytesOf(vendorId, VENDOR_ID_SIZE)) == Some(vendorId)
  {
    Util.ReinterpretStoredValue(vendorId, VENDOR_ID_SIZE);
  }

  /**
   * `InfoResult<CL_DRIVER_VERSION>::FromBytes`: `sscanf(s, "%u.%u", ...)`
   * must convert both numbers; what follows them is ignored and the info
   * of the value-initialized `Version` stays empty.
   */
  function DriverVersionFromBytes(bytes: seq<byte>): (r: Option<Version>)
    requires 0 in bytes
    ensures r.Some? ==> r.value.info == "" && r.value.major < UINT32_MODULUS && r.value.minor < UINT32_MODULUS
    ensures r.Some? <==> ScanPair(StringFromBytes(bytes), 0).Some?
  {
    var pair := ScanPair(StringFromBytes(bytes), 0);
    if pair.None? then None else Some(Version(pair.value.major, pair.value.minor, ""))
  }

  /** How a driver writes its version: `<major>.<minor>`, then anything that does not start with a digit. */
  function DriverVersionText(major: nat, minor: nat, rest: string): string
  {
    Decimal(major) + "." + Decimal(minor) + rest
  }

  /**
   * The layout `%u.%u` reads: the digits of the major number from the
   * start up to `j`, a dot, and the digits of the minor number up to `k`,
   * not followed by another digit.
   */
  predicate LaidOutDriverVersion(s: string, major: nat, minor: nat, j: nat, k: nat)
  {
    && 0 < j && j + 1 < k <= |s| && s[j] == '.' && (k == |s| || !IsDigit(s[k]))
    && (forall p :: 0 <= p < j ==> IsDigit(s[p]))
    && (forall p :: j + 1 <= p < k ==> IsDigit(s[p]))
    && DigitsValue(s, 0, j) == major && DigitsValue(s, j + 1, k) == minor
  }

  /** A string laid out as a driver version whose numbers fit is read as those numbers. */
  lemma ScanLaidOutDriverVersion(s: string, major: nat, minor: nat, j: nat, k: nat)
    requires major < UINT32_MODULUS && minor < UINT32_MODULUS
    requires LaidOutDriverVersion(s, major, minor, j, k)
    ensures ScanPair(s, 0) == Some(Pair(major, minor, k))
  {
    ScanDigits(s, 0, j, major);
    ScanDigits(s, j + 1, k, minor);
    ScanPairSteps(s, 0, Conversion(major, j), Conversion(minor, k));
  }

  /** Where the parts of a text written as `<d1>.<d2><rest>` lie. */
  lemma DriverVersionTextLayout(d1: string, d2: string, rest: string)
    ensures var s := d1 + "." + d2 + rest;
      && |s| == |d1| + 1 + |d2| + |rest|
      && DigitsAt(s, 0, d1) && s[|d1|] == '.' && DigitsAt(s, |d1| + 1, d2)
      && (|rest| > 0 ==> s[|d1| + 1 + |d2|] == rest[0])
  {
  }

  /** Digits of two numbers around a dot, before a rest that does not start with a digit, are laid out as those numbers. */
  lemma DigitsLaidOut(s: string, major: nat, minor: nat, rest: string)
    requires rest == [] || !IsDigit(rest[0])
    requires s == Decimal(major) + "." + Decimal(minor) + rest
    ensures LaidOutDriverVersion(s, major, minor, |Decimal(major)|, |Decimal(major)| + 1 + |Decimal(minor)|)
  {
    var d1, d2 := Decimal(major), Decimal(minor);
    var j, k := |d1|, |d1| + 1 + |d2|;
    DriverVersionTextLayout(d1, d2, rest);
    DecimalValue(s, 0, j, major);
    DecimalValue(s, j + 1, k, minor);
  }

  /** The numbers of a driver version text are read back, whatever follows them. */
  lemma ScanDriverVersionText(major: nat, minor: nat, rest: string)
    requires major < UINT32_MODULUS && minor < UINT32_MODULUS
    requires rest == [] || !IsDigit(rest[0])
    ensures ScanPair(DriverVersionText(major, minor, rest), 0).Some?
    ensures ScanPair(DriverVersionText(major, minor, rest), 0).value.major == major
    ensures ScanPair(DriverVersionText(major, minor, rest), 0).value.minor == minor
  {
    var s := DriverVersionText(major, minor, rest);
    var j, k := |Decimal(major)|, |Decimal(major)| + 1 + |Decimal(minor)|;
    DigitsLaidOut(s, major, minor, rest);
    ScanLaidOutDriverVersion(s, major, minor, j, k);
  }

  /** The digits and the dot of a driver version text can be stored as a C string, and so can the text with a rest that can. */
  lemma DriverVersionTextChars(major: nat, minor: nat, rest: string)
    requires CStringChars(rest)
    ensures CStringChars(DriverVersionText(major, minor, rest))
  {
    var d1, d2 := Decimal(major), Decimal(minor);
    CStringCharsConcat(d1, ".");
    CStringCharsConcat(d1 + ".", d2);
    CStringCharsConcat(d1 + "." + d2, rest);
  }

  /** A driver version written out as a NUL-terminated byte string is read back by `DriverVersionFromBytes`. */
  lemma DriverVersionRoundTrip(major: nat, minor: nat, rest: string)
    requires major < UINT32_MODULUS && minor < UINT32_MODULUS
    requires rest == [] || !IsDigit(rest[0])
    requires CStringChars(rest)
    ensures CStringChars(DriverVersionText(major, minor, rest))
    ensures DriverVersionFromBytes(BytesOfString(DriverVersionText(major, minor, rest)) + [0])
         == Some(Version(major, minor, ""))
  {
    var s := DriverVersionText(major, minor, rest);
    DriverVersionTextChars(major, minor, rest);
    StringFromBytesRoundTrip(s, []);
    assert BytesOfString(s) + [0] + [] == BytesOfString(s) + [0];
    ScanDriverVersionText(major, minor, rest);
  }

  /** A driver version with a third component: only the first two numbers are read. */
  lemma DriverVersionThreePartExample()
    ensures ScanPair("470.57.02", 0) == Some(Pair(470, 57, 6))
  {
    var s := "470.57.02";
    assert DigitsValue(s, 0, 3) == 470 by {
      assert DigitsValue(s, 0, 1) == 4;
      assert DigitsValue(s, 0, 2) == 47;
    }
    assert DigitsValue(s, 4, 6) == 57 by {
      assert DigitsValue(s, 4, 5) == 5;
    }
    assert LaidOutDriverVersion(s, 470, 57, 3, 6);
    ScanLaidOutDriverVersion(s, 470, 57, 3, 6);
  }

  /** A string that does not start with a number is no driver version. */
  lemma DriverVersionRejectedExample()
    ensures ScanPair("OpenCL 1.2", 0).None?
  {
    var t := "OpenCL 1.2";
    SpaceEndUnique(t, 0, 0);
    DigitEndUnique(t, 0, 0);
  }
}
