/** UUIDs as 32 hexadecimal digits, with the canonical 8-4-4-4-12 string form of
    RFC 4122 section 3 and the version/variant fields that Python's `uuid.UUID` reads. */
module Uuids {
  import opened Wrappers

  type Nibble = x: int | 0 <= x < 16

  /** The 128 bits of a UUID, most significant hex digit first. */
  type Uuid = s: seq<Nibble> | |s| == 32 witness seq(32, _ => 0)

  const Digits: string := "0123456789abcdef"

  function HexChar(n: Nibble): char {
    Digits[n]
  }

  /** The value of one hexadecimal digit, either case. */
  function HexValue(c: char): Option<Nibble> {
    if '0' <= c <= '9' then Some(c as int - '0' as int)
    else if 'a' <= c <= 'f' then Some(c as int - 'a' as int + 10)
    else if 'A' <= c <= 'F' then Some(c as int - 'A' as int + 10)
    else None
  }

  lemma HexCharValue(n: Nibble)
    ensures HexValue(HexChar(n)) == Some(n)
  {
  }

  function ToHex(ns: seq<Nibble>): (r: string)
    ensures |r| == |ns|
  {
    seq(|ns|, i requires 0 <= i < |ns| => HexChar(ns[i]))
  }

  function FromHex(s: string): (r: Option<seq<Nibble>>)
    ensures r.Some? ==> |r.value| == |s|
  {
    if forall i :: 0 <= i < |s| ==> HexValue(s[i]).Some? then
      Some(seq(|s|, i requires 0 <= i < |s| => HexValue(s[i]).value))
    else None
  }

  lemma FromToHex(ns: seq<Nibble>)
    ensures FromHex(ToHex(ns)) == Some(ns)
  {
    var h := ToHex(ns);
    forall i | 0 <= i < |ns| ensures HexValue(h[i]) == Some(ns[i]) {
      HexCharValue(ns[i]);
    }
    var decoded := seq(|h|, i requires 0 <= i < |h| => HexValue(h[i]).value);
    assert decoded == ns;
  }

  /** Python's `str(uuid)`: lower-case hex, hyphens after digits 8, 12, 16 and 20. */
  function UuidString(u: Uuid): string {
    ToHex(u[..8]) + "-" + ToHex(u[8..12]) + "-" + ToHex(u[12..16]) + "-"
      + ToHex(u[16..20]) + "-" + ToHex(u[20..])
  }

  predicate HyphensInPlace(s: string) {
    |s| == 36 && s[8] == '-' && s[13] == '-' && s[18] == '-' && s[23] == '-'
  }

  /** The 32 hex digits of a hyphenated string. */
  function Stripped(s: string): string
    requires HyphensInPlace(s)
  {
    s[..8] + s[9..13] + s[14..18] + s[19..23] + s[24..]
  }

  /** `uuid.UUID(s)` on the canonical string form; `None` where Python raises ValueError. */
  function ParseUuid(s: string): Option<Uuid> {
    if !HyphensInPlace(s) then None
    else
      match FromHex(Stripped(s))
      case Some(ns) => Some(ns)
      case None => None
  }

  /** Formatting then parsing gives the same UUID back. */
  lemma ParseUuidString(u: Uuid)
    ensures ParseUuid(UuidString(u)) == Some(u)
  {
    var s := UuidString(u);
    assert HyphensInPlace(s);
    assert s[..8] == ToHex(u[..8]);
    assert s[9..13] == ToHex(u[8..12]);
    assert s[14..18] == ToHex(u[12..16]);
    assert s[19..23] == ToHex(u[16..20]);
    assert s[24..] == ToHex(u[20..]);
    assert u == u[..8] + u[8..12] + u[12..16] + u[16..20] + u[20..];
    assert Stripped(s) == ToHex(u);
    FromToHex(u);
  }

  /** Distinct UUIDs have distinct string forms. */
  lemma UuidStringInjective(u: Uuid, v: Uuid)
    requires UuidString(u) == UuidString(v)
    ensures u == v
  {
    ParseUuidString(u);
    ParseUuidString(v);
  }

  datatype Variant = ReservedNcs | Rfc4122 | ReservedMicrosoft | ReservedFuture

  /** `UUID.variant`: decided by the top bits of digit 16 (bits 63..61 of the integer). */
  function VariantOf(u: Uuid): Variant {
    if u[16] < 8 then ReservedNcs
    else if u[16] < 12 then Rfc4122
    else if u[16] < 14 then ReservedMicrosoft
    else ReservedFuture
  }

  /** `UUID.version`: digit 12 (bits 79..76), defined only for the RFC 4122 variant. */
  function VersionOf(u: Uuid): Option<int> {
    if VariantOf(u) == Rfc4122 then Some(u[12]) else None
  }

  /** What `UUID(s, version=v)` does after parsing: it clears bits 63..62 and sets bit 63
      (the RFC 4122 variant), then overwrites bits 79..76 with `v`. */
  function ForceVersion(u: Uuid, version: Nibble): (r: Uuid)
    ensures VersionOf(r) == Some(version)
    ensures forall i :: 0 <= i < 32 && i != 12 && i != 16 ==> r[i] == u[i]
  {
    u[16 := u[16] % 4 + 8][12 := version]
  }
}
