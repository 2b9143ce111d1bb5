/** The temperature register codec of the Volcano driver.

    Both temperature characteristics (current and target) carry one unsigned
    32-bit little-endian integer (`struct` format `<I`) counting tenths of a
    degree. Two decode paths exist and deliberately differ:
    - a notification rounds `raw / 10` to the nearest integer, ties to even
      (Python's `round` on a float);
    - an explicit read truncates (`int(raw / 10)`), i.e. `raw / 10` on naturals.
    Encoding multiplies a whole-degree target by ten and packs it as `<I`.

    The source divides in floating point; for every raw value below 2^32 the
    quotient is close enough to the exact rational that the integer
    definitions below agree with it, so the model uses exact arithmetic. */
module TemperatureCodec {

  /** One byte of a GATT payload. */
  type Byte = b: int | 0 <= b < 256

  /** 2^32: the first value `<I` cannot carry. */
  const U32_LIMIT: nat := 0x1_0000_0000

  /** The exceptions `struct` raises on this path. */
  datatype CodecError =
    | WrongLength(got: nat)    // `unpack('<I', …)` of a payload that is not exactly 4 bytes
    | OutOfRange(value: int)   // `pack('<I', …)` of a value outside 0 .. 2^32 - 1

  datatype Result<+T> = Ok(value: T) | Err(error: CodecError)

  /** 256^n, the number of values n bytes can carry. */
  function Pow256(n: nat): (p: nat)
    ensures p >= 1
  {
    if n == 0 then 1 else 256 * Pow256(n - 1)
  }

  /** Reference meaning of a little-endian byte string: the least significant byte first. */
  ghost function LeValue(s: seq<Byte>): nat
  {
    if s == [] then 0 else s[0] + 256 * LeValue(s[1..])
  }

  /** Reference little-endian layout of `v` in `n` bytes (the high part beyond `n` bytes is dropped). */
  ghost function LeBytes(v: nat, n: nat): (s: seq<Byte>)
    ensures |s| == n
  {
    if n == 0 then [] else [v % 256] + LeBytes(v / 256, n - 1)
  }

  /** Reading back the layout of `v` gives `v`, whenever `v` fits in `n` bytes. */
  lemma {:induction false} LeValueOfLeBytes(v: nat, n: nat)
    requires v < Pow256(n)
    ensures LeValue(LeBytes(v, n)) == v
  {
    if n > 0 {
      var q := v / 256;
      assert v == v % 256 + 256 * q;
      assert v < 256 * Pow256(n - 1);
      assert q < Pow256(n - 1);
      LeValueOfLeBytes(q, n - 1);
      var s := LeBytes(v, n);
      assert s[0] == v % 256 && s[1..] == LeBytes(q, n - 1);
    }
  }

  /** Laying out the value of `s` in `|s|` bytes gives `s` back. */
  lemma {:induction false} LeBytesOfLeValue(s: seq<Byte>)
    ensures LeBytes(LeValue(s), |s|) == s
  {
    if s != [] {
      var v, rest := LeValue(s), LeValue(s[1..]);
      assert v == s[0] + 256 * rest;
      assert v % 256 == s[0] && v / 256 == rest;
      LeBytesOfLeValue(s[1..]);
      assert LeBytes(v, |s|) == [s[0]] + s[1..];
    }
  }

  /** The value of a 4-byte payload, written out byte by byte. */
  lemma LeValueOfFour(data: seq<Byte>)
    requires |data| == 4
    ensures LeValue(data) == data[0] as int + 0x100 * data[1] as int + 0x1_0000 * data[2] as int + 0x100_0000 * data[3] as int
  {
    assert data[1..][1..][1..][1..] == [];
    assert LeValue(data[1..][1..][1..]) == data[3];
    assert LeValue(data[1..][1..]) == data[2] as int + 256 * data[3] as int;
  }

  /** `struct.unpack('<I', data)[0]`: fails unless the payload is exactly 4 bytes. */
  function UnpackU32LE(data: seq<Byte>): (r: Result<nat>)
    ensures r.Ok? <==> |data| == 4
    ensures r.Ok? ==> r.value == LeValue(data) && r.value < U32_LIMIT
    ensures r.Err? ==> r.error == WrongLength(|data|)
  {
    if |data| != 4 then Err(WrongLength(|data|))
    else
      LeValueOfFour(data);
      Ok(data[0] as int + 0x100 * data[1] as int + 0x1_0000 * data[2] as int + 0x100_0000 * data[3] as int)
  }

  /** `struct.pack('<I', v)`: fails unless 0 <= v < 2^32. */
  function PackU32LE(v: int): (r: Result<seq<Byte>>)
    ensures r.Ok? <==> 0 <= v < U32_LIMIT
    ensures r.Ok? ==> |r.value| == 4 && LeValue(r.value) == v
    ensures r.Err? ==> r.error == OutOfRange(v)
  {
    if v < 0 || v >= U32_LIMIT then Err(OutOfRange(v))
    else
      var b1 := v / 0x100;
      var b2 := b1 / 0x100;
      var b3 := b2 / 0x100;
      var bytes := [v % 0x100, b1 % 0x100, b2 % 0x100, b3 % 0x100];
      assert LeBytes(b3, 1) == [b3 % 0x100] + LeBytes(b3 / 0x100, 0);
      assert LeBytes(b2, 2) == [b2 % 0x100] + LeBytes(b3, 1);
      assert LeBytes(b1, 3) == [b1 % 0x100] + LeBytes(b2, 2);
      assert bytes == LeBytes(v, 4);
      LeValueOfLeBytes(v, 4);
      Ok(bytes)
  }

  /** Unpacking what was packed gives the value back. */
  lemma UnpackOfPack(v: int)
    requires 0 <= v < U32_LIMIT
    ensures UnpackU32LE(PackU32LE(v).value) == Ok(v)
  {
  }

  /** Packing what was unpacked gives the payload back: `<I` is a bijection
      between 4-byte payloads and 0 .. 2^32 - 1. */
  lemma PackOfUnpack(data: seq<Byte>)
    requires |data| == 4
    ensures PackU32LE(UnpackU32LE(data).value) == Ok(data)
  {
    var packed := PackU32LE(UnpackU32LE(data).value).value;
    LeBytesOfLeValue(data);
    LeBytesOfLeValue(packed);
  }

  /** Python's `round(raw / 10)`: the nearest integer to raw/10, ties to the even one. */
  function RoundHalfEvenTenths(raw: nat): (r: nat)
    ensures -5 <= 10 * r - raw <= 5
    ensures (10 * r - raw == 5 || raw - 10 * r == 5) ==> r % 2 == 0
  {
    var q, rem := raw / 10, raw % 10;
    if rem < 5 then q
    else if rem > 5 then q + 1
    else if q % 2 == 0 then q
    else q + 1
  }

  /** The two properties above pin the rounding down: no other integer has them. */
  lemma RoundHalfEvenTenthsUnique(raw: nat, r: int)
    requires -5 <= 10 * r - raw <= 5
    requires (10 * r - raw == 5 || raw - 10 * r == 5) ==> r % 2 == 0
    ensures r == RoundHalfEvenTenths(raw)
  {
  }

  /** Python's `round(int(raw / 10))`: `int` truncates a non-negative quotient. */
  function TruncateTenths(raw: nat): (r: nat)
    ensures 10 * r <= raw < 10 * r + 10
  {
    raw / 10
  }

  /** Decode of a temperature notification (`temperature_changed`, `target_temperature_changed`). */
  function DecodeNotified(data: seq<Byte>): (r: Result<nat>)
    ensures r.Ok? <==> |data| == 4
    ensures r.Ok? ==> r.value == RoundHalfEvenTenths(LeValue(data)) && r.value <= 429496730
    ensures r.Err? ==> r.error == WrongLength(|data|)
  {
    match UnpackU32LE(data)
    case Ok(raw) => Ok(RoundHalfEvenTenths(raw))
    case Err(e) => Err(e)
  }

  /** Decode of an explicit temperature read (`read_temperature`, `read_target_temperature`). */
  function DecodeRead(data: seq<Byte>): (r: Result<nat>)
    ensures r.Ok? <==> |data| == 4
    ensures r.Ok? ==> r.value == LeValue(data) / 10 && r.value <= 429496729
    ensures r.Err? ==> r.error == WrongLength(|data|)
  {
    match UnpackU32LE(data)
    case Ok(raw) => Ok(TruncateTenths(raw))
    case Err(e) => Err(e)
  }

  /** The payload `set_target_temperature` writes: `struct.pack('<I', t * 10)`. */
  function EncodeTargetTemperature(t: int): (r: Result<seq<Byte>>)
    ensures r.Ok? <==> 0 <= 10 * t < U32_LIMIT
    ensures r.Ok? ==> |r.value| == 4 && LeValue(r.value) == 10 * t
    ensures r.Err? ==> r.error == OutOfRange(10 * t)
  {
    PackU32LE(t * 10)
  }

  /** A written target reads back unchanged over an explicit read. */
  lemma ReadRoundTrip(t: int)
    requires 0 <= 10 * t < U32_LIMIT
    ensures DecodeRead(EncodeTargetTemperature(t).value) == Ok(t)
  {
  }

  /** A written target comes back unchanged in the device's notification. */
  lemma NotifyRoundTrip(t: int)
    requires 0 <= 10 * t < U32_LIMIT
    ensures DecodeNotified(EncodeTargetTemperature(t).value) == Ok(t)
  {
    var raw := LeValue(EncodeTargetTemperature(t).value);
    assert raw == 10 * t;
    RoundHalfEvenTenthsUnique(raw, t);
  }

  /** The two decode paths of one payload differ by at most one degree: the
      notification is one above the read exactly when the tenths digit is
      above 5, or is 5 after an odd number of whole degrees. */
  lemma NotifyVersusRead(data: seq<Byte>)
    requires |data| == 4
    ensures var raw, n, rd := LeValue(data), DecodeNotified(data).value, DecodeRead(data).value;
      (n == rd || n == rd + 1) &&
      (n == rd + 1 <==> raw % 10 > 5 || (raw % 10 == 5 && rd % 2 == 1))
  {
  }

  /** Raw 219 (21.9 degrees) reads as 21 but notifies as 22. */
  lemma Raw219()
    ensures DecodeRead([219, 0, 0, 0]) == Ok(21)
    ensures DecodeNotified([219, 0, 0, 0]) == Ok(22)
  {
  }

  /** Raw 215 (21.5 degrees) reads as 21 but notifies as 22, the even neighbour. */
  lemma Raw215()
    ensures DecodeRead([215, 0, 0, 0]) == Ok(21)
    ensures DecodeNotified([215, 0, 0, 0]) == Ok(22)
  {
  }

  /** Raw 205 (20.5 degrees) notifies as 20, the even neighbour, not 21. */
  lemma Raw205()
    ensures DecodeRead([205, 0, 0, 0]) == Ok(20)
    ensures DecodeNotified([205, 0, 0, 0]) == Ok(20)
  {
  }
}
