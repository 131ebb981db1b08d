/**
 * The two ABB B23 telegram decoders. Each reads fixed absolute offsets of a raw
 * response frame and builds a record of named measurements. Values are kept exact:
 * the raw integer together with its number of decimal places.
 */
module Decode {
  import opened Wrappers
  import opened Bytes

  /** The keys of the decoders' dictionaries; `Name` gives each one's spelling. */
  datatype Key =
    | MetadataKey | EnergyTotal
    | ActivePowerTotal | ActivePowerL1 | ActivePowerL2 | ActivePowerL3
    | VoltageL1 | VoltageL2 | VoltageL3 | VoltageL1L2 | VoltageL3L2 | VoltageL1L3
    | CurrentL1 | CurrentL2 | CurrentL3
    | EnergyL1 | EnergyL2 | EnergyL3

  /** The dictionary key as it appears in the published payload: a lowercase identifier. */
  function Name(k: Key): (s: string)
    ensures |s| > 0 && 'a' <= s[0] <= 'z'
    ensures forall i | 0 <= i < |s| :: 'a' <= s[i] <= 'z' || '0' <= s[i] <= '9' || s[i] == '_'
  {
    match k
    case MetadataKey => "metadata"
    case EnergyTotal => "energy_total"
    case ActivePowerTotal => "active_power_total"
    case ActivePowerL1 => "active_power_l1"
    case ActivePowerL2 => "active_power_l2"
    case ActivePowerL3 => "active_power_l3"
    case VoltageL1 => "voltage_l1"
    case VoltageL2 => "voltage_l2"
    case VoltageL3 => "voltage_l3"
    case VoltageL1L2 => "voltage_l1_l2"
    case VoltageL3L2 => "voltage_l3_l2"
    case VoltageL1L3 => "voltage_l1_l3"
    case CurrentL1 => "current_l1"
    case CurrentL2 => "current_l2"
    case CurrentL3 => "current_l3"
    case EnergyL1 => "energy_l1"
    case EnergyL2 => "energy_l2"
    case EnergyL3 => "energy_l3"
  }

  /** The exact decimal raw * 10^(-decimals). */
  datatype Scaled = Scaled(raw: int, decimals: nat)

  /** One value of a decoded record: a named measurement, or the telegram-2 metadata. */
  datatype Entry =
    | Reading(name: string, value: Scaled)
    | Metadata(serialNumber: string, version: Byte, accessNumber: Byte, status: Byte)

  /** A decoded telegram: the dictionary from key to entry. */
  type Record = map<Key, Entry>

  /** Why a decode raised: a read that needed the frame to hold `needed` bytes. */
  datatype DecodeError = Truncated(needed: nat)

  const EnergyDecimals: nat := 3   // energy / 1000
  const PowerDecimals: nat := 2    // power * 0.01
  const VoltageDecimals: nat := 1  // voltage * 0.1
  const CurrentDecimals: nat := 2  // current * 0.01

  /** The shortest frames each decoder accepts: one past the last byte it reads. */
  const Telegram1Length: nat := 28
  const Telegram2Length: nat := 199

  /** Python's `t[lo:hi]`: out-of-range bounds are clamped, never an error. */
  function Slice(t: seq<Byte>, lo: nat, hi: nat): (s: seq<Byte>)
    requires lo <= hi
    ensures hi <= |t| ==> s == t[lo..hi]
    ensures lo < hi ==> (|s| == hi - lo <==> hi <= |t|)
  {
    var b := if hi <= |t| then hi else |t|;
    var a := if lo <= b then lo else b;
    t[a..b]
  }

  /** `int(t[i])`, which raises IndexError past the end. */
  function ReadByte(t: seq<Byte>, i: nat): (r: Result<Byte, DecodeError>)
    ensures r.Success? <==> i < |t|
    ensures r.Success? ==> r.value == t[i]
    ensures r.Failure? ==> r.error.needed > |t|
  {
    if i < |t| then Success(t[i]) else Failure(Truncated(i + 1))
  }

  /** `struct.unpack('<i', t[off:off+4])[0]`, which raises unless the slice holds 4 bytes. */
  function ReadInt32(t: seq<Byte>, off: nat): (r: Result<int, DecodeError>)
    ensures r.Success? <==> off + 4 <= |t|
    ensures r.Success? ==> r.value == LeSigned32(t[off..off + 4])
    ensures r.Failure? ==> r.error.needed > |t|
  {
    if off + 4 <= |t| then Success(LeSigned32(t[off..off + 4])) else Failure(Truncated(off + 4))
  }

  /**
   * `struct.unpack('<Q', t[off:off+6] + b'\x00\x00')[0]`: a 48-bit unsigned field widened
   * to 64 bits with two zero bytes; raises unless the padded buffer holds 8 bytes.
   */
  function ReadUint48(t: seq<Byte>, off: nat): (r: Result<nat, DecodeError>)
    ensures r.Success? <==> off + 6 <= |t|
    ensures r.Success? ==> r.value == LeUint48(t[off..off + 6])
    ensures r.Failure? ==> r.error.needed > |t|
  {
    if off + 6 <= |t| then
      ZeroPad48(t[off..off + 6]);
      Success(LeUint64(t[off..off + 6] + [0, 0]))
    else
      Failure(Truncated(off + 6))
  }

  // ------------------------------------------------------------ field layout

  /** How a measurement field is encoded. */
  datatype Encoding = Int32LE | Uint48LE

  /** A measurement field: display name, absolute offset, encoding and decimal scale. */
  datatype Field = Field(name: string, offset: nat, encoding: Encoding, decimals: nat)

  function Width(f: Field): (w: nat)
    ensures w == 4 || w == 6
  {
    match f.encoding
    case Int32LE => 4
    case Uint48LE => 6
  }

  /** The one field of telegram 1. */
  const EnergyTotalField := Field("Energy, total", 22, Uint48LE, EnergyDecimals)

  /**
   * The measurement fields of telegram 2, by key; None for the metadata and the total
   * energy. Every field lies within bytes 22..198, and exactly the 48-bit ones are energies.
   */
  function Telegram2Layout(k: Key): (r: Option<Field>)
    ensures r.None? <==> k == MetadataKey || k == EnergyTotal
    ensures r.Some? ==> 22 <= r.value.offset && End(r.value) <= Telegram2Length
    ensures r.Some? ==> (r.value.encoding == Uint48LE <==> r.value.decimals == EnergyDecimals)
  {
    match k
    case MetadataKey => None
    case EnergyTotal => None
    case ActivePowerTotal => Some(Field("Active power, total", 22, Int32LE, PowerDecimals))
    case ActivePowerL1 => Some(Field("Active power, L1", 31, Int32LE, PowerDecimals))
    case ActivePowerL2 => Some(Field("Active power, L2", 40, Int32LE, PowerDecimals))
    case ActivePowerL3 => Some(Field("Active power, L3", 49, Int32LE, PowerDecimals))
    case VoltageL1 => Some(Field("Voltage, L1", 59, Int32LE, VoltageDecimals))
    case VoltageL2 => Some(Field("Voltage, L2", 69, Int32LE, VoltageDecimals))
    case VoltageL3 => Some(Field("Voltage, L3", 79, Int32LE, VoltageDecimals))
    case VoltageL1L2 => Some(Field("Voltage, L1-L2", 89, Int32LE, VoltageDecimals))
    case VoltageL3L2 => Some(Field("Voltage, L3-L2", 99, Int32LE, VoltageDecimals))
    case VoltageL1L3 => Some(Field("Voltage, L1-L3", 109, Int32LE, VoltageDecimals))
    case CurrentL1 => Some(Field("Current, L1", 119, Int32LE, CurrentDecimals))
    case CurrentL2 => Some(Field("Current, L2", 129, Int32LE, CurrentDecimals))
    case CurrentL3 => Some(Field("Current, L3", 139, Int32LE, CurrentDecimals))
    case EnergyL1 => Some(Field("Energy, L1", 171, Uint48LE, EnergyDecimals))
    case EnergyL2 => Some(Field("Energy, L2", 182, Uint48LE, EnergyDecimals))
    case EnergyL3 => Some(Field("Energy, L3", 193, Uint48LE, EnergyDecimals))
  }

  /** One past the last byte a field occupies. */
  function End(f: Field): nat {
    f.offset + Width(f)
  }

  /** The bytes a field occupies. */
  function FieldBytes(t: seq<Byte>, f: Field): seq<Byte>
    requires End(f) <= |t|
  {
    t[f.offset..End(f)]
  }

  /** The raw integer a field's bytes encode. */
  function FieldRaw(t: seq<Byte>, f: Field): int
    requires End(f) <= |t|
  {
    match f.encoding
    case Int32LE => LeSigned32(FieldBytes(t, f))
    case Uint48LE => LeUint48(FieldBytes(t, f))
  }

  /** The entry a field decodes to. */
  function FieldEntry(t: seq<Byte>, f: Field): Entry
    requires End(f) <= |t|
  {
    Reading(f.name, Scaled(FieldRaw(t, f), f.decimals))
  }

  /** The measurement keys of telegram 2, in the order the decoder reads them. */
  const Telegram2Keys: seq<Key> := [
    ActivePowerTotal, ActivePowerL1, ActivePowerL2, ActivePowerL3,
    VoltageL1, VoltageL2, VoltageL3, VoltageL1L2, VoltageL3L2, VoltageL1L3,
    CurrentL1, CurrentL2, CurrentL3,
    EnergyL1, EnergyL2, EnergyL3
  ]

  /** Reading one field: `struct.unpack` of its slice, scaled; raises on a short frame. */
  function ReadField(t: seq<Byte>, f: Field): (r: Result<Entry, DecodeError>)
    ensures r.Success? <==> End(f) <= |t|
    ensures r.Success? ==> r.value == FieldEntry(t, f)
    ensures r.Failure? ==> r.error.needed > |t|
  {
    var raw :- match f.encoding
      case Int32LE => ReadInt32(t, f.offset)
      case Uint48LE => ReadUint48(t, f.offset);
    Success(Reading(f.name, Scaled(raw, f.decimals)))
  }

  /**
   * Reading the fields of `ks` one after the other; the first short read raises.
   * The record maps each key to its field's entry.
   */
  function ReadFields(t: seq<Byte>, ks: seq<Key>): (r: Result<Record, DecodeError>)
    requires forall k <- ks :: Telegram2Layout(k).Some?
    ensures r.Success? <==> forall k <- ks :: End(Telegram2Layout(k).value) <= |t|
    ensures r.Failure? ==> r.error.needed > |t|
    ensures r.Success? ==> r.value.Keys == set k <- ks
    ensures r.Success? ==> forall k <- ks :: r.value[k] == FieldEntry(t, Telegram2Layout(k).value)
  {
    if ks == [] then Success(map[])
    else
      var entry :- ReadField(t, Telegram2Layout(ks[0]).value);
      var rest :- ReadFields(t, ks[1..]);
      Success(rest[ks[0] := entry])
  }

  // -------------------------------------------------------------- decoders

  /** `decode_abb_telegram1`: the total energy, thousandths of a 48-bit field at 22. */
  function DecodeTelegram1(t: seq<Byte>): (r: Result<Record, DecodeError>)
    ensures r.Success? <==> |t| >= Telegram1Length
    ensures r.Failure? ==> r.error.needed > |t|
    ensures r.Success? ==> r.value == map[EnergyTotal := FieldEntry(t, EnergyTotalField)]
  {
    var energyTotal :- ReadUint48(t, 22);
    Success(map[
      EnergyTotal := Reading("Energy, total", Scaled(energyTotal, EnergyDecimals))
    ])
  }

  /**
   * `decode_abb_telegram2`: the metadata, then the 16 measurements in the order of
   * `Telegram2Keys`, each at its `Telegram2Layout` field.
   */
  function DecodeTelegram2(t: seq<Byte>): (r: Result<Record, DecodeError>)
    ensures r.Success? <==> |t| >= Telegram2Length
    ensures r.Failure? ==> r.error.needed > |t|
  {
    var serialNumber := Hexlify(Slice(t, 7, 11));
    var version :- ReadByte(t, 13);
    var accessNumber :- ReadByte(t, 15);
    var status :- ReadByte(t, 16);
    LayoutCovers(t);
    var readings :- ReadFields(t, Telegram2Keys);
    Success(readings[MetadataKey := Metadata(serialNumber, version, accessNumber, status)])
  }

  /**
   * The keys read by telegram 2 are exactly those with a layout field, which are all
   * keys but the metadata and the total energy; every such field lies within bytes
   * 22..198 of the frame.
   */
  lemma MeasurementKey(k: Key)
    ensures k in Telegram2Keys <==> Telegram2Layout(k).Some?
    ensures Telegram2Layout(k).None? <==> k == MetadataKey || k == EnergyTotal
    ensures Telegram2Layout(k).Some? ==> 22 <= Telegram2Layout(k).value.offset && End(Telegram2Layout(k).value) <= Telegram2Length
  {
    match k
    case MetadataKey =>
    case EnergyTotal =>
    case ActivePowerTotal =>
    case ActivePowerL1 =>
    case ActivePowerL2 =>
    case ActivePowerL3 =>
    case VoltageL1 =>
    case VoltageL2 =>
    case VoltageL3 =>
    case VoltageL1L2 =>
    case VoltageL3L2 =>
    case VoltageL1L3 =>
    case CurrentL1 =>
    case CurrentL2 =>
    case CurrentL3 =>
    case EnergyL1 =>
    case EnergyL2 =>
    case EnergyL3 =>
  }

  /** Telegram 2's fields all fit in a frame iff it has 199 bytes: the last one ends there. */
  lemma LayoutCovers(t: seq<Byte>)
    ensures forall k <- Telegram2Keys :: Telegram2Layout(k).Some?
    ensures (forall k <- Telegram2Keys :: End(Telegram2Layout(k).value) <= |t|) <==> |t| >= Telegram2Length
  {
    forall k <- Telegram2Keys
      ensures Telegram2Layout(k).Some? && End(Telegram2Layout(k).value) <= Telegram2Length
    {
      MeasurementKey(k);
    }
    assert EnergyL3 in Telegram2Keys;
  }
}
