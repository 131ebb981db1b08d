/** Properties of the telegram decoders: lengths, layout, locality and round trips. */
module TelegramProperties {
  import opened Wrappers
  import opened Bytes
  import opened Decode

  /** Reading a key back from its spelling; None for any other text. */
  function KeyNamed(s: string): (r: Option<Key>)
  {
    if s == "metadata" then Some(MetadataKey)
    else if s == "energy_total" then Some(EnergyTotal)
    else if s == "active_power_total" then Some(ActivePowerTotal)
    else if s == "active_power_l1" then Some(ActivePowerL1)
    else if s == "active_power_l2" then Some(ActivePowerL2)
    else if s == "active_power_l3" then Some(ActivePowerL3)
    else if s == "voltage_l1" then Some(VoltageL1)
    else if s == "voltage_l2" then Some(VoltageL2)
    else if s == "voltage_l3" then Some(VoltageL3)
    else if s == "voltage_l1_l2" then Some(VoltageL1L2)
    else if s == "voltage_l3_l2" then Some(VoltageL3L2)
    else if s == "voltage_l1_l3" then Some(VoltageL1L3)
    else if s == "current_l1" then Some(CurrentL1)
    else if s == "current_l2" then Some(CurrentL2)
    else if s == "current_l3" then Some(CurrentL3)
    else if s == "energy_l1" then Some(EnergyL1)
    else if s == "energy_l2" then Some(EnergyL2)
    else if s == "energy_l3" then Some(EnergyL3)
    else None
  }

  /** Every key is recovered from its spelling, so no two keys share a spelling. */
  lemma NameInjective(k: Key, k': Key)
    ensures Name(k) == Name(k') ==> k == k'
  {
    NamedKey(k);
    NamedKey(k');
  }

  /** A key's spelling reads back as that key. */
  lemma NamedKey(k: Key)
    ensures KeyNamed(Name(k)) == Some(k)
  {
    match k
    case MetadataKey =>
    case EnergyTotal =>
    case ActivePowerTotal =>
    case ActivePowerL1 =>
    case ActivePowerL2 =>
    case ActivePowerL3 =>
    case VoltageL1 =>
    case VoltageL2 =>
    case VoltageL3 =>
    case VoltageL1L2 =>
    case VoltageL3L2 =>
    case VoltageL1L3 =>
    case CurrentL1 =>
    case CurrentL2 =>
    case CurrentL3 =>
    case EnergyL1 =>
    case EnergyL2 =>
    case EnergyL3 =>
  }

  // ------------------------------------------------------------ telegram 1

  /** Telegram 1 decodes iff the frame has 28 bytes; the total energy is a 48-bit count. */
  lemma Telegram1Decoded(t: seq<Byte>)
    requires |t| >= Telegram1Length
    ensures DecodeTelegram1(t).Success?
    ensures DecodeTelegram1(t).value.Keys == {EnergyTotal}
    ensures DecodeTelegram1(t).value[EnergyTotal] == Reading("Energy, total", Scaled(LeUnsigned(t[22..28]), 3))
    ensures 0 <= LeUnsigned(t[22..28]) < 0x1_0000_0000_0000
  {
    LeFixedWidths(t[22..28]);
    ZeroPad48(t[22..28]);
  }

  /** Telegram 1 depends on bytes 22..27 only: frames agreeing there decode alike. */
  lemma Telegram1Local(t: seq<Byte>, t': seq<Byte>)
    requires |t| >= Telegram1Length && |t'| >= Telegram1Length
    requires t[22..28] == t'[22..28]
    ensures DecodeTelegram1(t) == DecodeTelegram1(t')
  {
    assert FieldBytes(t, EnergyTotalField) == FieldBytes(t', EnergyTotalField);
  }

  // ------------------------------------------------------ field round trips

  /** The raw values a field's encoding can carry. */
  predicate Representable(e: Encoding, v: int) {
    match e
    case Int32LE => -(Two31 as int) <= v < Two31
    case Uint48LE => 0 <= v < Pow256(6)
  }

  /** The bytes a meter writes for raw value `v` in encoding `e`: the inverse of FieldRaw. */
  function EncodeRaw(e: Encoding, v: int): (b: seq<Byte>)
    requires Representable(e, v)
    ensures |b| == (match e case Int32LE => 4 case Uint48LE => 6)
  {
    match e
    case Int32LE => assert Pow256(4) == Two32; LeBytes(Unsigned32(v), 4)
    case Uint48LE => LeBytes(v, 6)
  }

  /** A field holding the encoding of `v` decodes to `v`. */
  lemma {:induction false} FieldRawOfEncodeRaw(t: seq<Byte>, f: Field, v: int)
    requires Representable(f.encoding, v)
    requires End(f) <= |t| && FieldBytes(t, f) == EncodeRaw(f.encoding, v)
    ensures FieldRaw(t, f) == v
  {
    var b := FieldBytes(t, f);
    LeFixedWidths(b);
    match f.encoding
    case Int32LE =>
      assert Pow256(4) == Two32;
      LeUnsignedOfLeBytes(Unsigned32(v), 4);
      Signed32OfUnsigned32(v);
    case Uint48LE =>
      LeUnsignedOfLeBytes(v, 6);
  }

  /** Every field's raw value is representable, and re-encoding it gives back its bytes. */
  lemma {:induction false} EncodeRawOfFieldRaw(t: seq<Byte>, f: Field)
    requires End(f) <= |t|
    ensures Representable(f.encoding, FieldRaw(t, f))
    ensures EncodeRaw(f.encoding, FieldRaw(t, f)) == FieldBytes(t, f)
  {
    var b := FieldBytes(t, f);
    LeFixedWidths(b);
    LeBytesOfLeUnsigned(b);
    match f.encoding
    case Int32LE =>
      assert Pow256(4) == Two32;
      Unsigned32OfSigned32(LeUnsigned(b));
    case Uint48LE =>
  }

  /**
   * A field's raw value is the general little-endian reading of its bytes: two's
   * complement for the 32-bit fields, unsigned for the 48-bit ones.
   */
  lemma FieldRawIsLittleEndian(t: seq<Byte>, f: Field)
    requires End(f) <= |t|
    ensures f.encoding == Int32LE ==>
      LeUnsigned(FieldBytes(t, f)) < Two32 && FieldRaw(t, f) == Signed32(LeUnsigned(FieldBytes(t, f)))
    ensures f.encoding == Uint48LE ==> FieldRaw(t, f) == LeUnsigned(FieldBytes(t, f))
  {
    LeFixedWidths(FieldBytes(t, f));
  }

  /** A frame carrying the 6-byte little-endian encoding of `energy` at 22 decodes to exactly it. */
  lemma Telegram1Encoded(t: seq<Byte>, energy: nat)
    requires energy < Pow256(6)
    requires |t| >= Telegram1Length && t[22..28] == LeBytes(energy, 6)
    ensures DecodeTelegram1(t) == Success(map[EnergyTotal := Reading("Energy, total", Scaled(energy, EnergyDecimals))])
  {
    FieldRawOfEncodeRaw(t, EnergyTotalField, energy);
  }

  // ------------------------------------------------------------ telegram 2

  /**
   * Telegram 2 decodes iff the frame has 199 bytes. The record then holds exactly the
   * metadata and the keys with a layout field; the metadata is bytes 7..10 as hex text
   * followed by bytes 13, 15 and 16, and each measurement is its field's bytes decoded.
   */
  lemma Telegram2Decoded(t: seq<Byte>) returns (m: Record)
    requires |t| >= Telegram2Length
    ensures DecodeTelegram2(t) == Success(m)
    ensures forall k :: k in m <==> k == MetadataKey || Telegram2Layout(k).Some?
    ensures m[MetadataKey] == Metadata(Hexlify(t[7..11]), t[13], t[15], t[16])
    ensures forall k | Telegram2Layout(k).Some? ::
      End(Telegram2Layout(k).value) <= |t| && m[k] == FieldEntry(t, Telegram2Layout(k).value)
  {
    m := DecodeTelegram2(t).value;
    LayoutCovers(t);
    forall k
      ensures k in Telegram2Keys <==> Telegram2Layout(k).Some?
      ensures Telegram2Layout(k).Some? ==> End(Telegram2Layout(k).value) <= |t|
    {
      MeasurementKey(k);
    }
  }

  /** The measurement fields of telegram 2 never overlap each other. */
  lemma FieldsDisjoint(k1: Key, k2: Key)
    requires Telegram2Layout(k1).Some? && Telegram2Layout(k2).Some? && k1 != k2
    ensures End(Telegram2Layout(k1).value) <= Telegram2Layout(k2).value.offset
         || End(Telegram2Layout(k2).value) <= Telegram2Layout(k1).value.offset
  {
    match k1
    case MetadataKey =>
    case EnergyTotal =>
    case ActivePowerTotal =>
    case ActivePowerL1 =>
    case ActivePowerL2 =>
    case ActivePowerL3 =>
    case VoltageL1 =>
    case VoltageL2 =>
    case VoltageL3 =>
    case VoltageL1L2 =>
    case VoltageL3L2 =>
    case VoltageL1L3 =>
    case CurrentL1 =>
    case CurrentL2 =>
    case CurrentL3 =>
    case EnergyL1 =>
    case EnergyL2 =>
    case EnergyL3 =>
  }

  /** A frame whose field `k` holds the encoding of `v` decodes measurement `k` to exactly `v`. */
  lemma Telegram2Encoded(t: seq<Byte>, k: Key, v: int)
    requires |t| >= Telegram2Length && Telegram2Layout(k).Some?
    requires Representable(Telegram2Layout(k).value.encoding, v)
    requires End(Telegram2Layout(k).value) <= |t|
    requires FieldBytes(t, Telegram2Layout(k).value) == EncodeRaw(Telegram2Layout(k).value.encoding, v)
    ensures DecodeTelegram2(t).Success? && k in DecodeTelegram2(t).value
    ensures DecodeTelegram2(t).value[k]
         == Reading(Telegram2Layout(k).value.name, Scaled(v, Telegram2Layout(k).value.decimals))
  {
    var m := Telegram2Decoded(t);
    FieldRawOfEncodeRaw(t, Telegram2Layout(k).value, v);
  }

  /** Frames that agree outside field `f` agree on any field `g` that does not overlap it. */
  lemma OtherFieldUntouched(t: seq<Byte>, t': seq<Byte>, f: Field, g: Field)
    requires |t'| == |t| && End(g) <= |t|
    requires End(f) <= g.offset || End(g) <= f.offset
    requires forall i | 0 <= i < |t| :: !(f.offset <= i < End(f)) ==> t[i] == t'[i]
    ensures FieldEntry(t, g) == FieldEntry(t', g)
  {
    var lo, hi := g.offset, End(g);
    forall i | lo <= i < hi
      ensures t[i] == t'[i]
    {
    }
    assert t[lo..hi] == t'[lo..hi];
  }

  /** Frames that agree outside a field starting at 22 or later agree on the metadata bytes. */
  lemma MetadataUntouched(t: seq<Byte>, t': seq<Byte>, f: Field)
    requires |t| >= Telegram2Length && |t'| == |t| && f.offset >= 22
    requires forall i | 0 <= i < |t| :: !(f.offset <= i < End(f)) ==> t[i] == t'[i]
    ensures t[7..11] == t'[7..11] && t[13] == t'[13] && t[15] == t'[15] && t[16] == t'[16]
  {
    assert forall i | 7 <= i < 11 :: t[i] == t'[i];
  }

  /**
   * Telegram 2 reads each measurement from its own bytes only: two frames of the same
   * length that differ only inside field `k` decode to records that differ at most at `k`.
   */
  lemma Telegram2OnlyField(t: seq<Byte>, t': seq<Byte>, k: Key) returns (m: Record, m': Record)
    requires |t| >= Telegram2Length && |t'| == |t| && Telegram2Layout(k).Some?
    requires forall i | 0 <= i < |t| ::
      !(Telegram2Layout(k).value.offset <= i < End(Telegram2Layout(k).value)) ==> t[i] == t'[i]
    ensures DecodeTelegram2(t) == Success(m) && DecodeTelegram2(t') == Success(m')
    ensures m.Keys == m'.Keys
    ensures forall k2 | k2 in m && k2 != k :: m[k2] == m'[k2]
  {
    m := Telegram2Decoded(t);
    m' := Telegram2Decoded(t');
    MeasurementKey(k);
    MetadataUntouched(t, t', Telegram2Layout(k).value);
    forall k2 | k2 in m && k2 != k
      ensures m[k2] == m'[k2]
    {
      if k2 != MetadataKey {
        MeasurementKey(k2);
        FieldsDisjoint(k, k2);
        OtherFieldUntouched(t, t', Telegram2Layout(k).value, Telegram2Layout(k2).value);
      }
    }
  }

  /**
   * The serial number is eight lowercase hexadecimal digits that decode back to bytes
   * 7..10 of the frame.
   */
  lemma Telegram2SerialNumber(t: seq<Byte>)
    requires |t| >= Telegram2Length
    ensures DecodeTelegram2(t).Success? && MetadataKey in DecodeTelegram2(t).value
    ensures DecodeTelegram2(t).value[MetadataKey].Metadata?
    ensures var serial := DecodeTelegram2(t).value[MetadataKey].serialNumber;
      |serial| == 8
      && (forall i | 0 <= i < 8 :: '0' <= serial[i] <= '9' || 'a' <= serial[i] <= 'f')
      && Unhexlify(serial) == Some(t[7..11])
  {
    var m := Telegram2Decoded(t);
    var s := t[7..11];
    forall i | 0 <= i < 8
      ensures '0' <= Hexlify(s)[i] <= '9' || 'a' <= Hexlify(s)[i] <= 'f'
    {
      HexlifyAt(s, i / 2);
      assert i == 2 * (i / 2) || i == 2 * (i / 2) + 1;
    }
    UnhexlifyHexlify(s);
  }
}
