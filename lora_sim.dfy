/**
 * The virtual LoRa SX1262 radio (`VirtualLoRa`): a radio is fixed at
 * construction (frequency, power, bandwidth, a 4.8 km nominal range and the
 * software channel name "lora_<integer MHz>"); `broadcast` builds a packet
 * dictionary and `receive` filters packets by channel and by sensitivity.
 * The wall clock read by `broadcast` is a parameter; rounding of the signal
 * strength to one decimal is not modelled.
 */
module LoRaSim {
  import opened Wrappers
  import Hex
  import opened RealArith

  const Sensitivity: real := -120.0
  const DefaultRssi: real := -100.0
  const SimulatedSnr: real := 10.5
  const SpreadingFactor: int := 7
  const CodingRate: string := "4/5"
  const RangeKm: real := 4.8
  /** The distance `broadcast` assumes when its caller gives none. */
  const DefaultDistanceKm: real := 0.5

  function Digit(d: nat): (c: char)
    requires d < 10
    ensures '0' <= c <= '9' && (c as int) - ('0' as int) == d
  {
    (('0' as int) + d) as char
  }

  /** Decimal text of a natural number, without leading zeros. */
  function NatToString(n: nat): (s: string)
    ensures |s| > 0 && forall i :: 0 <= i < |s| ==> '0' <= s[i] <= '9'
    ensures s[0] == '0' <==> n == 0
    ensures n == 0 ==> s == "0"
  {
    if n < 10 then [Digit(n)] else NatToString(n / 10) + [Digit(n % 10)]
  }

  predicate AllDigits(s: string) {
    forall i :: 0 <= i < |s| ==> '0' <= s[i] <= '9'
  }

  /** Optionally signed decimal text. */
  predicate IsIntText(s: string) {
    |s| > 0 && (if s[0] == '-' then AllDigits(s[1..]) else AllDigits(s))
  }

  /** Python's `str` of an int: a minus sign for negatives. */
  function IntToString(n: int): (s: string)
    ensures |s| > 0
    ensures s[0] == '-' <==> n < 0
    ensures IsIntText(s)
    ensures s[0] == '-' ==> |s| > 1 && s[1] != '0'
    ensures s[0] == '0' ==> s == "0"
  {
    if n < 0 then "-" + NatToString(-n) else NatToString(n)
  }

  /** Reads back a run of decimal digits. */
  function DigitsValue(s: string): (n: nat)
    requires AllDigits(s)
  {
    if s == [] then 0
    else
      var last := s[|s| - 1];
      assert '0' <= last;
      10 * DigitsValue(s[..|s| - 1]) + ((last as int) - ('0' as int))
  }

  /** Reads back optionally signed decimal text. */
  function IntValue(s: string): int
    requires IsIntText(s)
  {
    if s[0] == '-' then -(DigitsValue(s[1..]) as int) else DigitsValue(s)
  }

  lemma {:induction false} NatToStringRoundTrip(n: nat)
    ensures DigitsValue(NatToString(n)) == n
  {
    if n >= 10 {
      NatToStringRoundTrip(n / 10);
      var s := NatToString(n);
      assert s[..|s| - 1] == NatToString(n / 10);
    }
  }

  /** The decimal text of an int reads back as that int. */
  lemma IntToStringRoundTrip(n: int)
    ensures IntValue(IntToString(n)) == n
  {
    if n < 0 {
      NatToStringRoundTrip(-n);
      assert IntToString(n)[1..] == NatToString(-n);
    } else {
      NatToStringRoundTrip(n);
    }
  }

  /** A radio as configured by `__init__`; nothing changes it afterwards. */
  datatype Radio = Radio(frequency: real, power: real, bandwidth: real, rangeKm: real, channel: string)

  const ChannelPrefix: string := "lora_"

  function ChannelName(freqMhz: real): (c: string)
    ensures |c| > |ChannelPrefix| && c[..|ChannelPrefix|] == ChannelPrefix
    ensures IsIntText(c[|ChannelPrefix|..])
    ensures IntValue(c[|ChannelPrefix|..]) == Trunc(freqMhz)
    ensures c[|ChannelPrefix|..] == IntToString(Trunc(freqMhz))
  {
    var digits := IntToString(Trunc(freqMhz));
    IntToStringRoundTrip(Trunc(freqMhz));
    assert (ChannelPrefix + digits)[|ChannelPrefix|..] == digits;
    ChannelPrefix + digits
  }

  /** Two frequencies share a channel exactly when their integer parts agree. */
  lemma SameChannelIffSameMhz(f1: real, f2: real)
    ensures ChannelName(f1) == ChannelName(f2) <==> Trunc(f1) == Trunc(f2)
  {
    if ChannelName(f1) == ChannelName(f2) {
      assert ChannelName(f1)[|ChannelPrefix|..] == ChannelName(f2)[|ChannelPrefix|..];
    }
  }

  function NewRadio(freqMhz: real, powerDbm: real, bandwidthKhz: real): (r: Radio)
    ensures r.frequency == freqMhz && r.power == powerDbm && r.bandwidth == bandwidthKhz
    ensures r.rangeKm == RangeKm
    ensures r.channel == ChannelName(freqMhz)
  {
    Radio(freqMhz, powerDbm, bandwidthKhz, RangeKm, ChannelName(freqMhz))
  }

  /** The default radio: 915 MHz, 20 dBm, 125 kHz, on channel "lora_915". */
  function DefaultRadio(): (r: Radio)
    ensures r.frequency == 915.0 && r.power == 20.0 && r.bandwidth == 125.0 && r.rangeKm == RangeKm
    ensures r.channel == "lora_915"
  {
    assert Trunc(915.0) == 915;
    assert NatToString(9) == "9";
    assert NatToString(91) == "91";
    assert NatToString(915) == "915";
    NewRadio(915.0, 20.0, 125.0)
  }

  /** Simplified free-space path loss; distance 0 is a special case. */
  function SignalStrength(r: Radio, distanceKm: real): (dbm: real)
    ensures distanceKm == 0.0 ==> dbm == r.power
    ensures distanceKm > 0.0 && r.frequency >= 0.0 ==> dbm < r.power
    ensures distanceKm != 0.0 ==>
      dbm == r.power - (32.45 + 20.0 * distanceKm + 20.0 * (r.frequency / 1000.0))
  {
    if distanceKm == 0.0 then r.power
    else r.power - (32.45 + 20.0 * distanceKm + 20.0 * (r.frequency / 1000.0))
  }

  /** Further away never means a stronger signal (non-negative distances). */
  lemma StrengthDecreasing(r: Radio, d1: real, d2: real)
    requires r.frequency >= 0.0 && 0.0 <= d1 < d2
    ensures SignalStrength(r, d2) < SignalStrength(r, d1)
  {
  }

  /**
   * A Python value handed to `broadcast`. Only `bytes` is treated specially;
   * every other value, a `bytearray` included, goes into the packet as it is.
   */
  datatype PyValue =
    | PyNone
    | PyBool(b: bool)
    | PyInt(i: int)
    | PyFloat(f: real)
    | PyStr(s: string)
    | PyBytes(bytes: seq<Hex.byte>)
    | PyByteArray(bytes: seq<Hex.byte>)
    | PyList(items: seq<PyValue>)
    | PyDict(entries: map<string, PyValue>)

  /** A packet dictionary; every key may be absent in a packet received from elsewhere. */
  datatype Packet = Packet(
    channel: Option<string>,
    frequencyMhz: Option<real>,
    payload: Option<PyValue>,
    rssiDbm: Option<real>,
    snrDb: Option<real>,
    timestamp: Option<real>,
    spreadingFactor: Option<int>,
    codingRate: Option<string>)

  /**
   * The packet's `payload` entry: `payload.hex()` for bytes, which is text that
   * decodes back to those bytes; any other value unchanged.
   */
  function PayloadField(p: PyValue): (v: PyValue)
    ensures p.PyBytes? ==> v.PyStr? && Hex.Decode(v.s) == Some(p.bytes)
    ensures p.PyBytes? ==> forall i :: 0 <= i < |v.s| ==> ('0' <= v.s[i] <= '9') || ('a' <= v.s[i] <= 'f')
    ensures !p.PyBytes? ==> v == p
  {
    match p
    case PyBytes(b) => Hex.DecodeEncode(b); PyStr(Hex.Encode(b))
    case _ => p
  }

  /** `broadcast(payload, distance_km)`; a call without a distance passes `DefaultDistanceKm`. */
  function Broadcast(r: Radio, payload: PyValue, distanceKm: real, now: real): (pk: Packet)
    ensures pk.channel == Some(r.channel) && pk.frequencyMhz == Some(r.frequency)
    ensures pk.payload == Some(PayloadField(payload))
    ensures pk.rssiDbm == Some(SignalStrength(r, distanceKm))
    ensures pk.snrDb == Some(SimulatedSnr) && pk.timestamp == Some(now)
    ensures pk.spreadingFactor == Some(SpreadingFactor) && pk.codingRate == Some(CodingRate)
  {
    Packet(Some(r.channel), Some(r.frequency), Some(PayloadField(payload)),
           Some(SignalStrength(r, distanceKm)), Some(SimulatedSnr), Some(now),
           Some(SpreadingFactor), Some(CodingRate))
  }

  /**
   * What `receive` does: `None` (dropped), the packet back, or the KeyError
   * raised when a packet that passes both filters has no `frequency_mhz`.
   */
  datatype Reception = Dropped | Delivered(packet: Packet) | MissingFrequency

  function Receive(r: Radio, pk: Packet): (out: Reception)
    ensures pk.channel != Some(r.channel) ==> out == Dropped
    ensures out.Delivered? ==> out.packet == pk && pk.frequencyMhz.Some?
    ensures out == Dropped <==>
      pk.channel != Some(r.channel) || pk.rssiDbm.GetOr(DefaultRssi) < Sensitivity
    ensures out == MissingFrequency <==>
      pk.channel == Some(r.channel) && pk.rssiDbm.GetOr(DefaultRssi) >= Sensitivity && pk.frequencyMhz.None?
  {
    if pk.channel != Some(r.channel) then Dropped
    else
      var rssi := pk.rssiDbm.GetOr(DefaultRssi);
      if rssi < Sensitivity then Dropped
      else if pk.frequencyMhz.None? then MissingFrequency
      else Delivered(pk)
  }

  /** A packet without an rssi is judged at -100 dBm, above the sensitivity. */
  lemma MissingRssiPasses(r: Radio, pk: Packet)
    requires pk.channel == Some(r.channel) && pk.rssiDbm.None? && pk.frequencyMhz.Some?
    ensures Receive(r, pk) == Delivered(pk)
  {
  }

  /**
   * A broadcast reaches a receiving radio exactly when both sit on the same
   * channel and the signal is at or above -120 dBm; it then arrives unchanged.
   */
  lemma BroadcastReception(tx: Radio, rx: Radio, payload: PyValue, d: real, now: real)
    ensures Receive(rx, Broadcast(tx, payload, d, now)) != MissingFrequency
    ensures Receive(rx, Broadcast(tx, payload, d, now)).Delivered? <==>
      tx.channel == rx.channel && SignalStrength(tx, d) >= Sensitivity
    ensures Receive(rx, Broadcast(tx, payload, d, now)).Delivered? ==>
      Receive(rx, Broadcast(tx, payload, d, now)).packet == Broadcast(tx, payload, d, now)
  {
  }

  /** Radios built on the same frequency hear each other's strong-enough broadcasts. */
  lemma SameFrequencyReception(f: real, p1: real, p2: real, b1: real, b2: real,
                               payload: PyValue, d: real, now: real)
    ensures Receive(NewRadio(f, p2, b2), Broadcast(NewRadio(f, p1, b1), payload, d, now)).Delivered?
      <==> SignalStrength(NewRadio(f, p1, b1), d) >= Sensitivity
  {
    BroadcastReception(NewRadio(f, p1, b1), NewRadio(f, p2, b2), payload, d, now);
  }

  /**
   * A default radio's broadcast at the default distance arrives at -40.75 dBm,
   * so every radio on channel "lora_915" receives it.
   */
  lemma DefaultBroadcastHeard(rx: Radio, payload: PyValue, now: real)
    requires rx.channel == "lora_915"
    ensures SignalStrength(DefaultRadio(), DefaultDistanceKm) == -40.75
    ensures Receive(rx, Broadcast(DefaultRadio(), payload, DefaultDistanceKm, now)).Delivered?
  {
    BroadcastReception(DefaultRadio(), rx, payload, DefaultDistanceKm, now);
  }
}
