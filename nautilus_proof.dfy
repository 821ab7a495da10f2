/**
 * The altitude prover (`NautilusProofAltitude`): from a list of GPS points it
 * builds a proof record saying whether every altitude is at most 120 m, with
 * the altitude summary; `verify_proof` reads the verdict back and
 * `format_proof_for_chain` projects the fields sent on chain. SHA-256 over
 * the JSON text is a parameter (`Hashing`), and rounding to two decimals is
 * not modelled.
 */
module NautilusProof {
  import opened Wrappers

  const MaxAltitude: real := 120.0
  const Circuit: string := "altitude_check_v1"
  const NoDataError: string := "No GPS data"
  const ConstraintText: string := "altitude \U{2264} 120.0m"
  const Verified: string := "\U{2713} VERIFIED"
  const Failed: string := "\U{2717} FAILED"

  /** A GPS point as a dictionary; its `alt` key may be missing. */
  datatype GpsPoint = GpsPoint(lat: real, lon: real, alt: Option<real>, timestamp: real)

  /** `p.get('alt', 0)`: a point without an altitude counts as altitude 0. */
  function Altitude(p: GpsPoint): (a: real)
    ensures p.alt.None? ==> a == 0.0
    ensures p.alt.Some? ==> a == p.alt.value
  {
    p.alt.GetOr(0.0)
  }

  function Altitudes(ps: seq<GpsPoint>): (r: seq<real>)
    ensures |r| == |ps| && forall i :: 0 <= i < |ps| ==> r[i] == Altitude(ps[i])
  {
    seq(|ps|, i requires 0 <= i < |ps| => Altitude(ps[i]))
  }

  /** Python's `max` of a non-empty list. */
  function Max(s: seq<real>): (m: real)
    requires |s| > 0
    ensures m in s && forall i :: 0 <= i < |s| ==> s[i] <= m
  {
    if |s| == 1 then s[0]
    else
      var t := Max(s[1..]);
      if s[0] >= t then s[0] else t
  }

  /** Python's `min` of a non-empty list. */
  function Min(s: seq<real>): (m: real)
    requires |s| > 0
    ensures m in s && forall i :: 0 <= i < |s| ==> m <= s[i]
  {
    if |s| == 1 then s[0]
    else
      var t := Min(s[1..]);
      if s[0] <= t then s[0] else t
  }

  function Sum(s: seq<real>): real {
    if s == [] then 0.0 else s[0] + Sum(s[1..])
  }

  /** `Sum` agrees with Python's left-to-right `sum`: the last element is added last. */
  lemma {:induction false} SumLeftToRight(s: seq<real>)
    requires s != []
    ensures Sum(s) == Sum(s[..|s| - 1]) + s[|s| - 1]
  {
    if |s| > 1 {
      SumLeftToRight(s[1..]);
      assert s[1..][..|s[1..]| - 1] == s[..|s| - 1][1..];
    }
  }

  /** A lower bound on the elements bounds the sum from below. */
  lemma {:induction false} SumAtLeast(s: seq<real>, lo: real)
    requires forall i :: 0 <= i < |s| ==> lo <= s[i]
    ensures (|s| as real) * lo <= Sum(s)
  {
    if s != [] {
      SumAtLeast(s[1..], lo);
      assert (|s| as real) * lo == ((|s| - 1) as real) * lo + lo;
    }
  }

  /** An upper bound on the elements bounds the sum from above. */
  lemma {:induction false} SumAtMost(s: seq<real>, hi: real)
    requires forall i :: 0 <= i < |s| ==> s[i] <= hi
    ensures Sum(s) <= (|s| as real) * hi
  {
    if s != [] {
      SumAtMost(s[1..], hi);
      assert (|s| as real) * hi == ((|s| - 1) as real) * hi + hi;
    }
  }

  /** The mean `sum / len` of a non-empty list lies between its minimum and maximum. */
  lemma {:induction false} MeanBetween(s: seq<real>)
    requires |s| > 0
    ensures Min(s) <= Sum(s) / (|s| as real)
    ensures Sum(s) / (|s| as real) <= Max(s)
  {
    SumAtLeast(s, Min(s));
    SumAtMost(s, Max(s));
    QuotientBetween(Min(s), Max(s), Sum(s), |s| as real);
  }

  /** A total between n * lo and n * hi has its n-th part between lo and hi. */
  lemma QuotientBetween(lo: real, hi: real, t: real, n: real)
    requires n > 0.0 && n * lo <= t <= n * hi
    ensures lo <= t / n <= hi
  {
    DivLower(lo, t, n);
    DivUpper(hi, t, n);
  }

  lemma PositiveProduct(x: real, n: real)
    requires x > 0.0 && n > 0.0
    ensures x * n > 0.0
  {
  }

  lemma DivLower(a: real, b: real, n: real)
    requires n > 0.0 && n * a <= b
    ensures a <= b / n
  {
    var q := b / n;
    assert q * n == b;
    if a > q {
      PositiveProduct(a - q, n);
    }
  }

  lemma DivUpper(a: real, b: real, n: real)
    requires n > 0.0 && b <= n * a
    ensures b / n <= a
  {
    var q := b / n;
    assert q * n == b;
    if q > a {
      PositiveProduct(q - a, n);
    }
  }

  /** Python's `s[:n]`. */
  function Prefix(s: string, n: nat): (r: string)
    ensures |r| == (if |s| <= n then |s| else n) && r == s[..|r|]
  {
    if |s| <= n then s else s[..n]
  }

  /** The record whose hash stands in for the zk-SNARK. */
  datatype ProofData = ProofData(
    circuit: string, maxAltitudeLimit: real, numPoints: nat,
    privateInputsHash: string, constraintSatisfied: bool)

  /**
   * `sha256(json.dumps(x, sort_keys=True)).hexdigest()` of the GPS points and
   * of the proof data, left uninterpreted.
   */
  datatype Hashing = Hashing(points: seq<GpsPoint> -> string, proofData: ProofData -> string)

  /** The dictionary `generate_proof` returns. */
  datatype Proof =
    | NoGpsData(error: string)
    | AltitudeProof(
        valid: bool, proofHash: string, maxAltitude: real, minAltitude: real,
        avgAltitude: real, numPoints: nat, constraint: string, verification: string, circuit: string)

  /** `generate_proof`. */
  function GenerateProof(points: seq<GpsPoint>, h: Hashing): (p: Proof)
    ensures points == [] <==> p == NoGpsData(NoDataError)
    ensures points != [] ==> p.AltitudeProof?
    ensures p.AltitudeProof? ==>
      && (p.valid <==> forall i :: 0 <= i < |points| ==> Altitude(points[i]) <= MaxAltitude)
      && p.numPoints == |points|
      && (exists i :: 0 <= i < |points| && Altitude(points[i]) == p.maxAltitude)
      && (exists i :: 0 <= i < |points| && Altitude(points[i]) == p.minAltitude)
      && (forall i :: 0 <= i < |points| ==> p.minAltitude <= Altitude(points[i]) <= p.maxAltitude)
      && p.avgAltitude == Sum(Altitudes(points)) / (|points| as real)
      && p.minAltitude <= p.avgAltitude <= p.maxAltitude
      && p.verification == (if p.valid then Verified else Failed)
      && p.constraint == ConstraintText && p.circuit == Circuit
      && p.proofHash == "0x" + Prefix(h.proofData(ProofData(
           Circuit, MaxAltitude, |points|, Prefix(h.points(points), 16), p.valid)), 16) + "..."
  {
    if points == [] then NoGpsData(NoDataError)
    else
      var alts := Altitudes(points);
      var maxAlt := Max(alts);
      var minAlt := Min(alts);
      MeanBetween(alts);
      var avgAlt := Sum(alts) / (|alts| as real);
      var satisfied := maxAlt <= MaxAltitude;
      var data := ProofData(Circuit, MaxAltitude, |points|, Prefix(h.points(points), 16), satisfied);
      var digest := h.proofData(data);
      assert maxAlt in alts && minAlt in alts;
      AltitudeProof(
        satisfied, "0x" + Prefix(digest, 16) + "...", maxAlt, minAlt, avgAlt,
        |points|, ConstraintText, if satisfied then Verified else Failed, Circuit)
  }

  /** `verify_proof`: the record's `valid` entry (both shapes of record carry one). */
  function VerifyProof(p: Proof): (ok: bool)
    ensures p.NoGpsData? ==> !ok
    ensures p.AltitudeProof? ==> ok == p.valid
  {
    match p
    case NoGpsData(_) => false
    case AltitudeProof(valid, _, _, _, _, _, _, _, _) => valid
  }

  /** Verifying a generated proof accepts exactly the flights that never exceed 120 m. */
  lemma VerifyGenerated(points: seq<GpsPoint>, h: Hashing)
    ensures VerifyProof(GenerateProof(points, h)) <==>
      |points| > 0 && forall i :: 0 <= i < |points| ==> Altitude(points[i]) <= MaxAltitude
  {
  }

  /** The three entries submitted to the chain contract. */
  datatype ChainProof = ChainProof(proofHash: string, maxAltitude: real, verified: bool)

  /**
   * `format_proof_for_chain`; `None` where the record lacks `proof_hash` and
   * Python raises `KeyError` (the record for empty input).
   */
  function FormatForChain(p: Proof): (c: Option<ChainProof>)
    ensures c.None? <==> p.NoGpsData?
    ensures c.Some? ==> c.value.proofHash == p.proofHash && c.value.maxAltitude == p.maxAltitude
                        && c.value.verified == VerifyProof(p)
  {
    match p
    case NoGpsData(_) => None
    case AltitudeProof(valid, hash, maxAlt, _, _, _, _, _, _) => Some(ChainProof(hash, maxAlt, valid))
  }

  /** The on-chain record of a generated proof agrees with `verify_proof`. */
  lemma ChainAgreesWithVerify(points: seq<GpsPoint>, h: Hashing)
    ensures FormatForChain(GenerateProof(points, h)).None? <==> points == []
    ensures points != [] ==> FormatForChain(GenerateProof(points, h)).value.verified
                             == VerifyProof(GenerateProof(points, h))
  {
  }

  function ValidFlight(): seq<GpsPoint> {
    [GpsPoint(37.7749, -122.4194, Some(95.3), 1234567890.0),
     GpsPoint(37.7750, -122.4195, Some(102.1), 1234567891.0),
     GpsPoint(37.7751, -122.4196, Some(117.8), 1234567892.0),
     GpsPoint(37.7752, -122.4197, Some(110.5), 1234567893.0)]
  }

  function TooHighFlight(): seq<GpsPoint> {
    [GpsPoint(37.7749, -122.4194, Some(95.3), 1234567890.0),
     GpsPoint(37.7750, -122.4195, Some(125.7), 1234567891.0),
     GpsPoint(37.7751, -122.4196, Some(118.2), 1234567892.0)]
  }

  /** The module's own test flights: peak 117.8 m passes, a point at 125.7 m fails. */
  lemma TestFlights(h: Hashing)
    ensures GenerateProof(ValidFlight(), h).valid && GenerateProof(ValidFlight(), h).maxAltitude == 117.8
    ensures !GenerateProof(TooHighFlight(), h).valid && GenerateProof(TooHighFlight(), h).maxAltitude == 125.7
    ensures GenerateProof(TooHighFlight(), h).verification == Failed
  {
    var v := ValidFlight();
    var t := TooHighFlight();
    assert Altitude(t[1]) > MaxAltitude;
    assert forall i :: 0 <= i < |v| ==> Altitude(v[i]) <= 117.8;
    assert forall i :: 0 <= i < |t| ==> Altitude(t[i]) <= 125.7;
    var pv := GenerateProof(v, h);
    var pt := GenerateProof(t, h);
    assert pv.maxAltitude <= 117.8 && Altitude(v[2]) <= pv.maxAltitude;
    assert pt.maxAltitude <= 125.7 && Altitude(t[1]) <= pt.maxAltitude;
  }
}
