/**
 * The dashboard page: the signal tiers and bar widths of the witness radar,
 * the stake boost bar, and the `ReplayProof` panel's loading/proof states.
 */
module Dashboard {
  import opened Wrappers

  datatype Tier = Green | Yellow | Red

  /** The radar's colour for a signal in dBm: above -75 green, above -85 yellow, else red. */
  function SignalTier(signal: real): (t: Tier)
    ensures t == Green <==> signal > -75.0
    ensures t == Yellow <==> -85.0 < signal <= -75.0
    ensures t == Red <==> signal <= -85.0
  {
    if signal > -75.0 then Green else if signal > -85.0 then Yellow else Red
  }

  function Min(a: real, b: real): real {
    if a <= b then a else b
  }

  /** The radar bar width in percent, `min(100, (100 + signal) * 1.5)`. */
  function SignalWidth(signal: real): (w: real)
    ensures w <= 100.0 && w <= (100.0 + signal) * 1.5
    ensures w == 100.0 || w == (100.0 + signal) * 1.5
    ensures signal >= -100.0 ==> w >= 0.0
  {
    Min(100.0, (100.0 + signal) * 1.5)
  }

  /** A stronger signal never gets a shorter bar. */
  lemma SignalWidthMonotone(s1: real, s2: real)
    requires s1 <= s2
    ensures SignalWidth(s1) <= SignalWidth(s2)
  {
  }

  /** The stake boost bar width in percent, `min(weight * 2, 100)`. */
  function WeightWidth(weight: real): (w: real)
    ensures w <= 100.0
    ensures weight <= 50.0 ==> w == weight * 2.0
    ensures weight >= 50.0 ==> w == 100.0
  {
    Min(weight * 2.0, 100.0)
  }

  /** A radar entry as the page lists it. */
  datatype RadarWitness = RadarWitness(id: nat, distance: nat, signal: real, location: string)

  function RadarWitnesses(): seq<RadarWitness> {
    [RadarWitness(1, 127, -72.0, "SF Downtown"),
     RadarWitness(2, 243, -85.0, "Oakland"),
     RadarWitness(3, 89, -65.0, "Berkeley"),
     RadarWitness(4, 456, -92.0, "San Jose")]
  }

  /** -85 dBm lies on the red side of the yellow/red boundary. */
  lemma RadarTiers()
    ensures SignalTier(RadarWitnesses()[0].signal) == Green && SignalTier(RadarWitnesses()[1].signal) == Red
    ensures SignalTier(RadarWitnesses()[2].signal) == Green && SignalTier(RadarWitnesses()[3].signal) == Red
  {
  }

  /** The proof record the panel shows once its fetch resolves. */
  datatype ProofCard = ProofCard(cid: string, altitudeMax: real, distance: real, duration: nat, witnesses: nat)

  const FetchedProof: ProofCard := ProofCard("0xab3f829c4d...", 118.3, 2.4, 8, 3)

  /** The `ReplayProof` panel. The 2 s fetch delay is the event `FetchResolves`. */
  class ReplayProofPanel {
    var loading: bool
    var proof: Option<ProofCard>
    /** A fetch has been started and its delay has not yet elapsed. */
    var fetchPending: bool

    /** Loading exactly while a fetch is pending, and never with a proof on show. */
    ghost predicate Valid()
      reads this
    {
      (loading <==> fetchPending) && (loading ==> proof == None)
    }

    constructor ()
      ensures Valid() && !loading && proof == None && !fetchPending
    {
      loading := false;
      proof := None;
      fetchPending := false;
    }

    /** The fetch button is shown only without a proof and is disabled while loading. */
    predicate FetchEnabled(): (enabled: bool)
      reads this
      ensures enabled <==> proof == None && !loading
      ensures Valid() ==> (enabled <==> proof == None && !fetchPending)
    {
      proof == None && !loading
    }

    /** The Clear button is shown only with a proof, never beside an enabled fetch button or while loading. */
    predicate ClearShown(): (shown: bool)
      reads this
      ensures shown <==> proof.Some?
      ensures Valid() && shown ==> !loading && !FetchEnabled()
    {
      proof != None
    }

    /** A click on the fetch button: `setLoading(true)` and the delay starts. */
    method PressFetch() returns (accepted: bool)
      requires Valid()
      modifies this
      ensures Valid()
      ensures accepted == old(FetchEnabled())
      ensures accepted ==> loading && fetchPending && proof == None
      ensures !accepted ==> loading == old(loading) && proof == old(proof) && fetchPending == old(fetchPending)
    {
      accepted := proof == None && !loading;
      if accepted {
        loading := true;
        fetchPending := true;
      }
    }

    /** The delay elapses: the fixed proof is stored and loading ends. */
    method FetchResolves()
      requires Valid()
      modifies this
      ensures Valid()
      ensures old(fetchPending) ==> proof == Some(FetchedProof) && !loading && !fetchPending
      ensures !old(fetchPending) ==> loading == old(loading) && proof == old(proof) && fetchPending == old(fetchPending)
    {
      if fetchPending {
        proof := Some(FetchedProof);
        loading := false;
        fetchPending := false;
      }
    }

    /** A click on Clear: the proof is dropped and the fetch button returns. */
    method PressClear() returns (accepted: bool)
      requires Valid()
      modifies this
      ensures Valid()
      ensures accepted == old(ClearShown())
      ensures accepted ==> proof == None && FetchEnabled()
      ensures !accepted ==> loading == old(loading) && proof == old(proof) && fetchPending == old(fetchPending)
    {
      accepted := proof != None;
      if accepted {
        proof := None;
      }
    }
  }

  /** Fetch, wait, clear: the panel ends where it began with the fetch button enabled. */
  method FetchAndClear() returns (panel: ReplayProofPanel)
    ensures panel.Valid() && panel.proof == None && panel.FetchEnabled()
  {
    panel := new ReplayProofPanel();
    var ok := panel.PressFetch();
    assert ok && panel.loading && !panel.FetchEnabled();
    panel.FetchResolves();
    assert panel.proof == Some(FetchedProof) && panel.proof.value.witnesses == 3;
    ok := panel.PressClear();
    assert ok;
  }
}
