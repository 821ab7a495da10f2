/**
 * The task and witness records shared by the 2D page and the 3D globe page,
 * and the two list rewrites both pages hand to their witness state setter.
 */
module Witnesses {

  datatype TaskStatus = Idle | Running | Completed

  /** `failed` is declared (and styled) by the views, but no code path sets it. */
  datatype Status = Pending | Verified | Failed

  /** A witness entry; `P` is its position (the 2D page keeps none, so it uses `()`). */
  datatype Witness<P> = Witness(id: int, position: P, status: Status)

  /**
   * The witness timers a run schedules, in the order their deadlines expire:
   * index k fires after `2000 * (k + 1)` milliseconds.
   */
  const WitnessOrder: seq<nat> := [0, 1, 2]

  function DelayMs(k: nat): nat { 2000 * (k + 1) }

  /** Firing the earliest pending timer first is firing them in index order. */
  lemma DeadlinesFollowIndexOrder(i: nat, j: nat)
    requires i < j < |WitnessOrder|
    ensures DelayMs(WitnessOrder[i]) < DelayMs(WitnessOrder[j])
  {
  }

  /** The timer callback for witness k: `prev.map((w, i) => i === k ? { ...w, status: 'verified' } : w)`. */
  function MarkVerified<P>(ws: seq<Witness<P>>, k: int): (r: seq<Witness<P>>)
    ensures |r| == |ws|
    ensures forall i :: 0 <= i < |ws| ==> r[i].id == ws[i].id && r[i].position == ws[i].position
    ensures 0 <= k < |ws| ==> r[k].status == Verified
    ensures forall i :: 0 <= i < |ws| && i != k ==> r[i] == ws[i]
  {
    if 0 <= k < |ws| then ws[k := ws[k].(status := Verified)] else ws
  }

  /** What `startTask` does to the list: `w.map(x => ({ ...x, status: 'pending' }))`. */
  function ResetAll<P>(ws: seq<Witness<P>>): (r: seq<Witness<P>>)
    ensures |r| == |ws|
    ensures forall i :: 0 <= i < |ws| ==> r[i].id == ws[i].id && r[i].position == ws[i].position
    ensures forall i :: 0 <= i < |r| ==> r[i].status == Pending
  {
    seq(|ws|, i requires 0 <= i < |ws| => ws[i].(status := Pending))
  }

  /** `witnesses.filter(w => w.status === 'verified').length` */
  function CountVerified<P>(ws: seq<Witness<P>>): (n: nat)
    ensures n <= |ws|
    ensures n == |ws| <==> forall i :: 0 <= i < |ws| ==> ws[i].status == Verified
  {
    if ws == [] then 0
    else (if ws[0].status == Verified then 1 else 0) + CountVerified(ws[1..])
  }

  /** Progress of a run: the first n witnesses are verified, the others pending. */
  predicate FirstVerified<P>(ws: seq<Witness<P>>, n: int) {
    0 <= n <= |ws| &&
    forall i :: 0 <= i < |ws| ==> ws[i].status == (if i < n then Verified else Pending)
  }

  lemma {:induction false} CountFirstVerified<P>(ws: seq<Witness<P>>, n: int)
    requires FirstVerified(ws, n)
    ensures CountVerified(ws) == n
  {
    if ws != [] {
      var m := if n > 0 then n - 1 else 0;
      assert FirstVerified(ws[1..], m);
      CountFirstVerified(ws[1..], m);
    }
  }

  /** Verifying the next witness in order advances the run by one. */
  lemma MarkNextVerified<P>(ws: seq<Witness<P>>, n: int)
    requires FirstVerified(ws, n) && n < |ws|
    ensures FirstVerified(MarkVerified(ws, n), n + 1)
  {
  }
}
