/**
 * The 2D page (`App`): the task lifecycle idle -> running -> completed driven by
 * three witness timers, the one-second elapsed counter, the timeout warning,
 * the start button's guard, the canvas wrap of the drone position and the
 * witness status labels. Timers become explicit events: `FireTimer` is the
 * earliest pending witness timer expiring, `SecondTick` one period of the
 * elapsed interval.
 */
module TaskApp {
  import opened Witnesses
  import opened RealArith

  const CompletionReward: int := 10

  /** Seconds in `running` after which the page warns. */
  const TimeoutSeconds: nat := 60

  type AppWitness = Witness<()>

  /** The start button: disabled while running or when no wallet account is connected. */
  function StartEnabled(status: TaskStatus, accountPresent: bool): (enabled: bool)
    ensures !enabled <==> status == Running || !accountPresent
  {
    status != Running && accountPresent
  }

  /** The advisory timeout banner; with three witnesses it shows iff one of them is not verified. */
  function TimeoutWarning(status: TaskStatus, elapsed: nat, ws: seq<AppWitness>): (r: bool)
    ensures r ==> status == Running && elapsed > TimeoutSeconds
    ensures |ws| == 3 ==>
      (r <==> status == Running && elapsed > TimeoutSeconds &&
              exists i :: 0 <= i < |ws| && ws[i].status != Verified)
  {
    status == Running && elapsed > TimeoutSeconds && CountVerified(ws) < 3
  }

  /** With x == q * w and x >= 0, taking off trunc(q) widths leaves [0, w). */
  lemma QuotBoundsNonneg(x: real, w: real, q: real)
    requires w > 0.0 && q * w == x && x >= 0.0
    ensures 0.0 <= x - (Trunc(q) as real) * w < w
  {
    if q < 0.0 { MulLt(q, 0.0, w); assert false; }
    var tr := Trunc(q) as real;
    assert tr <= q < tr + 1.0;
    MulLe(tr, q, w);
    MulLt(q, tr + 1.0, w);
    AddOne(tr, w);
    assert x < tr * w + w;
  }

  /** With x == q * w and x < 0, taking off trunc(q) widths leaves (-w, 0]. */
  lemma QuotBoundsNeg(x: real, w: real, q: real)
    requires w > 0.0 && q * w == x && x < 0.0
    ensures -w < x - (Trunc(q) as real) * w <= 0.0
  {
    if q >= 0.0 { MulLe(0.0, q, w); assert false; }
    var tr := Trunc(q) as real;
    assert tr - 1.0 < q <= tr;
    MulLt(tr - 1.0, q, w);
    MulLe(q, tr, w);
    AddOne(tr, w);
  }

  lemma JsRemBounds(x: real, w: real)
    requires w > 0.0
    ensures x >= 0.0 ==> 0.0 <= x - (Trunc(x / w) as real) * w < w
    ensures x < 0.0 ==> -w < x - (Trunc(x / w) as real) * w <= 0.0
  {
    DivMul(x, w);
    if x >= 0.0 { QuotBoundsNonneg(x, w, x / w); } else { QuotBoundsNeg(x, w, x / w); }
  }

  /** JavaScript's `%` on numbers: `x - w * trunc(x / w)`, with the dividend's sign. */
  function JsRem(x: real, w: real): (r: real)
    requires w > 0.0
    ensures x >= 0.0 ==> 0.0 <= r < w
    ensures x < 0.0 ==> -w < r <= 0.0
  {
    JsRemBounds(x, w);
    x - (Trunc(x / w) as real) * w
  }

  /** The floor of x / w is the one integer n that leaves x - n * w in [0, w). */
  lemma FloorUnique(x: real, w: real, n: int)
    requires w > 0.0 && 0.0 <= x - (n as real) * w < w
    ensures (x / w).Floor == n
  {
    var q := x / w;
    DivMul(x, w);
    var nr := n as real;
    if q < nr { MulLt(q, nr, w); assert false; }
    if q >= nr + 1.0 {
      MulLe(nr + 1.0, q, w);
      assert false;
    }
    assert nr <= q < nr + 1.0;
  }

  /**
   * The canvas coordinate `(x % w + w) % w` of a drone coordinate x: always on
   * the canvas, the floored remainder x - floor(x / w) * w, and x itself when x
   * is already on the canvas.
   */
  function CanvasWrap(x: real, w: real): (r: real)
    requires w > 0.0
    ensures 0.0 <= r < w
    ensures r == x - ((x / w).Floor as real) * w
    ensures 0.0 <= x < w ==> r == x
  {
    WrapIsFloored(x, w);
    JsRem(JsRem(x, w) + w, w)
  }

  /** The double JavaScript remainder is the floored remainder. */
  lemma WrapIsFloored(x: real, w: real)
    requires w > 0.0
    ensures JsRem(JsRem(x, w) + w, w) == x - ((x / w).Floor as real) * w
    ensures 0.0 <= x < w ==> (x / w).Floor == 0
  {
    var t1 := Trunc(x / w);
    var a := JsRem(x, w);
    var t2 := Trunc((a + w) / w);
    var r := JsRem(a + w, w);
    assert r == x - ((t1 + t2 - 1) as real) * w by {
      assert ((t1 + t2 - 1) as real) * w == (t1 as real) * w + (t2 as real) * w - w;
    }
    FloorUnique(x, w, t1 + t2 - 1);
    if 0.0 <= x < w { FloorUnique(x, w, 0); }
  }

  /** The text `WitnessBar` shows for a status. */
  function WitnessLabel(s: Status): (text: string)
    ensures text == "\U{2713} Signed" <==> s == Verified
    ensures text == "\U{2717} Failed" <==> s == Failed
    ensures text == "\U{22EF} Waiting" <==> s == Pending
  {
    match s
    case Verified => "\U{2713} Signed"
    case Failed => "\U{2717} Failed"
    case Pending => "\U{22EF} Waiting"
  }

  /** The dot colour class `WitnessBar` looks up for a status. */
  function WitnessColour(s: Status): (colour: string)
    ensures colour == "bg-green-500" <==> s == Verified
    ensures colour == "bg-red-500" <==> s == Failed
    ensures colour == "bg-gray-700" <==> s == Pending
  {
    match s
    case Pending => "bg-gray-700"
    case Verified => "bg-green-500"
    case Failed => "bg-red-500"
  }

  function InitialWitnesses(): (ws: seq<AppWitness>)
    ensures |ws| == 3 && FirstVerified(ws, 0)
    ensures forall i :: 0 <= i < 3 ==> ws[i].id == i + 1
  {
    [Witness(1, (), Pending), Witness(2, (), Pending), Witness(3, (), Pending)]
  }

  class TaskApp {
    var status: TaskStatus
    var witnesses: seq<AppWitness>
    var reward: int
    var elapsed: nat
    /** Witness timers of the current run that have not fired, earliest deadline first. */
    var timers: seq<nat>

    /**
     * The states the page can reach: ids never change, a run has fired a prefix
     * of its timers and verified exactly those witnesses, no witness is ever
     * `failed`, and timers are pending only while running.
     */
    ghost predicate Valid()
      reads this
    {
      && |witnesses| == 3
      && (forall i :: 0 <= i < 3 ==> witnesses[i].id == i + 1)
      && |timers| <= 3 && timers == WitnessOrder[3 - |timers|..]
      && (status == Running <==> timers != [])
      && (status == Idle ==> FirstVerified(witnesses, 0) && reward == 0 && elapsed == 0)
      && (status == Running ==> FirstVerified(witnesses, 3 - |timers|) && reward == 0)
      && (status == Completed ==> FirstVerified(witnesses, 3) && reward == CompletionReward)
    }

    constructor ()
      ensures Valid()
      ensures status == Idle && witnesses == InitialWitnesses()
      ensures reward == 0 && elapsed == 0 && timers == []
    {
      status := Idle;
      witnesses := InitialWitnesses();
      reward := 0;
      elapsed := 0;
      timers := [];
    }

    /**
     * A click on the start button. When enabled, `startTask` runs: status
     * running, every witness pending (ids unchanged), reward and elapsed 0; the
     * status change schedules the three witness timers of the new run.
     */
    method Start(accountPresent: bool) returns (started: bool)
      requires Valid()
      modifies this
      ensures Valid()
      ensures started == StartEnabled(old(status), accountPresent)
      ensures started ==> status == Running && witnesses == ResetAll(old(witnesses))
                          && reward == 0 && elapsed == 0 && timers == WitnessOrder
      ensures !started ==> status == old(status) && witnesses == old(witnesses) && reward == old(reward)
                           && elapsed == old(elapsed) && timers == old(timers)
    {
      started := StartEnabled(status, accountPresent);
      if started {
        status := Running;
        witnesses := ResetAll(witnesses);
        reward := 0;
        elapsed := 0;
        timers := WitnessOrder;
      }
    }

    /**
     * The earliest pending witness timer expires. Timer k verifies witness k
     * only; the last one also completes the task with the reward, and the
     * status change clears whatever the run still had scheduled.
     */
    method FireTimer() returns (fired: int)
      requires Valid()
      modifies this`status, this`witnesses, this`reward, this`timers
      ensures Valid()
      ensures old(timers) == [] ==> fired == -1 && status == old(status) && witnesses == old(witnesses)
                                    && reward == old(reward) && timers == old(timers)
      ensures old(timers) != [] ==> fired == old(timers)[0] && witnesses == MarkVerified(old(witnesses), fired)
      ensures fired == 2 ==> status == Completed && reward == CompletionReward && timers == []
      ensures fired != 2 && old(timers) != [] ==> status == old(status) && reward == old(reward)
                                                  && timers == old(timers)[1..]
      ensures status != old(status) ==> timers == []
    {
      if timers == [] {
        fired := -1;
        return;
      }
      fired := timers[0];
      MarkNextVerified(witnesses, 3 - |timers|);
      timers := timers[1..];
      witnesses := MarkVerified(witnesses, fired);
      if fired == 2 {
        status := Completed;
        reward := CompletionReward;
        timers := [];
      }
    }

    /** One period of the elapsed interval, which exists only while running. */
    method SecondTick()
      requires Valid()
      modifies this`elapsed
      ensures Valid()
      ensures elapsed == old(elapsed) + (if status == Running then 1 else 0)
    {
      if status == Running {
        elapsed := elapsed + 1;
      }
    }

    /** In every reachable state the task is completed exactly when all three witnesses are verified. */
    lemma CompletedIffAllVerified()
      requires Valid()
      ensures status == Completed <==> CountVerified(witnesses) == 3
      ensures status == Completed ==> reward == CompletionReward
    {
      match status
      case Idle => CountFirstVerified(witnesses, 0);
      case Running => CountFirstVerified(witnesses, 3 - |timers|);
      case Completed => CountFirstVerified(witnesses, 3);
    }

    /** The `failed` status is unreachable. */
    lemma NoWitnessFails()
      requires Valid()
      ensures forall i :: 0 <= i < |witnesses| ==> witnesses[i].status != Failed
    {
    }
  }

  /**
   * The end-to-end run: start at t = 0, the elapsed interval ticking once a
   * second, witness 0 verified at 2 s, witness 1 at 4 s, witness 2 at 6 s.
   */
  method EndToEndRun() returns (app: TaskApp)
    ensures app.Valid() && app.status == Completed && app.reward == CompletionReward
    ensures app.elapsed == 6 && CountVerified(app.witnesses) == 3
  {
    var a := new TaskApp();
    var started := a.Start(true);
    assert started;
    var k0, k1, k2;
    a.SecondTick();
    a.SecondTick();
    k0 := a.FireTimer();
    assert k0 == 0 && a.timers == [1, 2];
    a.SecondTick();
    a.SecondTick();
    k1 := a.FireTimer();
    assert k1 == 1 && a.timers == [2];
    a.SecondTick();
    a.SecondTick();
    k2 := a.FireTimer();
    assert k2 == 2;
    CountFirstVerified(a.witnesses, 3);
    app := a;
  }
}
