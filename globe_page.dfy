/**
 * The 3D globe page (`GlobePage`): the drone tick with its bounded trail, the
 * task run with the same three witness timers as the 2D page, and the replay
 * of the completed trail. Two behaviours are kept as the page has them: its
 * timer effect never clears what it scheduled, and the last timer copies the
 * trail seen by the effect that started the run (its closure), not the trail
 * at the moment it fires.
 */
module GlobePage {
  import opened Witnesses

  datatype Vec3 = Vec3(x: real, y: real, z: real)

  function Add(a: Vec3, b: Vec3): Vec3 {
    Vec3(a.x + b.x, a.y + b.y, a.z + b.z)
  }

  /** The drone marker: its position and the points drawn behind it. */
  datatype DronePos = DronePos(current: Vec3, trail: seq<Vec3>)

  type GlobeWitness = Witness<Vec3>

  /** The page's starting position, also the replay's start when there is nothing to replay. */
  const Home: Vec3 := Vec3(2.2, 0.5, 0.3)

  const TrailLimit: nat := 20

  /** Largest change per axis of one drone tick: `(Math.random() - 0.5) * 0.02`. */
  const JitterBound: real := 0.01

  predicate IsJitter(d: Vec3) {
    -JitterBound <= d.x < JitterBound && -JitterBound <= d.y < JitterBound && -JitterBound <= d.z < JitterBound
  }

  /**
   * `[...trail, p].slice(-20)`: at most 20 points, ending with p, the others
   * the newest points of the old trail in their order.
   */
  function PushTrail(trail: seq<Vec3>, p: Vec3): (r: seq<Vec3>)
    ensures |r| == if |trail| < TrailLimit then |trail| + 1 else TrailLimit
    ensures |r| <= TrailLimit && r[|r| - 1] == p
    ensures r[..|r| - 1] == trail[|trail| - (|r| - 1)..]
  {
    var t := trail + [p];
    if |t| <= TrailLimit then t else t[|t| - TrailLimit..]
  }

  /** The three witnesses the page starts with. */
  function InitialWitnesses(): (ws: seq<GlobeWitness>)
    ensures |ws| == 3 && FirstVerified(ws, 0)
    ensures forall i :: 0 <= i < 3 ==> ws[i].id == i + 1
  {
    [Witness(1, Vec3(2.21, 0.51, 0.31), Pending),
     Witness(2, Vec3(2.19, 0.49, 0.29), Pending),
     Witness(3, Vec3(2.22, 0.48, 0.32), Pending)]
  }

  /**
   * `replayTask` without the page state: the marker it sets first, then one
   * frame per 100 ms step. Step i shows point i with the first i points as
   * its trail; the step after the last point stops the interval.
   */
  method ReplayFrames(completedTrail: seq<Vec3>) returns (frames: seq<DronePos>, steps: nat)
    ensures |frames| == |completedTrail| + 1
    ensures frames[0] == DronePos(if |completedTrail| > 0 then completedTrail[0] else Home, [])
    ensures forall i :: 0 <= i < |completedTrail| ==>
      frames[i + 1] == DronePos(completedTrail[i], completedTrail[..i])
    ensures steps == |completedTrail| + 1
  {
    frames := [DronePos(if |completedTrail| > 0 then completedTrail[0] else Home, [])];
    steps := 0;
    var i := 0;
    while true
      invariant 0 <= i <= |completedTrail| && steps == i
      invariant |frames| == i + 1
      invariant frames[0] == DronePos(if |completedTrail| > 0 then completedTrail[0] else Home, [])
      invariant forall j :: 0 <= j < i ==> frames[j + 1] == DronePos(completedTrail[j], completedTrail[..j])
      decreases |completedTrail| - i
    {
      steps := steps + 1;
      if i >= |completedTrail| {
        break;
      }
      frames := frames + [DronePos(completedTrail[i], completedTrail[..i])];
      i := i + 1;
    }
  }

  class GlobeView {
    var drone: DronePos
    var witnesses: seq<GlobeWitness>
    var completedTrail: seq<Vec3>
    var status: TaskStatus
    /** Witness timers scheduled by the last run and not yet fired, earliest deadline first. */
    var timers: seq<nat>
    /** `dronePos.trail` as captured by the effect that scheduled `timers`. */
    var effectTrail: seq<Vec3>

    /**
     * Reachable states: trails hold at most 20 points, witness ids and
     * positions never change, a run has verified exactly the witnesses whose
     * timers fired, no witness is `failed`, and, although the page never
     * clears its timers, none is pending outside a run.
     */
    ghost predicate Valid()
      reads this
    {
      && |drone.trail| <= TrailLimit && |completedTrail| <= TrailLimit && |effectTrail| <= TrailLimit
      && |witnesses| == 3
      && (forall i :: 0 <= i < 3 ==>
            witnesses[i].id == InitialWitnesses()[i].id && witnesses[i].position == InitialWitnesses()[i].position)
      && |timers| <= 3 && timers == WitnessOrder[3 - |timers|..]
      && (status == Running <==> timers != [])
      && (status == Idle ==> FirstVerified(witnesses, 0) && completedTrail == [])
      && (status == Running ==> FirstVerified(witnesses, 3 - |timers|) && completedTrail == [])
      && (status == Completed ==> FirstVerified(witnesses, 3))
    }

    constructor ()
      ensures Valid()
      ensures drone == DronePos(Home, []) && witnesses == InitialWitnesses()
      ensures completedTrail == [] && status == Idle && timers == []
    {
      drone := DronePos(Home, []);
      witnesses := InitialWitnesses();
      completedTrail := [];
      status := Idle;
      timers := [];
      effectTrail := [];
    }

    /** The start button is disabled while running, that is, while witness timers are pending. */
    predicate StartEnabled(): (enabled: bool)
      reads this
      ensures !enabled <==> status == Running
      ensures Valid() ==> (enabled <==> timers == [])
    {
      status != Running
    }

    /** The replay button exists only when there is a completed trail, so only after a completed run. */
    predicate ReplayAvailable(): (available: bool)
      reads this
      ensures available <==> completedTrail != []
      ensures Valid() && available ==> status == Completed && FirstVerified(witnesses, 3)
    {
      |completedTrail| > 0
    }

    /** One 100 ms drone tick, moving by the random offset `delta`. */
    method Tick(delta: Vec3)
      requires Valid() && IsJitter(delta)
      modifies this`drone
      ensures Valid()
      ensures drone.current == Add(old(drone.current), delta)
      ensures drone.trail == PushTrail(old(drone.trail), drone.current)
    {
      var p := Add(drone.current, delta);
      drone := DronePos(p, PushTrail(drone.trail, p));
    }

    /**
     * A click on the start button: running, every witness pending (ids and
     * positions unchanged), the completed trail emptied; the status change
     * schedules the run's timers in an effect whose closure sees the current trail.
     */
    method Start() returns (started: bool)
      requires Valid()
      modifies this`status, this`witnesses, this`completedTrail, this`timers, this`effectTrail
      ensures Valid()
      ensures started == (old(status) != Running)
      ensures started ==> status == Running && witnesses == ResetAll(old(witnesses))
                          && completedTrail == [] && timers == WitnessOrder && effectTrail == drone.trail
      ensures !started ==> status == old(status) && witnesses == old(witnesses)
                           && completedTrail == old(completedTrail) && timers == old(timers)
                           && effectTrail == old(effectTrail)
    {
      started := status != Running;
      if started {
        status := Running;
        witnesses := ResetAll(witnesses);
        completedTrail := [];
        timers := WitnessOrder;
        effectTrail := drone.trail;
      }
    }

    /**
     * The earliest pending timer expires. Timer k verifies witness k only; the
     * last also completes the task and stores the trail its closure captured.
     */
    method FireTimer() returns (fired: int)
      requires Valid()
      modifies this`status, this`witnesses, this`completedTrail, this`timers
      ensures Valid()
      ensures old(timers) == [] ==> fired == -1 && status == old(status) && witnesses == old(witnesses)
                                    && completedTrail == old(completedTrail) && timers == old(timers)
      ensures old(timers) != [] ==> fired == old(timers)[0] && timers == old(timers)[1..]
                                    && witnesses == MarkVerified(old(witnesses), fired)
      ensures fired == 2 ==> status == Completed && completedTrail == effectTrail
      ensures fired != 2 ==> status == old(status) && completedTrail == old(completedTrail)
    {
      if timers == [] {
        fired := -1;
        return;
      }
      fired := timers[0];
      MarkNextVerified(witnesses, 3 - |timers|);
      timers := timers[1..];
      witnesses := MarkVerified(witnesses, fired);
      if fired == 2 {
        status := Completed;
        completedTrail := effectTrail;
      }
    }

    /** A click on the replay button; the marker ends on the replay's last frame. */
    method Replay() returns (frames: seq<DronePos>)
      requires Valid()
      modifies this`drone
      ensures Valid()
      ensures !ReplayAvailable() ==> frames == [] && drone == old(drone)
      ensures ReplayAvailable() ==> |frames| == |completedTrail| + 1 && drone == frames[|frames| - 1]
      ensures ReplayAvailable() ==>
        drone == DronePos(completedTrail[|completedTrail| - 1], completedTrail[..|completedTrail| - 1])
    {
      if |completedTrail| == 0 {
        frames := [];
        return;
      }
      var steps;
      frames, steps := ReplayFrames(completedTrail);
      var last := |completedTrail| - 1;
      assert frames[last + 1] == DronePos(completedTrail[last], completedTrail[..last]);
      drone := frames[|frames| - 1];
    }

    /** In every reachable state the task is completed exactly when all three witnesses are verified. */
    lemma CompletedIffAllVerified()
      requires Valid()
      ensures status == Completed <==> CountVerified(witnesses) == 3
    {
      match status
      case Idle => CountFirstVerified(witnesses, 0);
      case Running => CountFirstVerified(witnesses, 3 - |timers|);
      case Completed => CountFirstVerified(witnesses, 3);
    }
  }

  /**
   * A run in which the drone moves after the start: the completed trail is the
   * trail as it was when the run started, not the trail when it completed.
   */
  method StaleTrailRun(d: Vec3) returns (g: GlobeView)
    requires IsJitter(d)
    ensures g.Valid() && g.status == Completed
    ensures g.completedTrail == [] && |g.drone.trail| == 1
  {
    g := new GlobeView();
    var started := g.Start();
    g.Tick(d);
    var k := g.FireTimer();
    assert k == 0;
    k := g.FireTimer();
    assert k == 1;
    k := g.FireTimer();
    assert k == 2;
  }
}
