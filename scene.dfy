/**
 * The immersive scene (`ProofOfTaskScene`): its view mode, the hot-key
 * dispatch, the mode cycle and the per-witness `verified` flags kept in the
 * witness meshes' `userData`. Rendering, the particle trail and WebXR are
 * represented only by which side effect a mode switch starts.
 */
module Scene {

  /** The modes `cycleMode` walks through, in order. */
  const Modes: seq<string> := ["globe", "ar", "replay"]

  const InitialMode: string := "globe"

  /** `Array.prototype.indexOf`: the first position holding x, or -1. */
  function IndexOf(s: seq<string>, x: string): (r: int)
    ensures -1 <= r < |s|
    ensures r >= 0 ==> s[r] == x && forall j :: 0 <= j < r ==> s[j] != x
    ensures r == -1 <==> x !in s
  {
    if s == [] then -1
    else if s[0] == x then 0
    else
      var t := IndexOf(s[1..], x);
      if t == -1 then -1 else t + 1
  }

  /** The mode `cycleMode` switches to: `modes[(modes.indexOf(mode) + 1) % modes.length]`. */
  function NextMode(mode: string): (r: string)
    ensures r in Modes
  {
    Modes[(IndexOf(Modes, mode) + 1) % |Modes|]
  }

  lemma CycleOrder()
    ensures NextMode("globe") == "ar" && NextMode("ar") == "replay" && NextMode("replay") == "globe"
  {
    assert IndexOf(Modes, "ar") == 1 && IndexOf(Modes, "replay") == 2;
  }

  /** A mode outside the list has index -1, so the cycle continues at `globe`. */
  lemma UnknownModeCyclesToGlobe(mode: string)
    requires mode !in Modes
    ensures NextMode(mode) == "globe"
  {
  }

  lemma ThreeCyclesReturn(mode: string)
    requires mode in Modes
    ensures NextMode(NextMode(NextMode(mode))) == mode
  {
    CycleOrder();
  }

  /** What a mode switch sets off besides the new mode. */
  datatype Effect = StartsReplay | StartsAR | NoEffect

  /** Only `replay` starts the golden trail and only `ar` starts AR. */
  function SwitchEffect(mode: string): (e: Effect)
    ensures e == StartsReplay <==> mode == "replay"
    ensures e == StartsAR <==> mode == "ar"
  {
    if mode == "replay" then StartsReplay else if mode == "ar" then StartsAR else NoEffect
  }

  /** What a key press asks for. */
  datatype Command = SwitchTo(mode: string) | Cycle | ShowStakePanel | Ignore

  function LowerChar(c: char): char {
    if 'A' <= c <= 'Z' then (c as int + 32) as char else c
  }

  /** `toLowerCase` on the letters A to Z; other characters are kept. */
  function ToLower(s: string): (r: string)
    ensures |r| == |s| && forall i :: 0 <= i < |s| ==> r[i] == LowerChar(s[i])
  {
    seq(|s|, i requires 0 <= i < |s| => LowerChar(s[i]))
  }

  lemma LowerIsChar(key: string, c: char)
    requires 'a' <= c <= 'z' || c == ' '
    ensures ToLower(key) == [c] <==> key == [c] || (c != ' ' && key == [(c as int - 32) as char])
  {
    if ToLower(key) == [c] {
      assert |key| == 1 && LowerChar(key[0]) == c;
    }
  }

  /** The `keydown` switch on `e.key.toLowerCase()`. */
  function KeyCommand(key: string): (cmd: Command)
    ensures cmd == SwitchTo("globe") <==> key == "g" || key == "G"
    ensures cmd == SwitchTo("ar") <==> key == "a" || key == "A"
    ensures cmd == SwitchTo("replay") <==> key == "r" || key == "R"
    ensures cmd == ShowStakePanel <==> key == "s" || key == "S"
    ensures cmd == Cycle <==> key == " "
    ensures cmd.SwitchTo? ==> cmd.mode in Modes
  {
    LowerIsChar(key, 'g');
    LowerIsChar(key, 'a');
    LowerIsChar(key, 'r');
    LowerIsChar(key, 's');
    LowerIsChar(key, ' ');
    var k := ToLower(key);
    if k == "g" then SwitchTo("globe")
    else if k == "a" then SwitchTo("ar")
    else if k == "r" then SwitchTo("replay")
    else if k == "s" then ShowStakePanel
    else if k == " " then Cycle
    else Ignore
  }

  /** The `userData` of a witness obelisk. */
  datatype WitnessData = WitnessData(id: int, verified: bool)

  const WitnessCount: nat := 3

  function InitialWitnessData(): (ws: seq<WitnessData>)
    ensures |ws| == WitnessCount
    ensures forall i :: 0 <= i < |ws| ==> ws[i] == WitnessData(i, false)
  {
    seq(WitnessCount, i requires 0 <= i < WitnessCount => WitnessData(i, false))
  }

  /** How the scene reacts to one key press. */
  datatype Reaction = ModeSwitched(effect: Effect) | StakePanelShown | NoReaction

  class ProofOfTaskScene {
    var mode: string
    var witnesses: array<WitnessData>

    /** Witness ids are their indices and never change. */
    ghost predicate Valid()
      reads this, witnesses
    {
      witnesses.Length == WitnessCount &&
      forall i :: 0 <= i < witnesses.Length ==> witnesses[i].id == i
    }

    constructor ()
      ensures Valid() && fresh(witnesses)
      ensures mode == InitialMode && witnesses[..] == InitialWitnessData()
    {
      mode := InitialMode;
      var ws := new WitnessData[WitnessCount];
      var i := 0;
      while i < WitnessCount
        invariant 0 <= i <= WitnessCount
        invariant forall j :: 0 <= j < i ==> ws[j] == WitnessData(j, false)
      {
        ws[i] := WitnessData(i, false);
        i := i + 1;
      }
      witnesses := ws;
    }

    method SwitchMode(m: string) returns (e: Effect)
      modifies this`mode
      ensures mode == m && e == SwitchEffect(m)
    {
      mode := m;
      e := SwitchEffect(m);
    }

    method CycleMode() returns (e: Effect)
      modifies this`mode
      ensures mode == NextMode(old(mode)) && e == SwitchEffect(mode)
    {
      e := SwitchMode(NextMode(mode));
    }

    /** The hot keys: g, a and r pick their mode, space cycles, s shows the stake panel. */
    method HandleKey(key: string) returns (reaction: Reaction)
      modifies this`mode
      ensures KeyCommand(key).SwitchTo? ==>
        mode == KeyCommand(key).mode && reaction == ModeSwitched(SwitchEffect(mode))
      ensures KeyCommand(key) == Cycle ==>
        mode == NextMode(old(mode)) && reaction == ModeSwitched(SwitchEffect(mode))
      ensures KeyCommand(key) == ShowStakePanel ==> mode == old(mode) && reaction == StakePanelShown
      ensures KeyCommand(key) == Ignore ==> mode == old(mode) && reaction == NoReaction
    {
      var e;
      match KeyCommand(key)
      case SwitchTo(m) =>
        e := SwitchMode(m);
        reaction := ModeSwitched(e);
      case Cycle =>
        e := CycleMode();
        reaction := ModeSwitched(e);
      case ShowStakePanel =>
        reaction := StakePanelShown;
      case Ignore =>
        reaction := NoReaction;
    }

    /** `verifyWitness(i)`: sets witness i's flag when it exists; other indices change nothing. */
    method VerifyWitness(i: int)
      requires Valid()
      modifies witnesses
      ensures Valid()
      ensures 0 <= i < witnesses.Length ==>
        witnesses[..] == old(witnesses[..])[i := WitnessData(i, true)]
      ensures !(0 <= i < witnesses.Length) ==> witnesses[..] == old(witnesses[..])
    {
      if 0 <= i < witnesses.Length {
        witnesses[i] := witnesses[i].(verified := true);
      }
    }
  }
}
