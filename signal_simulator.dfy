/** The console traffic-signal simulator (`scripts/traffic_signal_simulator.py`):
    its own signal record without an offset, its phase function on a shared
    clock, and the labels it prints. The printing loop is not modelled. */
module SignalSimulator {
  import opened TrafficSignals

  /** The simulator's `TrafficSignal`: no offset field. */
  datatype SimSignal = SimSignal(id: string, name: string, lat: real, lng: real, green: int, yellow: int, red: int)

  /** A signal with the default 35/4/35 timings. */
  function DefaultSignal(id: string, name: string, lat: real, lng: real): SimSignal
  {
    SimSignal(id, name, lat, lng, 35, 4, 35)
  }

  /** `cycle_s`. */
  function SimCycle(sig: SimSignal): int
  {
    sig.green + sig.yellow + sig.red
  }

  /** The position `int(t) % cycle_s` of the shared clock within the cycle:
      the whole second reduced by a multiple of the cycle, within the cycle. */
  function Position(sig: SimSignal, t: real): (pos: int)
    requires SimCycle(sig) != 0
    ensures SimCycle(sig) > 0 ==> 0 <= pos < SimCycle(sig)
    ensures SimCycle(sig) < 0 ==> SimCycle(sig) < pos <= 0
    ensures (Trunc(t) - pos) % SimCycle(sig) == 0
  {
    PyMod(Trunc(t), SimCycle(sig))
  }

  /** `phase_at(t)`: GREEN before `green_s`, YELLOW for the next `yellow_s`
      seconds, RED for the rest of the cycle. */
  function SimPhaseAt(sig: SimSignal, t: real): (p: Phase)
    requires SimCycle(sig) != 0
    ensures p == Green <==> Position(sig, t) < sig.green
    ensures p == Yellow <==> sig.green <= Position(sig, t) < sig.green + sig.yellow
    ensures p == Red <==> sig.green <= Position(sig, t) && sig.green + sig.yellow <= Position(sig, t)
  {
    PhaseOf(sig.green, sig.yellow, Position(sig, t))
  }

  /** The simulator agrees with the API's signals at offset zero. */
  lemma SimulatorIsZeroOffset(sig: SimSignal, t: real)
    requires SimCycle(sig) != 0
    ensures SimPhaseAt(sig, t) == PhaseAt(Signal(sig.id, sig.name, sig.lat, sig.lng, sig.green, sig.yellow, sig.red, 0), t)
  {
  }

  /** With the default timings a cycle is 74 seconds, of which 35 are GREEN,
      4 YELLOW and 35 RED. */
  lemma DefaultSplit(id: string, name: string, lat: real, lng: real)
    ensures SimCycle(DefaultSignal(id, name, lat, lng)) == 74
    ensures Tally(35, 4, Green, 74) == 35
    ensures Tally(35, 4, Yellow, 74) == 4
    ensures Tally(35, 4, Red, 74) == 35
  {
    CycleSplit(35, 4, 35);
  }

  /** `format_phase(phase)`: the fixed console label of each phase. */
  function FormatPhase(p: Phase): (text: string)
    ensures p == Green ==> text == "GREEN  (go)"
    ensures p == Yellow ==> text == "YELLOW (prepare)"
    ensures p == Red ==> text == "RED    (stop)"
  {
    if p == Green then "GREEN  (go)"
    else if p == Yellow then "YELLOW (prepare)"
    else "RED    (stop)"
  }

  /** Every label is as wide as the others' column and different phases print
      differently, so the label identifies the phase. */
  lemma FormatPhaseDistinct(p: Phase, q: Phase)
    ensures |FormatPhase(p)| >= 11
    ensures FormatPhase(p) == FormatPhase(q) <==> p == q
  {
    assert "GREEN  (go)"[0] == 'G' && "YELLOW (prepare)"[0] == 'Y' && "RED    (stop)"[0] == 'R';
  }

  /** The ten sample signals, all with the default timings. */
  const SimSignals: seq<SimSignal> := [
    DefaultSignal("sig_egmore", "Egmore Junction", 13.0774, 80.2609),
    DefaultSignal("sig_central", "Chennai Central", 13.0825, 80.2757),
    DefaultSignal("sig_guindy", "Guindy Kathipara", 13.0108, 80.2037),
    DefaultSignal("sig_adyar", "Adyar Signal", 13.0040, 80.2558),
    DefaultSignal("sig_tnagar", "T Nagar Panagal", 13.0417, 80.2330),
    DefaultSignal("sig_velachery", "Velachery Main", 12.9792, 80.2209),
    DefaultSignal("sig_thiruvanmiyur", "Thiruvanmiyur", 12.9848, 80.2573),
    DefaultSignal("sig_omr_sholinganallur", "OMR Sholinganallur", 12.9010, 80.2274),
    DefaultSignal("sig_anna_nagar", "Anna Nagar Roundtana", 13.0878, 80.2070),
    DefaultSignal("sig_poonamallee", "Poonamallee Junction", 13.0487, 80.1105)
  ]

  /** All simulated signals share one clock, so at any moment they all show the same phase. */
  lemma SimulatedSignalsInStep(t: real, i: nat, j: nat)
    requires i < |SimSignals| && j < |SimSignals|
    ensures SimCycle(SimSignals[i]) == 74 && SimCycle(SimSignals[j]) == 74
    ensures SimPhaseAt(SimSignals[i], t) == SimPhaseAt(SimSignals[j], t)
  {
  }
}
