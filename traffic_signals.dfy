/** The traffic-signal endpoint (`routes/traffic_signals.py`): fixed-time
    signals that cycle GREEN, YELLOW, RED with a per-signal offset, the table of
    Chennai junctions they are built from, and the listing that forces a signal
    GREEN while its cell lies in the active green corridor. */
module TrafficSignals {
  import opened Common
  import opened Geo
  import HexService
  import Corridor

  datatype Phase = Green | Yellow | Red

  /** Python's `int(t)` on a float: truncation toward zero. */
  function Trunc(t: real): (n: int)
    ensures t >= 0.0 ==> n as real <= t < n as real + 1.0
    ensures t < 0.0 ==> n as real - 1.0 < t <= n as real
  {
    if t >= 0.0 then t.Floor else -((-t).Floor)
  }

  /** Python's `a % n`: the remainder takes the sign of the divisor. */
  function PyMod(a: int, n: int): (r: int)
    requires n != 0
    ensures n > 0 ==> 0 <= r < n
    ensures n < 0 ==> n < r <= 0
    ensures (a - r) % n == 0
  {
    var e := a % n;
    assert a - e == n * (a / n);
    assert a - (e + n) == n * (a / n - 1);
    ModUnique(a - e, n, a / n, 0);
    ModUnique(a - (e + n), n, a / n - 1, 0);
    if n < 0 && e != 0 then e + n else e
  }

  /** Adding a whole number of periods does not move the remainder. */
  lemma PyModPeriodic(a: int, k: int, n: int)
    requires n != 0
    ensures PyMod(a + k * n, n) == PyMod(a, n)
  {
    if k >= 0 {
      PyModForward(a, k, n);
    } else {
      var b := a + k * n;
      PyModForward(b, -k, n);
      assert b + (-k) * n == a;
    }
  }

  /** The same for a non-negative number of periods, one period at a time. */
  lemma {:induction false} PyModForward(a: int, k: nat, n: int)
    requires n != 0
    ensures PyMod(a + k * n, n) == PyMod(a, n)
  {
    if k > 0 {
      var b := a + (k - 1) * n;
      PyModForward(a, k - 1, n);
      PyModStep(b, n);
      assert b + n == a + k * n;
    }
  }

  /** One period. */
  lemma PyModStep(a: int, n: int)
    requires n != 0
    ensures PyMod(a + n, n) == PyMod(a, n)
  {
    var q := a / n;
    assert a == n * q + a % n;
    assert a + n == n * (q + 1) + a % n;
    assert (a + n) % n == a % n by {
      ModUnique(a + n, n, q + 1, a % n);
    }
  }

  /** Euclidean remainders are unique. */
  lemma ModUnique(x: int, n: int, q: int, r: int)
    requires n != 0 && x == n * q + r && 0 <= r < (if n < 0 then -n else n)
    ensures x % n == r
  {
    var q', r' := x / n, x % n;
    assert x == n * q' + r';
    var m := if n < 0 then -n else n;
    var d := if n < 0 then q' - q else q - q';
    assert m * d == r' - r by {
      assert n * q - n * q' == r' - r;
      if n < 0 {
        assert m * d == n * q - n * q';
      } else {
        assert m * d == n * q - n * q';
      }
    }
    if d > 0 {
      MulAtLeast(m, d);
    } else if d < 0 {
      MulAtLeast(m, -d);
    }
  }

  /** A positive multiple of a positive number is at least that number. */
  lemma {:induction false} MulAtLeast(m: int, d: int)
    requires m > 0 && d > 0
    ensures m * d >= m
    decreases d
  {
    if d > 1 {
      MulAtLeast(m, d - 1);
      assert m * d == m * (d - 1) + m;
    }
  }

  /** The phase at a position of the cycle: GREEN for the first `green` seconds,
      YELLOW for the next `yellow`, RED for the rest. */
  function PhaseOf(green: int, yellow: int, pos: int): (p: Phase)
    ensures p == Green <==> pos < green
    ensures p == Yellow <==> green <= pos < green + yellow
    ensures p == Red <==> green <= pos && green + yellow <= pos
  {
    if pos < green then Green else if pos < green + yellow then Yellow else Red
  }

  /** A `TrafficSignal` of the API. */
  datatype Signal = Signal(id: string, name: string, lat: real, lng: real, green: int, yellow: int, red: int, offset: int)

  /** `cycle_s`: with non-negative timings it is at least each of them, and
      zero only when all three are. */
  function Cycle(sig: Signal): (c: int)
    ensures sig.green >= 0 && sig.yellow >= 0 && sig.red >= 0 ==>
      && c >= sig.green && c >= sig.yellow && c >= sig.red
      && (c == 0 <==> sig.green == 0 && sig.yellow == 0 && sig.red == 0)
  {
    sig.green + sig.yellow + sig.red
  }

  /** `phase_at(t)`: the phase at position `(int(t) + offset_s) % cycle_s` of the
      cycle (a zero-length cycle raises, so it is excluded). */
  function PhaseAt(sig: Signal, t: real): (p: Phase)
    requires Cycle(sig) != 0
    ensures var pos := PyMod(Trunc(t) + sig.offset, Cycle(sig));
      && (p == Green <==> pos < sig.green)
      && (p == Yellow <==> sig.green <= pos < sig.green + sig.yellow)
      && (p == Red <==> sig.green <= pos && sig.green + sig.yellow <= pos)
    ensures sig.green >= 0 && sig.yellow >= 0 && sig.red >= 0 ==>
      && (p == Green ==> sig.green > 0)
      && (p == Yellow ==> sig.yellow > 0)
      && (p == Red ==> sig.red > 0)
  {
    PhaseOf(sig.green, sig.yellow, PyMod(Trunc(t) + sig.offset, Cycle(sig)))
  }

  /** On whole seconds the phase repeats every `cycle_s` seconds. */
  lemma PhasePeriodic(sig: Signal, n: int, k: int)
    requires Cycle(sig) != 0
    ensures PhaseAt(sig, (n + k * Cycle(sig)) as real) == PhaseAt(sig, n as real)
  {
    assert Trunc((n + k * Cycle(sig)) as real) == n + k * Cycle(sig);
    assert Trunc(n as real) == n;
    PyModPeriodic(n + sig.offset, k, Cycle(sig));
    assert n + k * Cycle(sig) + sig.offset == n + sig.offset + k * Cycle(sig);
  }

  /** The offset staggers the signals: from the epoch on, a signal with offset
      `k >= 0` shows at `t` what the same signal without offset shows at `t + k`. */
  lemma OffsetShift(sig: Signal, t: real)
    requires Cycle(sig) != 0 && t >= 0.0 && sig.offset >= 0
    ensures PhaseAt(sig, t) == PhaseAt(sig.(offset := 0), t + sig.offset as real)
  {
    var f := Trunc(t);
    assert f as real <= t < f as real + 1.0;
    assert Trunc(t + sig.offset as real) == f + sig.offset;
  }

  /** How many of the positions `0 .. n-1` show phase `ph`. */
  function Tally(green: int, yellow: int, ph: Phase, n: nat): nat
  {
    if n == 0 then 0 else Tally(green, yellow, ph, n - 1) + (if PhaseOf(green, yellow, n - 1) == ph then 1 else 0)
  }

  /** The tallies of a prefix of the cycle in closed form. */
  lemma {:induction false} TallyPrefix(green: nat, yellow: nat, n: nat)
    ensures Tally(green, yellow, Green, n) == if n <= green then n else green
    ensures Tally(green, yellow, Yellow, n) == if n <= green then 0 else if n <= green + yellow then n - green else yellow
    ensures Tally(green, yellow, Red, n) == if n <= green + yellow then 0 else n - green - yellow
  {
    if n > 0 {
      TallyPrefix(green, yellow, n - 1);
    }
  }

  /** One full cycle spends exactly `green_s` positions GREEN, `yellow_s` YELLOW
      and `red_s` RED. */
  lemma CycleSplit(green: nat, yellow: nat, red: nat)
    ensures Tally(green, yellow, Green, green + yellow + red) == green
    ensures Tally(green, yellow, Yellow, green + yellow + red) == yellow
    ensures Tally(green, yellow, Red, green + yellow + red) == red
  {
    TallyPrefix(green, yellow, green + yellow + red);
  }

  /** One row of the junction table: name, position and phase stagger. */
  datatype Junction = Junction(name: string, lat: real, lng: real, offset: int)

  /** The junctions of `_real_chennai_signals`, in order. */
  const Junctions: seq<Junction> := [
    Junction("Kathipara Junction", 13.0073, 80.2037, 0),
    Junction("Koyambedu Roundtana", 13.0761, 80.1992, 12),
    Junction("Guindy Kathipara", 13.0108, 80.2037, 24),
    Junction("Egmore Station", 13.0774, 80.2609, 5),
    Junction("Chennai Central", 13.0825, 80.2757, 18),
    Junction("Anna Nagar Roundtana", 13.0878, 80.2070, 30),
    Junction("T Nagar Pondy Bazaar", 13.0417, 80.2330, 8),
    Junction("Adyar Ananda Bhavan", 13.0040, 80.2558, 22),
    Junction("Velachery Main Rd", 12.9792, 80.2209, 14),
    Junction("Thiruvanmiyur MRTS", 12.9848, 80.2573, 6),
    Junction("Sholinganallur OMR", 12.9010, 80.2274, 28),
    Junction("Poonamallee High Rd", 13.0487, 80.1105, 10),
    Junction("Tambaram GST Rd", 12.9229, 80.1275, 20),
    Junction("Chromepet Phoenix", 12.9510, 80.1400, 2),
    Junction("Ambattur OT", 13.1143, 80.1548, 16),
    Junction("Madhavaram Milk Colony", 13.1379, 80.2490, 26),
    Junction("Perungudi OMR", 12.9705, 80.2414, 4),
    Junction("Saidapet Guindy", 13.0212, 80.2252, 32),
    Junction("Ashok Nagar", 13.0382, 80.2121, 11),
    Junction("Washermanpet", 13.1113, 80.2911, 24),
    Junction("Ennore Highway", 13.2144, 80.3216, 7),
    Junction("Anna Salai Nandanam", 13.0280, 80.2280, 19),
    Junction("OMR Thoraipakkam", 12.9350, 80.2280, 13),
    Junction("ECR Thiruvanmiyur", 12.9820, 80.2580, 1),
    Junction("GNT Road Red Hills", 13.1650, 80.2450, 15),
    Junction("Avadi Main Rd", 13.1150, 80.1010, 9),
    Junction("Purasawalkam", 13.0920, 80.2620, 23),
    Junction("Mylapore Tank", 13.0320, 80.2650, 17),
    Junction("Besant Nagar", 13.0060, 80.2680, 3),
    Junction("Vadapalani", 13.0520, 80.2120, 27),
    Junction("Porur", 13.0350, 80.1560, 21),
    Junction("Medavakkam", 12.9180, 80.1980, 5),
    Junction("Pallavaram", 12.9680, 80.1510, 29),
    Junction("Vandalur", 12.8920, 80.0810, 31)
  ]

  /** `f"sig_{idx}"`. */
  function SignalId(idx: nat): string
  {
    "sig_" + NatToString(idx)
  }

  /** Different positions get different ids. */
  lemma {:induction false} SignalIdsDiffer(m: nat, n: nat)
    requires m != n
    ensures SignalId(m) != SignalId(n)
  {
    if SignalId(m) == SignalId(n) {
      assert SignalId(m)[4..] == NatToString(m);
      assert SignalId(n)[4..] == NatToString(n);
      NatToStringInjective(m, n);
    }
  }

  /** The signal built from the junction at 1-based position `idx`, with the default 35/4/35 timings. */
  function SignalOf(idx: nat, j: Junction): (sig: Signal)
    ensures sig.id == SignalId(idx) && sig.name == j.name && sig.lat == j.lat && sig.lng == j.lng
    ensures sig.offset == j.offset && Cycle(sig) == 74
  {
    Signal(SignalId(idx), j.name, j.lat, j.lng, 35, 4, 35, j.offset)
  }

  /** `_real_chennai_signals()`: one signal per junction, in table order, numbered from 1. */
  method RealChennaiSignals() returns (signals: seq<Signal>)
    ensures |signals| == |Junctions|
    ensures forall i :: 0 <= i < |Junctions| ==>
      signals[i].name == Junctions[i].name && signals[i].lat == Junctions[i].lat && signals[i].lng == Junctions[i].lng
      && signals[i].offset == Junctions[i].offset
    ensures forall i :: 0 <= i < |signals| ==> signals[i].id == SignalId(i + 1) && Cycle(signals[i]) == 74
    ensures forall i, j :: 0 <= i < j < |signals| ==> signals[i].id != signals[j].id
  {
    signals := [];
    for i := 0 to |Junctions|
      invariant |signals| == i
      invariant forall k :: 0 <= k < i ==> signals[k] == SignalOf(k + 1, Junctions[k])
    {
      signals := signals + [SignalOf(i + 1, Junctions[i])];
    }
    forall i, j | 0 <= i < j < |signals|
      ensures signals[i].id != signals[j].id
    {
      SignalIdsDiffer(i + 1, j + 1);
    }
  }

  /** One entry of the listing. */
  datatype SignalView = SignalView(id: string, name: string, lat: real, lng: real, phase: Phase)

  /** A signal is forced GREEN when the cell index is available, the corridor
      is non-empty and the signal's cell is in it. */
  predicate Forced(sig: Signal, hexes: Option<HexService.Service>, corridorHexes: set<CellId>)
  {
    hexes.Some? && corridorHexes != {} && HexService.HexIdOf(hexes.value, sig.lat, sig.lng) in corridorHexes
  }

  /** The listing entry of one signal. */
  function ViewOf(sig: Signal, now: real, hexes: Option<HexService.Service>, corridorHexes: set<CellId>): (v: SignalView)
    requires Cycle(sig) != 0
    ensures v.id == sig.id && v.name == sig.name && v.lat == sig.lat && v.lng == sig.lng
    ensures v.phase == Green <==> Forced(sig, hexes, corridorHexes) || PhaseAt(sig, now) == Green
    ensures v.phase != Green ==> v.phase == PhaseAt(sig, now)
  {
    SignalView(sig.id, sig.name, sig.lat, sig.lng, if Forced(sig, hexes, corridorHexes) then Green else PhaseAt(sig, now))
  }

  /** The corridor cells `list_signals` sees: the active cells, or none when the lookup raises. */
  function CorridorSeen(state: Corridor.State, now: real, corridorUp: bool): set<CellId>
  {
    if corridorUp then Corridor.Visible(state, now) else {}
  }

  /** `list_signals()` at clock `now`. `corridorUp` is false when the corridor
      lookup raises; `hexes` is the cell index, `None` when it is not installed. */
  method ListSignals(signals: seq<Signal>, corridor: Corridor.Engine, corridorUp: bool, hexes: Option<HexService.Service>, now: real)
    returns (views: seq<SignalView>)
    requires forall i :: 0 <= i < |signals| ==> Cycle(signals[i]) != 0
    modifies corridor
    ensures |views| == |signals|
    ensures forall i :: 0 <= i < |signals| ==>
      views[i] == ViewOf(signals[i], now, hexes, CorridorSeen(old(corridor.Snapshot()), now, corridorUp))
    ensures corridorUp ==> corridor.Snapshot() == Corridor.AfterRead(old(corridor.Snapshot()), now)
    ensures !corridorUp ==> corridor.Snapshot() == old(corridor.Snapshot())
  {
    var corridorHexes: set<CellId> := {};
    if corridorUp {
      var active := corridor.GetActiveHexes(now);
      corridorHexes := set h | h in active;
    }
    views := [];
    for i := 0 to |signals|
      invariant |views| == i
      invariant forall k :: 0 <= k < i ==> views[k] == ViewOf(signals[k], now, hexes, corridorHexes)
    {
      var sig := signals[i];
      var phase := PhaseAt(sig, now);
      if hexes.Some? && corridorHexes != {} {
        var sigHex := HexService.HexIdOf(hexes.value, sig.lat, sig.lng);
        if sigHex in corridorHexes {
          phase := Green;
        }
      }
      views := views + [SignalView(sig.id, sig.name, sig.lat, sig.lng, phase)];
    }
  }

  /** With the cell index present and a non-empty corridor, a signal shows GREEN
      when its cell is in the corridor and its own cycle phase otherwise. */
  lemma ForcedIffInCorridor(sig: Signal, now: real, svc: HexService.Service, corridorHexes: set<CellId>)
    requires Cycle(sig) != 0 && corridorHexes != {}
    ensures HexService.HexIdOf(svc, sig.lat, sig.lng) in corridorHexes ==> ViewOf(sig, now, Some(svc), corridorHexes).phase == Green
    ensures HexService.HexIdOf(svc, sig.lat, sig.lng) !in corridorHexes ==> ViewOf(sig, now, Some(svc), corridorHexes).phase == PhaseAt(sig, now)
  {
  }

  /** An empty or failed corridor lookup, or a missing cell index, forces nothing. */
  lemma NothingForcedWithoutCorridor(sig: Signal, now: real, hexes: Option<HexService.Service>, state: Corridor.State, corridorUp: bool)
    requires Cycle(sig) != 0
    requires hexes.None? || !corridorUp || Corridor.Visible(state, now) == {}
    ensures ViewOf(sig, now, hexes, CorridorSeen(state, now, corridorUp)).phase == PhaseAt(sig, now)
  {
  }
}
