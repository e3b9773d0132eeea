/** The green-corridor engine: one time-windowed set of cells whose traffic
    signals are forced to GREEN. `activate` replaces the set and opens a
    600-second window, `clear` empties it, and both reads expire the set
    lazily (the test is `now > expires_at`, so the last instant still counts).
    The clock is the parameter `now`; the module lock is left out. */
module Corridor {
  import Common
  import opened Geo

  /** `CORRIDOR_DURATION_S`. */
  const DurationS: real := 600.0

  /** The two module globals as a value. */
  datatype State = State(active: set<CellId>, expiresAt: real)

  /** The globals right after import. */
  function Initial(): State
  {
    State({}, 0.0)
  }

  /** `activate(hex_ids)` at time `now`. */
  function Activated(hexIds: seq<CellId>, now: real): State
  {
    State((set h | h in hexIds), now + DurationS)
  }

  /** `clear()`. */
  function Cleared(): State
  {
    State({}, 0.0)
  }

  /** The state after either read at time `now`: the set is emptied in place once the window has passed. */
  function AfterRead(s: State, now: real): State
  {
    if now > s.expiresAt then State({}, s.expiresAt) else s
  }

  /** The cells a read at `now` reports. */
  function Visible(s: State, now: real): set<CellId>
  {
    if now > s.expiresAt then {} else s.active
  }

  /** `activate` discards the previous set: what is visible afterwards is exactly
      the given ids (duplicates collapsed) for the whole window, whatever was active before:
      `Activated` does not read the previous state. */
  lemma ActivateReplaces(hexIds: seq<CellId>, now: real, later: real)
    requires now <= later <= now + DurationS
    ensures Visible(Activated(hexIds, now), later) == set h | h in hexIds
    ensures forall h :: h in Visible(Activated(hexIds, now), later) <==> h in hexIds
  {
  }

  /** The window closes 600 seconds after activation: strictly later, nothing is visible. */
  lemma ActivationExpires(hexIds: seq<CellId>, now: real, later: real)
    requires later > now + DurationS
    ensures Visible(Activated(hexIds, now), later) == {}
  {
  }

  /** After `clear`, every read at a positive time reports no corridor. */
  lemma ClearedIsInvisible(now: real)
    requires now > 0.0
    ensures Visible(Cleared(), now) == {}
  {
  }

  /** A read changes nothing that any later read could observe, and never moves the expiry. */
  lemma ReadIsUnobservable(s: State, now: real, later: real)
    requires now <= later
    ensures Visible(AfterRead(s, now), later) == Visible(s, later)
    ensures AfterRead(s, now).expiresAt == s.expiresAt
  {
  }

  /** The engine's globals `_active_hexes` and `_expires_at`. */
  class Engine {
    var activeHexes: set<CellId>
    var expiresAt: real

    function Snapshot(): State
      reads this
    {
      State(activeHexes, expiresAt)
    }

    constructor ()
      ensures Snapshot() == Initial()
    {
      activeHexes, expiresAt := {}, 0.0;
    }

    /** `activate(hex_ids)`. */
    method Activate(hexIds: seq<CellId>, now: real)
      modifies this
      ensures Snapshot() == Activated(hexIds, now)
    {
      activeHexes := set h | h in hexIds;
      expiresAt := now + DurationS;
    }

    /** `clear()`. */
    method Clear()
      modifies this
      ensures Snapshot() == Cleared()
    {
      activeHexes := {};
      expiresAt := 0.0;
    }

    /** `is_hex_in_corridor(hex_id)`: true iff the window is still open at `now` and the cell is in the set. */
    method IsHexInCorridor(hexId: CellId, now: real) returns (inCorridor: bool)
      modifies this
      ensures inCorridor <==> now <= old(expiresAt) && hexId in old(activeHexes)
      ensures inCorridor <==> hexId in Visible(old(Snapshot()), now)
      ensures Snapshot() == AfterRead(old(Snapshot()), now)
    {
      if now > expiresAt {
        activeHexes := {};
        return false;
      }
      return hexId in activeHexes;
    }

    /** `get_active_hexes()`: the stored cells, once each and in no particular order, or none after expiry. */
    method GetActiveHexes(now: real) returns (hexes: seq<CellId>)
      modifies this
      ensures forall h :: h in hexes <==> h in Visible(old(Snapshot()), now)
      ensures forall i, j :: 0 <= i < j < |hexes| ==> hexes[i] != hexes[j]
      ensures Snapshot() == AfterRead(old(Snapshot()), now)
    {
      if now > expiresAt {
        activeHexes := {};
        return [];
      }
      hexes := Common.ListOf(activeHexes);
    }
  }
}
