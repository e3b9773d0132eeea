/** The simulated radio exchange emitted on every dispatch
    (`services/radio_comms.py`): control always calls the unit, and the unit
    answers only when it was patrolling. */
module RadioComms {
  import opened Common
  import opened Geo
  import opened Store
  import HexLabels

  /** `_INCIDENT_TYPE_TO_SPEECH`. */
  function SpeechTable(): map<string, string>
  {
    map["fire" := "fire incident", "medical" := "medical emergency", "accident" := "road accident",
        "crime" := "crime report", "civic" := "civic issue"]
  }

  /** `_incident_type_for_speech`: the trimmed, lower-cased type through the
      table; otherwise with underscores read as spaces, or "incident" when empty. */
  function SpeechFor(incidentType: string): (speech: string)
    ensures var key := Lower(PyStrip(incidentType));
      && (key in SpeechTable() ==> speech == SpeechTable()[key])
      && (key !in SpeechTable() && key != "" ==> speech == ReplaceChar(key, '_', ' '))
      && (key == "" ==> speech == "incident")
    ensures speech != ""
  {
    var key := Lower(PyStrip(incidentType));
    if key in SpeechTable() then SpeechTable()[key]
    else if ReplaceChar(key, '_', ' ') != "" then ReplaceChar(key, '_', ' ')
    else "incident"
  }

  /** `_vehicle_id_short`: the last six characters of a longer id, else the whole id. */
  function VehicleIdShort(vehicleId: string): (short: string)
    ensures |vehicleId| > 6 ==> |short| == 6 && vehicleId == vehicleId[..|vehicleId| - 6] + short
    ensures |vehicleId| <= 6 ==> short == vehicleId
  {
    if |vehicleId| > 6 then vehicleId[|vehicleId| - 6..] else vehicleId
  }

  /** The grid name spoken on the radio: the label when the lookup succeeded,
      otherwise the first 8 characters of the id (or "?"). */
  function HexName(lookup: Option<string>, hexId: CellId): (name: string)
    ensures lookup.Some? ==> name == lookup.value
    ensures lookup.None? ==> name == HexLabels.Unlabelled(hexId)
  {
    if lookup.Some? then lookup.value else Take(if hexId == "" then "?" else hexId, 8)
  }

  function ControlText(vidShort: string, speech: string, hexName: string): string
  {
    "Control to " + vidShort + ", respond to " + speech + " in grid " + hexName
  }

  function DispatchText(vidShort: string, hexName: string): string
  {
    "Dispatch " + vidShort + " to control, en route to grid " + hexName
  }

  /** `vehicle_prev_status and vehicle_prev_status.lower() == "patrolling"`. */
  predicate WasPatrolling(prevStatus: string)
  {
    prevStatus != "" && Lower(prevStatus) == "patrolling"
  }

  /** The `radio_comm` events of `trigger_radio_comms`, in emission order. */
  function RadioMessages(vehicleId: string, prevStatus: string, incidentType: string, hexName: string): (msgs: seq<Event>)
    ensures 1 <= |msgs| <= 2
    ensures msgs[0] == RadioComm("control", ControlText(VehicleIdShort(vehicleId), SpeechFor(incidentType), hexName))
    ensures |msgs| == 2 <==> WasPatrolling(prevStatus)
    ensures |msgs| == 2 ==> msgs[1] == RadioComm("dispatch", DispatchText(VehicleIdShort(vehicleId), hexName))
  {
    var short := VehicleIdShort(vehicleId);
    var control := RadioComm("control", ControlText(short, SpeechFor(incidentType), hexName));
    if WasPatrolling(prevStatus) then [control, RadioComm("dispatch", DispatchText(short, hexName))]
    else [control]
  }

  /** Status strings differing only in ASCII case trigger the same reply. */
  lemma PatrollingIgnoresCase(a: string, b: string)
    requires Lower(a) == Lower(b)
    ensures WasPatrolling(a) == WasPatrolling(b)
  {
  }

  /** A type that is itself a key of the table is spoken with that key's phrase. */
  lemma StoredTypesSpoken(t: string)
    requires t in SpeechTable()
    ensures SpeechFor(t) == SpeechTable()[t]
  {
    if t == "fire" {
      PlainKey("fire");
    } else if t == "medical" {
      PlainKey("medical");
    } else if t == "accident" {
      PlainKey("accident");
    } else if t == "crime" {
      PlainKey("crime");
    } else {
      PlainKey("civic");
    }
  }
}
