/** Density alerting (`IncidentIntelligenceEngine`): after every new incident
    the incident's cell gets its incident count refreshed, and a patrol alert
    is raised when the cell (or, for accidents, its accidents) reaches a
    threshold. The comparison is `>=` and nothing is de-duplicated, so every
    incident past a threshold raises the alert again. */
module Intelligence {
  import opened Common
  import opened Geo
  import opened Store

  /** An engine and its two thresholds. */
  datatype Engine = Engine(densityThreshold: int, accidentThreshold: int)

  /** `IncidentIntelligenceEngine()` with the default thresholds. */
  function DefaultEngine(): (engine: Engine)
    ensures engine.densityThreshold == 5 && engine.accidentThreshold == 3
  {
    Engine(5, 3)
  }

  const DensityAlertType: string := "high_incident_density"
  const AccidentAlertType: string := "ambulance_prestation_suggestion"

  /** `SELECT COUNT(*) FROM incidents WHERE hex_id = ...`, as the set counted. */
  function IncidentsIn(incidents: map<IncidentId, Incident>, hexId: CellId): set<IncidentId>
  {
    set id | id in incidents && incidents[id].hexId == hexId
  }

  /** The same count restricted to `type = 'accident'`. */
  function AccidentsIn(incidents: map<IncidentId, Incident>, hexId: CellId): set<IncidentId>
  {
    set id | id in incidents && incidents[id].hexId == hexId && incidents[id].itype == "accident"
  }

  /** The density alert row for a cell. */
  function DensityAlert(hexId: CellId): Alert
  {
    Alert(hexId, DensityAlertType, "High incident density in hex " + hexId + ". Increase patrol frequency.")
  }

  /** The pre-stationing alert row for a cell. */
  function AccidentAlert(hexId: CellId): Alert
  {
    Alert(hexId, AccidentAlertType, "Repeated accidents detected in hex " + hexId + ". Consider ambulance pre-stationing nearby.")
  }

  /** The density branch fires: the cell is stored and holds at least the threshold of incidents. */
  predicate DensityFires(engine: Engine, cells: map<CellId, Cell>, incidents: map<IncidentId, Incident>, hexId: CellId)
  {
    hexId in cells && |IncidentsIn(incidents, hexId)| >= engine.densityThreshold
  }

  /** The accident branch fires: the incident is an accident and its cell holds at
      least the threshold of accidents (whether or not the cell is stored). */
  predicate AccidentFires(engine: Engine, incidents: map<IncidentId, Incident>, incident: Incident)
  {
    incident.itype == "accident" && |AccidentsIn(incidents, incident.hexId)| >= engine.accidentThreshold
  }

  /** The alerts `process_incident` returns for `incident` against the stored tables. */
  function AlertsFor(engine: Engine, cells: map<CellId, Cell>, incidents: map<IncidentId, Incident>, incident: Incident): (alerts: seq<Alert>)
    ensures |alerts| <= 2
    ensures forall a :: a in alerts ==> a.hexId == incident.hexId
    ensures DensityAlert(incident.hexId) in alerts <==> DensityFires(engine, cells, incidents, incident.hexId)
    ensures AccidentAlert(incident.hexId) in alerts <==> AccidentFires(engine, incidents, incident)
    ensures forall a :: a in alerts ==> a == DensityAlert(incident.hexId) || a == AccidentAlert(incident.hexId)
    ensures |alerts| == 2 ==> alerts == [DensityAlert(incident.hexId), AccidentAlert(incident.hexId)]
  {
    var h := incident.hexId;
    (if DensityFires(engine, cells, incidents, h) then [DensityAlert(h)] else [])
      + (if AccidentFires(engine, incidents, incident) then [AccidentAlert(h)] else [])
  }

  /** The cell table after `process_incident`: only the incident's cell changes,
      its count set to the cell's incidents and its score raised by exactly 1.0
      when the density branch fires. */
  function CellsAfter(engine: Engine, cells: map<CellId, Cell>, incidents: map<IncidentId, Incident>, hexId: CellId): (after: map<CellId, Cell>)
    ensures after.Keys == cells.Keys
    ensures forall h :: h in cells && h != hexId ==> after[h] == cells[h]
    ensures hexId in cells ==>
      && after[hexId].center == cells[hexId].center
      && after[hexId].incidentCount == |IncidentsIn(incidents, hexId)|
      && after[hexId].priorityScore == cells[hexId].priorityScore + (if DensityFires(engine, cells, incidents, hexId) then 1.0 else 0.0)
  {
    if hexId !in cells then cells
    else
      var counted := cells[hexId].(incidentCount := |IncidentsIn(incidents, hexId)|);
      cells[hexId := if DensityFires(engine, cells, incidents, hexId) then counted.(priorityScore := counted.priorityScore + 1.0) else counted]
  }

  /** The `patrol_alert` events for a list of alerts, one each, in list order. */
  function Emitted(alerts: seq<Alert>): (events: seq<Event>)
    ensures |events| == |alerts|
    ensures forall i :: 0 <= i < |alerts| ==> events[i] == PatrolAlert(alerts[i])
  {
    if alerts == [] then [] else [PatrolAlert(alerts[0])] + Emitted(alerts[1..])
  }

  /** `process_incident(incident)`: refresh the cell's count, raise its score and
      insert the alerts that fire, then emit each alert. The incident row is
      already stored when this runs. */
  method ProcessIncident(engine: Engine, db: Db, incident: Incident) returns (alerts: seq<Alert>)
    modifies db
    ensures alerts == AlertsFor(engine, old(db.cells), old(db.incidents), incident)
    ensures db.cells == CellsAfter(engine, old(db.cells), old(db.incidents), incident.hexId)
    ensures db.alerts == old(db.alerts) + alerts
    ensures db.events == old(db.events) + Emitted(alerts)
    ensures db.vehicles == old(db.vehicles) && db.incidents == old(db.incidents)
  {
    var density := RefreshCell(engine, db, incident.hexId);
    var accident := CheckAccidents(engine, db, incident);
    alerts := density + accident;
    EmitAlerts(db, alerts);
  }

  /** The density half: refresh the cell's count and, past the threshold, raise
      its score and insert a density alert. An unstored cell is left alone. */
  method RefreshCell(engine: Engine, db: Db, h: CellId) returns (alerts: seq<Alert>)
    modifies db
    ensures alerts == if DensityFires(engine, old(db.cells), old(db.incidents), h) then [DensityAlert(h)] else []
    ensures db.cells == CellsAfter(engine, old(db.cells), old(db.incidents), h)
    ensures db.alerts == old(db.alerts) + alerts
    ensures db.events == old(db.events) && db.vehicles == old(db.vehicles) && db.incidents == old(db.incidents)
  {
    alerts := [];
    if h in db.cells {
      var currentCount := |IncidentsIn(db.incidents, h)|;
      db.cells := db.cells[h := db.cells[h].(incidentCount := currentCount)];
      if currentCount >= engine.densityThreshold {
        db.cells := db.cells[h := db.cells[h].(priorityScore := db.cells[h].priorityScore + 1.0)];
        var alert := DensityAlert(h);
        db.alerts := db.alerts + [alert];
        alerts := [alert];
      }
    }
  }

  /** The accident half: for an accident whose cell holds enough accidents, insert
      a pre-stationing alert. */
  method CheckAccidents(engine: Engine, db: Db, incident: Incident) returns (alerts: seq<Alert>)
    modifies db
    ensures alerts == if AccidentFires(engine, old(db.incidents), incident) then [AccidentAlert(incident.hexId)] else []
    ensures db.alerts == old(db.alerts) + alerts
    ensures db.cells == old(db.cells) && db.events == old(db.events)
    ensures db.vehicles == old(db.vehicles) && db.incidents == old(db.incidents)
  {
    alerts := [];
    if incident.itype == "accident" {
      var accidentCount := |AccidentsIn(db.incidents, incident.hexId)|;
      if accidentCount >= engine.accidentThreshold {
        var alert := AccidentAlert(incident.hexId);
        db.alerts := db.alerts + [alert];
        alerts := [alert];
      }
    }
  }

  /** The closing `for alert in alerts: self._emit_alert(alert)`. */
  method EmitAlerts(db: Db, alerts: seq<Alert>)
    modifies db
    ensures db.events == old(db.events) + Emitted(alerts)
    ensures db.vehicles == old(db.vehicles) && db.incidents == old(db.incidents)
    ensures db.cells == old(db.cells) && db.alerts == old(db.alerts)
  {
    for i := 0 to |alerts|
      invariant db.events == old(db.events) + Emitted(alerts[..i])
      invariant db.vehicles == old(db.vehicles) && db.incidents == old(db.incidents)
      invariant db.cells == old(db.cells) && db.alerts == old(db.alerts)
    {
      EmittedSnoc(alerts[..i], alerts[i]);
      assert alerts[..i + 1] == alerts[..i] + [alerts[i]];
      db.events := db.events + [PatrolAlert(alerts[i])];
    }
    assert alerts[..|alerts|] == alerts;
  }

  /** Emitting one more alert appends one event. */
  lemma {:induction false} EmittedSnoc(alerts: seq<Alert>, a: Alert)
    ensures Emitted(alerts + [a]) == Emitted(alerts) + [PatrolAlert(a)]
  {
    var lhs, rhs := Emitted(alerts + [a]), Emitted(alerts) + [PatrolAlert(a)];
    assert |lhs| == |rhs|;
    forall i | 0 <= i < |lhs|
      ensures lhs[i] == rhs[i]
    {
      if i < |alerts| {
        assert (alerts + [a])[i] == alerts[i];
      }
    }
  }

  /** Below both thresholds nothing is raised and no score moves. */
  lemma BelowThresholdsQuiet(engine: Engine, cells: map<CellId, Cell>, incidents: map<IncidentId, Incident>, incident: Incident)
    requires |IncidentsIn(incidents, incident.hexId)| < engine.densityThreshold
    requires |AccidentsIn(incidents, incident.hexId)| < engine.accidentThreshold
    ensures AlertsFor(engine, cells, incidents, incident) == []
    ensures forall h :: h in cells ==> CellsAfter(engine, cells, incidents, incident.hexId)[h].priorityScore == cells[h].priorityScore
  {
  }

  /** Storing a new incident adds exactly it to its cell's incidents, and to the
      cell's accidents when it is one. */
  lemma StoringCountsOnce(incidents: map<IncidentId, Incident>, id: IncidentId, incident: Incident)
    requires id !in incidents
    ensures IncidentsIn(incidents[id := incident], incident.hexId) == IncidentsIn(incidents, incident.hexId) + {id}
    ensures |IncidentsIn(incidents[id := incident], incident.hexId)| == |IncidentsIn(incidents, incident.hexId)| + 1
    ensures incident.itype == "accident" ==>
      |AccidentsIn(incidents[id := incident], incident.hexId)| == |AccidentsIn(incidents, incident.hexId)| + 1
  {
    IncidentAdded(incidents, id, incident);
    if incident.itype == "accident" {
      AccidentAdded(incidents, id, incident);
    }
  }

  lemma IncidentAdded(incidents: map<IncidentId, Incident>, id: IncidentId, incident: Incident)
    requires id !in incidents
    ensures IncidentsIn(incidents[id := incident], incident.hexId) == IncidentsIn(incidents, incident.hexId) + {id}
    ensures id !in IncidentsIn(incidents, incident.hexId)
  {
  }

  lemma AccidentAdded(incidents: map<IncidentId, Incident>, id: IncidentId, incident: Incident)
    requires id !in incidents && incident.itype == "accident"
    ensures AccidentsIn(incidents[id := incident], incident.hexId) == AccidentsIn(incidents, incident.hexId) + {id}
    ensures id !in AccidentsIn(incidents, incident.hexId)
  {
  }

  /** No de-duplication: once a stored cell has reached the density threshold,
      every further incident stored in it raises the density alert again and
      raises the score again. */
  lemma {:induction false} DensityAlertRepeats(engine: Engine, cells: map<CellId, Cell>, incidents: map<IncidentId, Incident>,
                                               id: IncidentId, incident: Incident)
    requires incident.hexId in cells
    requires |IncidentsIn(incidents, incident.hexId)| >= engine.densityThreshold
    requires id !in incidents
    ensures var alerts := AlertsFor(engine, cells, incidents[id := incident], incident);
      |alerts| >= 1 && alerts[0] == DensityAlert(incident.hexId)
    ensures CellsAfter(engine, cells, incidents[id := incident], incident.hexId)[incident.hexId].priorityScore
            == cells[incident.hexId].priorityScore + 1.0
  {
    StoringCountsOnce(incidents, id, incident);
    var alerts := AlertsFor(engine, cells, incidents[id := incident], incident);
    assert DensityAlert(incident.hexId) in alerts;
  }

  /** The same for accidents: past the accident threshold every further
      accident stored in the cell raises the pre-stationing alert, stored cell or not. */
  lemma {:induction false} AccidentAlertRepeats(engine: Engine, cells: map<CellId, Cell>, incidents: map<IncidentId, Incident>,
                                                id: IncidentId, incident: Incident)
    requires incident.itype == "accident"
    requires |AccidentsIn(incidents, incident.hexId)| >= engine.accidentThreshold
    requires id !in incidents
    ensures AccidentAlert(incident.hexId) in AlertsFor(engine, cells, incidents[id := incident], incident)
  {
    StoringCountsOnce(incidents, id, incident);
  }
}
