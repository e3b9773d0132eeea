/** The radio routes (`routes/radio.py`): resolving a static clip name to one
    of the two clips, the guard on generated-audio file names, and the text and
    speaker of a single radio line. Serving files and speech synthesis are not
    modelled. */
module RadioRoutes {
  import opened Common
  import opened Geo
  import opened Store
  import HexLabels

  /** The characters `rstrip(".mp3")` removes: it strips characters, not the suffix. */
  const Mp3Chars: set<char> := {'.', 'm', 'p', '3'}

  /** `name.lower().rstrip(".mp3")`. */
  function StaticKey(name: string): (key: string)
    ensures |key| <= |name| && key == Lower(name)[..|key|]
    ensures forall i :: |key| <= i < |name| ==> Lower(name)[i] in Mp3Chars
    ensures key == "" || key[|key| - 1] !in Mp3Chars
  {
    RStripCharsSpec(Lower(name), Mp3Chars);
    RStripChars(Lower(name), Mp3Chars)
  }

  /** The keys of `_STATIC_FILES`. */
  predicate IsStaticClip(key: string)
  {
    key == "controller" || key == "dispatch"
  }

  /** `serve_static_audio(name)`: the clip the name resolves to, `None` for the 404. */
  function StaticClip(name: string): (clip: Option<string>)
    ensures clip.Some? <==> IsStaticClip(StaticKey(name))
    ensures clip.Some? ==> clip.value == StaticKey(name)
  {
    var key := StaticKey(name);
    if IsStaticClip(key) then Some(key) else None
  }

  /** Appending any run of '.', 'm', 'p', '3' (in either case for the letters)
      to a name does not change its key: "dispatch.mp3", "dispatch.MP3.mp3"
      and "dispatchm" all name the dispatch clip. */
  lemma {:induction false} TrailingRunIgnored(name: string, run: string)
    requires forall i :: 0 <= i < |run| ==> LowerChar(run[i]) in Mp3Chars
    ensures StaticKey(name + run) == StaticKey(name)
    decreases |run|
  {
    if run != [] {
      var shorter := run[..|run| - 1];
      var x := Lower(name + run);
      assert x[|x| - 1] == LowerChar(run[|run| - 1]);
      assert x[..|x| - 1] == Lower(name + shorter) by {
        forall i | 0 <= i < |x| - 1
          ensures x[i] == Lower(name + shorter)[i]
        {
          assert (name + run)[i] == (name + shorter)[i];
        }
      }
      assert RStripChars(x, Mp3Chars) == RStripChars(x[..|x| - 1], Mp3Chars);
      TrailingRunIgnored(name, shorter);
    } else {
      assert name + run == name;
    }
  }

  /** A clip name in any letter case, followed by any run of '.', 'm', 'p',
      '3' (such as ".mp3" or ".MP3"), resolves to that clip. */
  lemma ClipNamesResolve(base: string, run: string)
    requires Lower(base) == "controller" || Lower(base) == "dispatch"
    requires forall i :: 0 <= i < |run| ==> LowerChar(run[i]) in Mp3Chars
    ensures StaticClip(base + run) == Some(Lower(base))
  {
    TrailingRunIgnored(base, run);
    var l := Lower(base);
    assert l[|l| - 1] !in Mp3Chars;
  }

  /** The filename contains `..`. */
  predicate HasDotDot(s: string)
  {
    exists i :: 0 <= i < |s| - 1 && s[i] == '.' && s[i + 1] == '.'
  }

  /** A scan for `..`. */
  function ContainsDotDot(s: string): (found: bool)
    ensures found <==> HasDotDot(s)
  {
    if |s| < 2 then false
    else if s[0] == '.' && s[1] == '.' then true
    else
      var rest := ContainsDotDot(s[1..]);
      assert HasDotDot(s) ==> HasDotDot(s[1..]) by {
        if HasDotDot(s) {
          var i :| 0 <= i < |s| - 1 && s[i] == '.' && s[i + 1] == '.';
          assert i > 0 && s[1..][i - 1] == '.' && s[1..][i] == '.';
        }
      }
      assert HasDotDot(s[1..]) ==> HasDotDot(s) by {
        if HasDotDot(s[1..]) {
          var i :| 0 <= i < |s| - 2 && s[1..][i] == '.' && s[1..][i + 1] == '.';
          assert s[i + 1] == '.' && s[i + 2] == '.';
        }
      }
      rest
  }

  /** The guard of `serve_audio(filename)`: a name holding `..` or `/` is refused (400). */
  function AudioFilenameAllowed(filename: string): (ok: bool)
    ensures ok <==> (forall i :: 0 <= i < |filename| ==> filename[i] != '/') && !HasDotDot(filename)
  {
    !ContainsChar(filename, '/') && !ContainsDotDot(filename)
  }

  /** The fields of an incident-line request (`None` for an absent field). */
  datatype LineRequest = LineRequest(role: Option<string>, vehicleId: Option<string>, incidentType: Option<string>,
                                     hexLabel: Option<string>, hexId: Option<string>)

  /** What `incident_line` answers (the audio part is not modelled). */
  datatype LineResponse =
    | VehicleIdRequired
    | Line(text: string, speaker: nat)

  /** `(role or "control").strip().lower()`. */
  function LineRole(req: LineRequest): string
  {
    Lower(PyStrip(OrElse(req.role, "control")))
  }

  /** The line for a role: "dispatch" selects the unit's reply and speaker 1,
      every other role the control call and speaker 0. */
  function LineFor(role: string, vehicleId: string, incidentType: string, hexLabel: string): (line: LineResponse)
    ensures line.Line?
    ensures line.speaker == 1 <==> role == "dispatch"
    ensures line.speaker == 0 <==> role != "dispatch"
    ensures role == "dispatch" ==> line.text == "Dispatch " + vehicleId + " to control, en route to hex " + hexLabel + "."
    ensures role != "dispatch" ==>
      line.text == "Control to " + vehicleId + ", respond to " + incidentType + " in hex " + hexLabel + "."
  {
    if role == "dispatch" then Line("Dispatch " + vehicleId + " to control, en route to hex " + hexLabel + ".", 1)
    else Line("Control to " + vehicleId + ", respond to " + incidentType + " in hex " + hexLabel + ".", 0)
  }

  /** `incident_line` (`POST /api/radio/incident-line`). The label is resolved
      first (through the label cache when only a cell id is given, "the area"
      when that raises or nothing is given), so the cache can be built even
      when the request is then refused for lacking a vehicle id. */
  method IncidentLine(db: Db, labels: HexLabels.LabelCache, req: LineRequest, dbUp: bool) returns (resp: LineResponse)
    modifies labels
    ensures resp == VehicleIdRequired <==> OrElse(req.vehicleId, "") == ""
    ensures resp.Line? ==> resp == LineFor(LineRole(req), req.vehicleId.value,
                                           ReplaceChar(OrElse(req.incidentType, "incident"), '_', ' '),
                                           HexLabelOf(req, labels.cache))
    ensures OrElse(req.hexLabel, "") != "" || OrElse(req.hexId, "") == "" ==> labels.cache == old(labels.cache)
    ensures old(labels.cache).Some? ==> labels.cache == old(labels.cache)
    ensures OrElse(req.hexLabel, "") == "" && OrElse(req.hexId, "") != "" ==>
      labels.cache == HexLabels.CacheAfter(old(labels.cache), db.cells.Keys, dbUp)
  {
    var role := LineRole(req);
    var incidentType := ReplaceChar(OrElse(req.incidentType, "incident"), '_', ' ');
    var hexLabel := req.hexLabel;
    if OrElse(hexLabel, "") == "" && OrElse(req.hexId, "") != "" {
      var looked := labels.GetHexLabel(db, req.hexId.value, dbUp);
      hexLabel := if looked.Some? then looked else Some("the area");
    }
    var spoken := OrElse(hexLabel, "the area");
    if OrElse(req.vehicleId, "") == "" {
      return VehicleIdRequired;
    }
    resp := LineFor(role, req.vehicleId.value, incidentType, spoken);
  }

  /** The label the line speaks, given the cache as it stands after the lookup:
      the given label; else the cached name of the given cell, "the area" when
      the cache could not be built; else "the area". */
  function HexLabelOf(req: LineRequest, cache: Option<map<CellId, string>>): (name: string)
    ensures OrElse(req.hexLabel, "") != "" ==> name == req.hexLabel.value
    ensures OrElse(req.hexLabel, "") == "" && OrElse(req.hexId, "") == "" ==> name == "the area"
    ensures OrElse(req.hexLabel, "") == "" && OrElse(req.hexId, "") != "" && cache.None? ==> name == "the area"
    ensures OrElse(req.hexLabel, "") == "" && OrElse(req.hexId, "") != "" && cache.Some? ==>
      var looked := HexLabels.Lookup(cache, req.hexId.value).value;
      (looked != "" ==> name == looked) && (looked == "" ==> name == "the area")
  {
    if OrElse(req.hexLabel, "") != "" then req.hexLabel.value
    else if OrElse(req.hexId, "") == "" then "the area"
    else OrElse(HexLabels.Lookup(cache, req.hexId.value), "the area")
  }
}
