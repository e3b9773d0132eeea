/** What the two Telegram bots (`services/telegram_bot.py` and
    `telegram-bot/index.js`) share: the per-chat conversation state, the
    updates they react to, the requests they send to the backend, and the
    category menu. Each bot's handlers are in its own module. */
module TelegramFlow {
  import opened Common
  import opened Geo
  import Incidents

  type ChatId = int

  /** The `state` field of a chat. */
  datatype Stage = MainMenu | WaitingForLocation | WaitingForMedia | AddingDetails | PostSubmission

  /** A video attachment: its file id and its length in seconds. */
  datatype Video = Video(fileId: string, duration: int)

  /** The `data` dictionary of a chat (`None` for a key not set); a photo is the
      list of file ids of its sizes. */
  datatype ChatData = ChatData(category: Option<string>, location: Option<LatLng>, photo: Option<seq<string>>,
                               video: Option<Video>, voice: Option<string>)

  /** One entry of the chat-state table. */
  datatype ChatState = ChatState(stage: Stage, data: ChatData, lastReportId: Option<string>)

  /** An incoming message: its text, and whichever attachments it carries. */
  datatype Message = Message(text: Option<string>, location: Option<LatLng>, photo: Option<seq<string>>,
                             video: Option<Video>, voice: Option<string>)

  /** The body posted to `/api/incidents/telegram`. */
  datatype Payload = Payload(reportId: string, itype: string, category: string, lat: real, lng: real,
                             photoFileId: Option<string>, videoFileId: Option<string>, voiceFileId: Option<string>)

  /** The backend request a handler makes, if any. */
  datatype Effect =
    | NoRequest
    | PostIncident(payload: Payload)
    | PostCallback(reportId: string)
    | PostDetails(detailsFor: Option<string>, details: string)

  /** The chat-state table after a handler, and the request it made. */
  datatype Step = Step(states: map<ChatId, ChatState>, effect: Effect)

  /** A lookup in `CATEGORY_TO_TYPE`: the type the bots send for each of the
      nine menu categories, `None` for any other string. */
  function MenuType(category: string): Option<string>
  {
    if category == "Fire Incident" then Some("fire")
    else if category == "Medical Emergency" then Some("medical")
    else if category == "Road Accident" then Some("road_accident")
    else if category == "Road Damage" then Some("road_damage")
    else if category == "Garbage Issue" then Some("garbage")
    else if category == "Public Safety Issue" then Some("public_safety")
    else if category == "Theft" then Some("theft")
    else if category == "Suspicious Activity" then Some("suspicious")
    else if category == "Public Disturbance" then Some("public_disturbance")
    else None
  }

  /** The table's nine entries. */
  lemma MenuTypeValues()
    ensures MenuType("Fire Incident") == Some("fire")
    ensures MenuType("Medical Emergency") == Some("medical")
    ensures MenuType("Road Accident") == Some("road_accident")
    ensures MenuType("Road Damage") == Some("road_damage")
    ensures MenuType("Garbage Issue") == Some("garbage")
    ensures MenuType("Public Safety Issue") == Some("public_safety")
    ensures MenuType("Theft") == Some("theft")
    ensures MenuType("Suspicious Activity") == Some("suspicious")
    ensures MenuType("Public Disturbance") == Some("public_disturbance")
  {
  }

  /** Where the emergency menu's categories are stored once the backend
      normalises the type the bots send: fire, medical, accident. Every menu
      type is a key of the backend's own table, so none of the three menus
      reaches the "civic" fallback by accident. */
  lemma EmergencyMenuStored()
    ensures Incidents.NormalizeIncidentType(MenuType("Fire Incident").value) == "fire"
    ensures Incidents.NormalizeIncidentType(MenuType("Medical Emergency").value) == "medical"
    ensures Incidents.NormalizeIncidentType(MenuType("Road Accident").value) == "accident"
  {
    MenuTypeValues();
    PlainKey("fire");
    PlainKey("medical");
    PlainKey("road_accident");
  }

  /** The civic menu's categories are all stored as "civic". */
  lemma CivicMenuStored()
    ensures Incidents.NormalizeIncidentType(MenuType("Road Damage").value) == "civic"
    ensures Incidents.NormalizeIncidentType(MenuType("Garbage Issue").value) == "civic"
    ensures Incidents.NormalizeIncidentType(MenuType("Public Safety Issue").value) == "civic"
  {
    MenuTypeValues();
    Incidents.NormalizedRawTypes();
  }

  /** The law-and-order menu: theft and suspicious activity are stored as
      "crime", a public disturbance as "civic". */
  lemma CrimeMenuStored()
    ensures Incidents.NormalizeIncidentType(MenuType("Theft").value) == "crime"
    ensures Incidents.NormalizeIncidentType(MenuType("Suspicious Activity").value) == "crime"
    ensures Incidents.NormalizeIncidentType(MenuType("Public Disturbance").value) == "civic"
  {
    MenuTypeValues();
    Incidents.NormalizedRawTypes();
  }

  /** `GREETINGS`. */
  const Greetings: set<string> := {"hi", "hello", "hey"}

  /** The buttons that only open another menu. */
  predicate IsMenuButton(data: string)
  {
    data == "emergency" || data == "civic" || data == "crime" || data == "back_main"
  }

  /** `{"state": "MAIN_MENU", "data": {}}`. */
  function Fresh(): ChatState
  {
    ChatState(MainMenu, ChatData(None, None, None, None, None), None)
  }

  /** `CIV-<milliseconds>`. */
  function ReportId(ms: nat): (id: string)
    ensures |id| > 4 && id[..4] == "CIV-"
    ensures forall i :: 0 <= i < |id| ==> id[i] != '_'
  {
    "CIV-" + NatToString(ms)
  }

  /** What every chat state reachable through the handlers satisfies: a chat
      waiting for media, or one past submission, has its location, and one
      past submission knows its report id. */
  predicate Settled(cs: ChatState)
  {
    && (cs.stage == WaitingForMedia || cs.stage == PostSubmission ==> cs.data.location.Some?)
    && (cs.stage == PostSubmission ==> cs.lastReportId.Some?)
  }

  predicate AllSettled(states: map<ChatId, ChatState>)
  {
    forall c :: c in states ==> Settled(states[c])
  }
}
