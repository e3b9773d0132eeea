/** The Python Telegram bot (`services/telegram_bot.py`): the incident type it
    sends for a category, and the per-chat conversation held in `user_states`
    as the command, callback and message handlers move it along. Replies sent
    to the chat, the HTTP calls themselves and the single-instance lock are not
    modelled; the request a handler makes is returned as its `Effect`. */
module TelegramPy {
  import opened Common
  import opened Geo
  import opened TelegramFlow

  /** `_incident_type(category)`: the table's type, else the category lower-cased
      with every space replaced by "_". */
  function IncidentType(category: string): (t: string)
    ensures MenuType(category).Some? ==> t == MenuType(category).value
    ensures MenuType(category).None? ==> |t| == |category| && forall i :: 0 <= i < |t| ==> t[i] != ' '
    ensures MenuType(category).None? ==>
      forall i :: 0 <= i < |t| ==> t[i] == (if category[i] == ' ' then '_' else LowerChar(category[i]))
  {
    if MenuType(category).Some? then MenuType(category).value
    else ReplaceChar(Lower(category), ' ', '_')
  }

  /** Every space becomes its own "_": a run of `k` spaces stays a run of `k`
      underscores at the same place. */
  lemma SpacesKeptOneForOne(category: string, at: nat, k: nat)
    requires MenuType(category).None? && at + k <= |category|
    requires forall i :: at <= i < at + k ==> category[i] == ' '
    ensures IncidentType(category)[at..at + k] == seq(k, _ => '_')
  {
    var run := IncidentType(category)[at..at + k];
    assert forall i :: 0 <= i < k ==> run[i] == '_';
  }

  /** The body `confirm_complaint` posts. A photo's first size is sent, and the
      video's and voice note's file ids. */
  function PyPayload(data: ChatData, reportId: string): Payload
    requires data.location.Some?
  {
    var category := OrElse(data.category, "");
    Payload(reportId, IncidentType(category), category, data.location.value.lat, data.location.value.lng,
            if data.photo.Some? && |data.photo.value| > 0 then Some(data.photo.value[0]) else None,
            if data.video.Some? then Some(data.video.value.fileId) else None,
            data.voice)
  }

  /** `confirm_complaint` on the table: without a location nothing changes and
      nothing is posted; with one, the report is posted and the chat moves to
      POST_SUBMISSION remembering the report id. */
  function Confirm(states: map<ChatId, ChatState>, chatId: ChatId, ms: nat): (step: Step)
    requires chatId in states
    ensures states[chatId].data.location.None? ==> step == Step(states, NoRequest)
    ensures states[chatId].data.location.Some? ==>
      && step.effect == PostIncident(PyPayload(states[chatId].data, ReportId(ms)))
      && step.states == states[chatId := states[chatId].(stage := PostSubmission, lastReportId := Some(ReportId(ms)))]
  {
    var cs := states[chatId];
    if cs.data.location.None? then Step(states, NoRequest)
    else
      var id := ReportId(ms);
      Step(states[chatId := cs.(stage := PostSubmission, lastReportId := Some(id))], PostIncident(PyPayload(cs.data, id)))
  }

  /** `handle_callback` on the table, for callback data `data` (`query.data or ""`). */
  function OnCallback(states: map<ChatId, ChatState>, chatId: ChatId, data: string): Step
  {
    if IsMenuButton(data) then Step(states, NoRequest)
    else if StartsWith(data, "callback_") then Step(states - {chatId}, PostCallback(data[9..]))
    else if StartsWith(data, "details_") then
      // a chat with no state raises `KeyError` here, which leaves the table as it was
      Step(if chatId in states then states[chatId := states[chatId].(stage := AddingDetails)] else states, NoRequest)
    else if data == "done" then Step(states - {chatId}, NoRequest)
    else
      var cs := if chatId in states then states[chatId] else Fresh();
      Step(states[chatId := cs.(data := cs.data.(category := Some(data)), stage := WaitingForLocation)], NoRequest)
  }

  /** `update.message.photo` is truthy: a non-empty list of sizes. */
  predicate HasPhoto(msg: Message)
  {
    msg.photo.Some? && |msg.photo.value| > 0
  }

  /** `handle_message` on the table, at message time `ms` milliseconds. */
  function OnMessage(states: map<ChatId, ChatState>, chatId: ChatId, msg: Message, ms: nat): Step
  {
    var text := Lower(PyStrip(OrElse(msg.text, "")));
    if text in Greetings && chatId !in states then Step(states[chatId := Fresh()], NoRequest)
    else if chatId !in states then Step(states, NoRequest)
    else
      var cs := states[chatId];
      if cs.stage == WaitingForLocation && msg.location.Some? then
        Step(states[chatId := cs.(stage := WaitingForMedia, data := cs.data.(location := msg.location))], NoRequest)
      else if cs.stage == WaitingForMedia && text == "skip" then Confirm(states, chatId, ms)
      else if cs.stage == WaitingForMedia && HasPhoto(msg) then
        Confirm(states[chatId := cs.(data := cs.data.(photo := msg.photo))], chatId, ms)
      else if cs.stage == WaitingForMedia && msg.video.Some? then
        if msg.video.value.duration > 30 then Step(states, NoRequest)
        else Confirm(states[chatId := cs.(data := cs.data.(video := msg.video))], chatId, ms)
      else if cs.stage == WaitingForMedia && msg.voice.Some? then
        Confirm(states[chatId := cs.(data := cs.data.(voice := msg.voice))], chatId, ms)
      else if cs.stage == AddingDetails && OrElse(msg.text, "") != "" then
        Step(states - {chatId}, PostDetails(cs.lastReportId, msg.text.value))
      else Step(states, NoRequest)
  }

  /** The bot process: its `user_states` table. */
  class Bot {
    var userStates: map<ChatId, ChatState>

    constructor ()
      ensures userStates == map[]
    {
      userStates := map[];
    }

    /** `start_bot_flow` (also the `/start` command): the chat starts over at MAIN_MENU with no data. */
    method StartBotFlow(chatId: ChatId)
      modifies this
      ensures userStates == old(userStates)[chatId := Fresh()]
    {
      userStates := userStates[chatId := Fresh()];
    }

    /** `confirm_complaint(chat_id)`; `ms` is the message time in milliseconds. */
    method ConfirmComplaint(chatId: ChatId, ms: nat) returns (effect: Effect)
      requires chatId in userStates
      modifies this
      ensures Step(userStates, effect) == Confirm(old(userStates), chatId, ms)
    {
      var data := userStates[chatId].data;
      var reportId := ReportId(ms);
      if data.location.None? {
        return NoRequest;
      }
      effect := PostIncident(PyPayload(data, reportId));
      userStates := userStates[chatId := userStates[chatId].(lastReportId := Some(reportId))];
      userStates := userStates[chatId := userStates[chatId].(stage := PostSubmission)];
    }

    /** `handle_callback` for a query from `chatId` carrying `queryData`. */
    method HandleCallback(chatId: ChatId, queryData: Option<string>) returns (effect: Effect)
      modifies this
      ensures Step(userStates, effect) == OnCallback(old(userStates), chatId, OrElse(queryData, ""))
    {
      var data := OrElse(queryData, "");
      effect := NoRequest;
      if data == "emergency" || data == "civic" || data == "crime" || data == "back_main" {
        return;
      }
      if StartsWith(data, "callback_") {
        var reportId := data[9..];
        effect := PostCallback(reportId);
        userStates := userStates - {chatId};
        return;
      }
      if StartsWith(data, "details_") {
        if chatId in userStates {
          userStates := userStates[chatId := userStates[chatId].(stage := AddingDetails)];
        }
        return;
      }
      if data == "done" {
        userStates := userStates - {chatId};
        return;
      }
      if chatId !in userStates {
        userStates := userStates[chatId := Fresh()];
      }
      var cs := userStates[chatId];
      userStates := userStates[chatId := cs.(data := cs.data.(category := Some(data)))];
      userStates := userStates[chatId := userStates[chatId].(stage := WaitingForLocation)];
    }

    /** `handle_message` for a message `msg` from `chatId` sent at `ms` milliseconds. */
    method HandleMessage(chatId: ChatId, msg: Message, ms: nat) returns (effect: Effect)
      modifies this
      ensures Step(userStates, effect) == OnMessage(old(userStates), chatId, msg, ms)
    {
      var text := Lower(PyStrip(OrElse(msg.text, "")));
      effect := NoRequest;
      if text in Greetings && chatId !in userStates {
        StartBotFlow(chatId);
        return;
      }
      if chatId !in userStates {
        return;
      }
      var state := userStates[chatId].stage;
      var data := userStates[chatId].data;
      if state == WaitingForLocation && msg.location.Some? {
        userStates := userStates[chatId := userStates[chatId].(data := data.(location := msg.location))];
        userStates := userStates[chatId := userStates[chatId].(stage := WaitingForMedia)];
        return;
      }
      if state == WaitingForMedia && text == "skip" {
        effect := ConfirmComplaint(chatId, ms);
        return;
      }
      if state == WaitingForMedia && HasPhoto(msg) {
        userStates := userStates[chatId := userStates[chatId].(data := data.(photo := msg.photo))];
        effect := ConfirmComplaint(chatId, ms);
        return;
      }
      if state == WaitingForMedia && msg.video.Some? {
        if msg.video.value.duration > 30 {
          return;
        }
        userStates := userStates[chatId := userStates[chatId].(data := data.(video := msg.video))];
        effect := ConfirmComplaint(chatId, ms);
        return;
      }
      if state == WaitingForMedia && msg.voice.Some? {
        userStates := userStates[chatId := userStates[chatId].(data := data.(voice := msg.voice))];
        effect := ConfirmComplaint(chatId, ms);
        return;
      }
      if state == AddingDetails && OrElse(msg.text, "") != "" {
        var reportId := userStates[chatId].lastReportId;
        effect := PostDetails(reportId, msg.text.value);
        userStates := userStates - {chatId};
      }
    }
  }

  /** A greeting from a chat with no state starts the flow; any other message
      from such a chat is ignored. */
  lemma GreetingStartsOnlyStateless(states: map<ChatId, ChatState>, chatId: ChatId, msg: Message, ms: nat)
    requires chatId !in states
    ensures Lower(PyStrip(OrElse(msg.text, ""))) in Greetings ==> OnMessage(states, chatId, msg, ms) == Step(states[chatId := Fresh()], NoRequest)
    ensures Lower(PyStrip(OrElse(msg.text, ""))) !in Greetings ==> OnMessage(states, chatId, msg, ms) == Step(states, NoRequest)
  {
  }

  /** A greeting from a chat that is already in a conversation does not restart it. */
  lemma GreetingMidConversationIgnored(states: map<ChatId, ChatState>, chatId: ChatId, ms: nat)
    requires chatId in states && states[chatId].stage == MainMenu
    ensures OnMessage(states, chatId, Message(Some("Hi "), None, None, None, None), ms) == Step(states, NoRequest)
  {
  }

  /** Choosing a category records it and asks for the location, creating the
      chat's state when there is none; whatever else the chat held is kept,
      and no other chat changes. */
  lemma CategorySelected(states: map<ChatId, ChatState>, chatId: ChatId, data: string)
    requires !IsMenuButton(data) && !StartsWith(data, "callback_") && !StartsWith(data, "details_") && data != "done"
    ensures var after := OnCallback(states, chatId, data);
      && after.effect == NoRequest
      && after.states.Keys == states.Keys + {chatId}
      && after.states[chatId].stage == WaitingForLocation
      && after.states[chatId].data.category == Some(data)
      && (chatId in states ==> after.states[chatId].data.(category := None) == states[chatId].data.(category := None))
      && (chatId in states ==> after.states[chatId].lastReportId == states[chatId].lastReportId)
      && (forall c :: c in states && c != chatId ==> after.states[c] == states[c])
  {
  }

  /** A location shared while the chat waits for one is stored and the chat waits for media. */
  lemma LocationStored(states: map<ChatId, ChatState>, chatId: ChatId, msg: Message, ms: nat)
    requires chatId in states && states[chatId].stage == WaitingForLocation && msg.location.Some?
    requires Lower(PyStrip(OrElse(msg.text, ""))) !in Greetings
    ensures var after := OnMessage(states, chatId, msg, ms);
      && after.effect == NoRequest
      && after.states == states[chatId := states[chatId].(stage := WaitingForMedia, data := states[chatId].data.(location := msg.location))]
  {
  }

  /** A video longer than 30 seconds is refused and nothing changes. */
  lemma LongVideoRejected(states: map<ChatId, ChatState>, chatId: ChatId, msg: Message, ms: nat)
    requires chatId in states && states[chatId].stage == WaitingForMedia
    requires msg.video.Some? && msg.video.value.duration > 30
    requires Lower(PyStrip(OrElse(msg.text, ""))) != "skip" && !HasPhoto(msg)
    ensures OnMessage(states, chatId, msg, ms) == Step(states, NoRequest)
  {
  }

  /** The report id of a callback request is everything after the first "_". */
  lemma CallbackIdIsRest(states: map<ChatId, ChatState>, chatId: ChatId, rest: string)
    ensures OnCallback(states, chatId, "callback_" + rest) == Step(states - {chatId}, PostCallback(rest))
  {
    var data := "callback_" + rest;
    assert data[0] == 'c' && data[1] == 'a' && |data| >= 9;
    assert !IsMenuButton(data);
    assert StartsWith(data, "callback_");
    assert data[9..] == rest;
  }

  /** The three ways out of a conversation remove the chat's state: a callback
      request, "done", and the additional details typed after a report. */
  lemma ExitsForget(states: map<ChatId, ChatState>, chatId: ChatId, msg: Message, ms: nat)
    ensures chatId !in OnCallback(states, chatId, "done").states
    ensures chatId !in OnCallback(states, chatId, "callback_" + ReportId(ms)).states
    ensures chatId in states && states[chatId].stage == AddingDetails && OrElse(msg.text, "") != ""
            && Lower(PyStrip(OrElse(msg.text, ""))) !in Greetings ==>
      OnMessage(states, chatId, msg, ms) == Step(states - {chatId}, PostDetails(states[chatId].lastReportId, msg.text.value))
  {
    CallbackIdIsRest(states, chatId, ReportId(ms));
    assert !IsMenuButton("done") && !StartsWith("done", "callback_") && !StartsWith("done", "details_");
  }

  /** Every handler keeps every chat settled. */
  lemma {:induction false} HandlersKeepSettled(states: map<ChatId, ChatState>, chatId: ChatId, msg: Message, data: string, ms: nat)
    requires AllSettled(states)
    ensures AllSettled(OnMessage(states, chatId, msg, ms).states)
    ensures AllSettled(OnCallback(states, chatId, data).states)
    ensures chatId in states ==> AllSettled(Confirm(states, chatId, ms).states)
  {
    var text := Lower(PyStrip(OrElse(msg.text, "")));
    if chatId in states {
      var cs := states[chatId];
      if cs.stage == WaitingForMedia {
        assert cs.data.location.Some?;
        var withPhoto := states[chatId := cs.(data := cs.data.(photo := msg.photo))];
        var withVideo := states[chatId := cs.(data := cs.data.(video := msg.video))];
        var withVoice := states[chatId := cs.(data := cs.data.(voice := msg.voice))];
        assert AllSettled(withPhoto) && AllSettled(withVideo) && AllSettled(withVoice);
      }
    }
  }

  /** So in every reachable state "skip" while waiting for media always posts
      the report: the "Location is required" path is dead. */
  lemma SkipAlwaysPosts(states: map<ChatId, ChatState>, chatId: ChatId, ms: nat)
    requires AllSettled(states) && chatId in states && states[chatId].stage == WaitingForMedia
    ensures OnMessage(states, chatId, Message(Some("skip"), None, None, None, None), ms).effect.PostIncident?
  {
    assert Lower(PyStrip("skip")) == "skip" by {
      assert PyLStrip("skip") == "skip";
    }
  }

  /** Nothing clears a chat's media between reports: a chat that picks a new
      category after a report with a photo sends that photo again with the
      next report. */
  lemma MediaCarriesOver(states: map<ChatId, ChatState>, chatId: ChatId, data: string, loc: LatLng, ms: nat)
    requires chatId in states && states[chatId].data.photo.Some? && |states[chatId].data.photo.value| > 0
    requires !IsMenuButton(data) && !StartsWith(data, "callback_") && !StartsWith(data, "details_") && data != "done"
    ensures var s1 := OnCallback(states, chatId, data).states;
      var s2 := OnMessage(s1, chatId, Message(None, Some(loc), None, None, None), ms).states;
      var s3 := OnMessage(s2, chatId, Message(Some("skip"), None, None, None, None), ms);
      s3.effect.PostIncident? && s3.effect.payload.photoFileId == Some(states[chatId].data.photo.value[0])
  {
    assert Lower(PyStrip("")) == "";
    assert Lower(PyStrip("skip")) == "skip" by {
      assert PyLStrip("skip") == "skip";
    }
  }
}
