/** The Node Telegram bot (`telegram-bot/index.js`): the same conversation as
    the Python bot, with JavaScript's truthiness, `trim()`, a whitespace-run
    replacement in the incident type and `split("_")[1]` for the report id of a
    callback request. Replies, HTTP calls and the lock file are not modelled. */
module TelegramJs {
  import opened Common
  import opened Geo
  import opened TelegramFlow
  import TelegramPy

  /** `s` without the character `c`. */
  function Without(s: string, c: char): string
  {
    if s == [] then [] else (if s[0] == c then [] else [s[0]]) + Without(s[1..], c)
  }

  /** `s` without its whitespace. */
  function NonWhitespace(s: string): string
  {
    if s == [] then [] else (if IsJsWhitespace(s[0]) then [] else [s[0]]) + NonWhitespace(s[1..])
  }

  /** How many times `c` occurs in `s`. */
  function CountOf(s: string, c: char): nat
  {
    if s == [] then 0 else (if s[0] == c then 1 else 0) + CountOf(s[1..], c)
  }

  /** The number of maximal whitespace runs in `s` that do not continue a run
      before it (`inRun`). */
  function RunCount(s: string, inRun: bool): nat
  {
    if s == [] then 0
    else (if IsJsWhitespace(s[0]) && !inRun then 1 else 0) + RunCount(s[1..], IsJsWhitespace(s[0]))
  }

  /** `s.replace(/\s+/g, "_")`: every maximal run of whitespace becomes one "_";
      `inRun` says whether the character before `s` was whitespace.
      `CollapseKeeps` states what is kept. */
  function CollapseRuns(s: string, inRun: bool): (r: string)
    ensures |r| <= |s|
    ensures forall i :: 0 <= i < |r| ==> !IsJsWhitespace(r[i])
  {
    if s == [] then []
    else if IsJsWhitespace(s[0]) then
      var rest := CollapseRuns(s[1..], true);
      if inRun then rest else "_" + rest
    else [s[0]] + CollapseRuns(s[1..], false)
  }

  /** What is not whitespace is kept in order, and the "_"s are the input's own
      plus one per whitespace run. */
  lemma {:induction false} CollapseKeeps(s: string, inRun: bool)
    ensures Without(CollapseRuns(s, inRun), '_') == Without(NonWhitespace(s), '_')
    ensures CountOf(CollapseRuns(s, inRun), '_') == CountOf(s, '_') + RunCount(s, inRun)
  {
    if s != [] {
      CollapseKeeps(s[1..], IsJsWhitespace(s[0]));
      var rest := CollapseRuns(s[1..], IsJsWhitespace(s[0]));
      if IsJsWhitespace(s[0]) {
        assert NonWhitespace(s) == NonWhitespace(s[1..]);
        if !inRun {
          assert ("_" + rest)[1..] == rest;
        }
      } else {
        assert NonWhitespace(s) == [s[0]] + NonWhitespace(s[1..]);
        assert ([s[0]] + NonWhitespace(s[1..]))[1..] == NonWhitespace(s[1..]);
        assert ([s[0]] + rest)[1..] == rest;
      }
    }
  }

  /** `incidentType(category)`: the table's type, else the category lower-cased
      with each whitespace run replaced by one "_". */
  function IncidentType(category: string): (t: string)
    ensures MenuType(category).Some? ==> t == MenuType(category).value
    ensures MenuType(category).None? ==>
      && |t| <= |category|
      && (forall i :: 0 <= i < |t| ==> !IsJsWhitespace(t[i]))
      && Without(t, '_') == Without(NonWhitespace(Lower(category)), '_')
      && CountOf(t, '_') == CountOf(category, '_') + RunCount(Lower(category), false)
  {
    if MenuType(category).Some? then MenuType(category).value
    else
      LowerKeepsUnderscores(category);
      CollapseKeeps(Lower(category), false);
      CollapseRuns(Lower(category), false)
  }

  /** Lower-casing changes no "_". */
  lemma {:induction false} LowerKeepsUnderscores(s: string)
    ensures CountOf(Lower(s), '_') == CountOf(s, '_')
  {
    if s != [] {
      assert Lower(s)[1..] == Lower(s[1..]);
      LowerKeepsUnderscores(s[1..]);
    }
  }

  /** A maximal whitespace run becomes one "_", or nothing when it continues
      the run before it. */
  lemma {:induction false} CollapseRun(run: string, rest: string, inRun: bool)
    requires run != [] && forall i :: 0 <= i < |run| ==> IsJsWhitespace(run[i])
    requires rest == [] || !IsJsWhitespace(rest[0])
    ensures CollapseRuns(run + rest, inRun) == (if inRun then "" else "_") + CollapseRuns(rest, false)
  {
    assert (run + rest)[0] == run[0];
    assert (run + rest)[1..] == run[1..] + rest;
    if |run| > 1 {
      CollapseRun(run[1..], rest, true);
    } else {
      assert run[1..] + rest == rest;
    }
  }

  /** Where a category holds no whitespace but single spaces, replacing runs
      and replacing single spaces agree. */
  lemma {:induction false} CollapseIsReplace(s: string, inRun: bool)
    requires forall i :: 0 <= i < |s| && IsJsWhitespace(s[i]) ==> s[i] == ' '
    requires forall i :: 0 <= i < |s| - 1 ==> !(s[i] == ' ' && s[i + 1] == ' ')
    requires inRun ==> s == [] || s[0] != ' '
    ensures CollapseRuns(s, inRun) == ReplaceChar(s, ' ', '_')
  {
    if s != [] {
      CollapseIsReplace(s[1..], s[0] == ' ');
      assert ReplaceChar(s, ' ', '_') == [if s[0] == ' ' then '_' else s[0]] + ReplaceChar(s[1..], ' ', '_');
    }
  }

  /** The two bots send the same type for every category whose only whitespace
      is single spaces. */
  lemma BotsAgreeOnSingleSpaced(category: string)
    requires forall i :: 0 <= i < |category| && IsJsWhitespace(category[i]) ==> category[i] == ' '
    requires forall i :: 0 <= i < |category| - 1 ==> !(category[i] == ' ' && category[i + 1] == ' ')
    ensures IncidentType(category) == TelegramPy.IncidentType(category)
  {
    if MenuType(category).None? {
      CollapseIsReplace(Lower(category), false);
    }
  }

  /** A word with no whitespace passes through unchanged and ends any run. */
  lemma {:induction false} CollapseWord(word: string, rest: string, inRun: bool)
    requires word != [] && forall i :: 0 <= i < |word| ==> !IsJsWhitespace(word[i])
    ensures CollapseRuns(word + rest, inRun) == word + CollapseRuns(rest, false)
  {
    assert (word + rest)[0] == word[0];
    assert (word + rest)[1..] == word[1..] + rest;
    if |word| > 1 {
      CollapseWord(word[1..], rest, false);
    }
  }

  /** They part on other whitespace: two spaces give one "_" here and two in the
      Python bot. */
  lemma BotsDivergeOnDoubleSpace()
    ensures IncidentType("x  y") == "x_y"
    ensures TelegramPy.IncidentType("x  y") == "x__y"
  {
    assert Lower("x  y") == "x  y";
    assert CollapseRuns("x  y", false) == "x" + CollapseRuns("  y", false);
    assert CollapseRuns("  y", false) == "_" + CollapseRuns(" y", true);
    assert CollapseRuns(" y", true) == CollapseRuns("y", true);
  }

  /** And a tab is replaced here but kept by the Python bot, which replaces spaces only. */
  lemma BotsDivergeOnTab()
    ensures IncidentType("x\ty") == "x_y"
    ensures TelegramPy.IncidentType("x\ty") == "x\ty"
  {
    assert Lower("x\ty") == "x\ty";
    assert CollapseRuns("x\ty", false) == "x" + CollapseRuns("\ty", false);
    assert CollapseRuns("\ty", false) == "_" + CollapseRuns("y", true);
  }

  /** The first occurrence of a character is where it occurs with none before it. */
  lemma FirstIndexOf(s: string, c: char, k: nat)
    requires k < |s| && s[k] == c
    requires forall i :: 0 <= i < k ==> s[i] != c
    ensures IndexOfChar(s, c) == k
  {
  }

  /** A callback request `callback_<rest>`: not a menu button, its first "_"
      is the one after "callback", and `rest` follows it. */
  lemma CallbackPrefix(rest: string)
    ensures var cb := "callback_" + rest;
      StartsWith(cb, "callback_") && !IsMenuButton(cb) && cb[9..] == rest && cb[8] == '_'
      && IndexOfChar(cb, '_') == 8
  {
    var cb := "callback_" + rest;
    assert cb[..9] == "callback_";
    assert forall i :: 0 <= i < 9 ==> cb[i] == "callback_"[i];
    FirstIndexOf(cb, '_', 8);
    assert cb[0] == 'c' && cb[1] == 'a';
  }

  /** The segment `split("_")[1]` takes from a callback request. */
  lemma CallbackSegment(id: string, tail: string)
    requires forall i :: 0 <= i < |id| ==> id[i] != '_'
    ensures var cb := "callback_" + id + tail;
      StartsWith(cb, "callback_") && !IsMenuButton(cb) && cb[9..] == id + tail && cb[8] == '_'
      && (tail == [] || tail[0] == '_' ==> SecondSegment(cb) == id)
  {
    var rest := id + tail;
    assert "callback_" + id + tail == "callback_" + rest;
    CallbackPrefix(rest);
    if tail == [] {
      assert rest == id;
      assert IndexOfChar(rest, '_') == |id|;
      assert rest[..|id|] == id;
    } else if tail[0] == '_' {
      FirstIndexOf(rest, '_', |id|);
      assert rest[..|id|] == id;
    }
  }

  /** `x?.file_id || null`: an absent or empty id is sent as null. */
  function FileId(id: Option<string>): Option<string>
  {
    if id.Some? && id.value != "" then id else None
  }

  /** The body `confirmComplaint` posts. */
  function JsPayload(data: ChatData, reportId: string): Payload
    requires data.location.Some?
  {
    var category := OrElse(data.category, "");
    Payload(reportId, IncidentType(category), category, data.location.value.lat, data.location.value.lng,
            FileId(if data.photo.Some? && |data.photo.value| > 0 then Some(data.photo.value[0]) else None),
            FileId(if data.video.Some? then Some(data.video.value.fileId) else None),
            FileId(data.voice))
  }

  /** `confirmComplaint` on the table: a chat without state or without a
      location is left alone; otherwise the report is posted and the chat moves
      to POST_SUBMISSION with its report id. */
  function Confirm(states: map<ChatId, ChatState>, chatId: ChatId, ms: nat): (step: Step)
    ensures chatId !in states || states[chatId].data.location.None? ==> step == Step(states, NoRequest)
    ensures chatId in states && states[chatId].data.location.Some? ==>
      && step.effect == PostIncident(JsPayload(states[chatId].data, ReportId(ms)))
      && step.states == states[chatId := states[chatId].(stage := PostSubmission, lastReportId := Some(ReportId(ms)))]
  {
    if chatId !in states then Step(states, NoRequest)
    else
      var cs := states[chatId];
      if cs.data.location.None? then Step(states, NoRequest)
      else
        var id := ReportId(ms);
        Step(states[chatId := cs.(stage := PostSubmission, lastReportId := Some(id))], PostIncident(JsPayload(cs.data, id)))
  }

  /** `data.split("_")[1]`: the text between the first "_" and the next one (or the end). */
  function SecondSegment(data: string): (seg: string)
    requires ContainsChar(data, '_')
    ensures forall i :: 0 <= i < |seg| ==> seg[i] != '_'
  {
    var rest := data[IndexOfChar(data, '_') + 1..];
    rest[..IndexOfChar(rest, '_')]
  }

  /** The callback-query handler on the table, for callback data `data`. */
  function OnCallback(states: map<ChatId, ChatState>, chatId: ChatId, data: string): Step
  {
    if IsMenuButton(data) then Step(states, NoRequest)
    else if StartsWith(data, "callback_") then
      assert data[8] == '_';
      Step(states - {chatId}, PostCallback(SecondSegment(data)))
    else if StartsWith(data, "details_") then
      // `userStates.get(chatId)` is undefined for a chat with no state: the handler throws, the table stays
      Step(if chatId in states then states[chatId := states[chatId].(stage := AddingDetails)] else states, NoRequest)
    else if data == "done" then Step(states - {chatId}, NoRequest)
    else
      var cs := if chatId in states then states[chatId] else Fresh();
      Step(states[chatId := cs.(data := cs.data.(category := Some(data)), stage := WaitingForLocation)], NoRequest)
  }

  /** The message handler on the table. A photo counts when the message has one,
      even an empty list (an array is truthy). */
  function OnMessage(states: map<ChatId, ChatState>, chatId: ChatId, msg: Message, ms: nat): Step
  {
    var text := Lower(JsTrim(OrElse(msg.text, "")));
    if text in Greetings && chatId !in states then Step(states[chatId := Fresh()], NoRequest)
    else if chatId !in states then Step(states, NoRequest)
    else
      var cs := states[chatId];
      if cs.stage == WaitingForLocation && msg.location.Some? then
        Step(states[chatId := cs.(stage := WaitingForMedia, data := cs.data.(location := msg.location))], NoRequest)
      else if cs.stage == WaitingForMedia && text == "skip" then Confirm(states, chatId, ms)
      else if cs.stage == WaitingForMedia && msg.photo.Some? then
        Confirm(states[chatId := cs.(data := cs.data.(photo := msg.photo))], chatId, ms)
      else if cs.stage == WaitingForMedia && msg.video.Some? then
        if msg.video.value.duration > 30 then Step(states, NoRequest)
        else Confirm(states[chatId := cs.(data := cs.data.(video := msg.video))], chatId, ms)
      else if cs.stage == WaitingForMedia && msg.voice.Some? then
        Confirm(states[chatId := cs.(data := cs.data.(voice := msg.voice))], chatId, ms)
      else if cs.stage == AddingDetails && OrElse(msg.text, "") != "" then
        Step(states - {chatId}, PostDetails(cs.lastReportId, msg.text.value))
      else Step(states, NoRequest)
  }

  /** The bot process: its `userStates` map. */
  class Bot {
    var userStates: map<ChatId, ChatState>

    constructor ()
      ensures userStates == map[]
    {
      userStates := map[];
    }

    /** `startBotFlow(chatId)`: the chat starts over at MAIN_MENU with no data. */
    method StartBotFlow(chatId: ChatId)
      modifies this
      ensures userStates == old(userStates)[chatId := Fresh()]
    {
      userStates := userStates[chatId := Fresh()];
    }

    /** `confirmComplaint(chatId)`; `ms` is `Date.now()`. */
    method ConfirmComplaint(chatId: ChatId, ms: nat) returns (effect: Effect)
      modifies this
      ensures Step(userStates, effect) == Confirm(old(userStates), chatId, ms)
    {
      effect := NoRequest;
      if chatId !in userStates {
        return;
      }
      var data := userStates[chatId].data;
      var reportId := ReportId(ms);
      if data.location.None? {
        return;
      }
      effect := PostIncident(JsPayload(data, reportId));
      userStates := userStates[chatId := userStates[chatId].(lastReportId := Some(reportId))];
      userStates := userStates[chatId := userStates[chatId].(stage := PostSubmission)];
    }

    /** The `callback_query` handler for a query from `chatId` carrying `data`. */
    method HandleCallbackQuery(chatId: ChatId, data: string) returns (effect: Effect)
      modifies this
      ensures Step(userStates, effect) == OnCallback(old(userStates), chatId, data)
    {
      effect := NoRequest;
      if data == "emergency" || data == "civic" || data == "crime" || data == "back_main" {
        return;
      }
      if StartsWith(data, "callback_") {
        assert data[8] == '_';
        var reportId := SecondSegment(data);
        effect := PostCallback(reportId);
        userStates := userStates - {chatId};
        return;
      }
      if StartsWith(data, "details_") {
        if chatId in userStates {
          userStates := userStates[chatId := userStates[chatId].(stage := AddingDetails)];
        }
        return;
      }
      if data == "done" {
        userStates := userStates - {chatId};
        return;
      }
      if chatId !in userStates {
        userStates := userStates[chatId := Fresh()];
      }
      var cs := userStates[chatId];
      userStates := userStates[chatId := cs.(data := cs.data.(category := Some(data)))];
      userStates := userStates[chatId := userStates[chatId].(stage := WaitingForLocation)];
    }

    /** The `message` handler for a message `msg` from `chatId` at `Date.now() == ms`. */
    method HandleMessage(chatId: ChatId, msg: Message, ms: nat) returns (effect: Effect)
      modifies this
      ensures Step(userStates, effect) == OnMessage(old(userStates), chatId, msg, ms)
    {
      var text := Lower(JsTrim(OrElse(msg.text, "")));
      effect := NoRequest;
      if text in Greetings && chatId !in userStates {
        StartBotFlow(chatId);
        return;
      }
      if chatId !in userStates {
        return;
      }
      var state := userStates[chatId].stage;
      var data := userStates[chatId].data;
      if state == WaitingForLocation && msg.location.Some? {
        userStates := userStates[chatId := userStates[chatId].(data := data.(location := msg.location))];
        userStates := userStates[chatId := userStates[chatId].(stage := WaitingForMedia)];
        return;
      }
      if state == WaitingForMedia && text == "skip" {
        effect := ConfirmComplaint(chatId, ms);
        return;
      }
      if state == WaitingForMedia && msg.photo.Some? {
        userStates := userStates[chatId := userStates[chatId].(data := data.(photo := msg.photo))];
        effect := ConfirmComplaint(chatId, ms);
        return;
      }
      if state == WaitingForMedia && msg.video.Some? {
        if msg.video.value.duration > 30 {
          return;
        }
        userStates := userStates[chatId := userStates[chatId].(data := data.(video := msg.video))];
        effect := ConfirmComplaint(chatId, ms);
        return;
      }
      if state == WaitingForMedia && msg.voice.Some? {
        userStates := userStates[chatId := userStates[chatId].(data := data.(voice := msg.voice))];
        effect := ConfirmComplaint(chatId, ms);
        return;
      }
      if state == AddingDetails && OrElse(msg.text, "") != "" {
        var reportId := userStates[chatId].lastReportId;
        effect := PostDetails(reportId, msg.text.value);
        userStates := userStates - {chatId};
      }
    }
  }

  /** A greeting from a chat with no state starts the flow; any other message
      from such a chat is ignored. */
  lemma GreetingStartsOnlyStateless(states: map<ChatId, ChatState>, chatId: ChatId, msg: Message, ms: nat)
    requires chatId !in states
    ensures Lower(JsTrim(OrElse(msg.text, ""))) in Greetings ==> OnMessage(states, chatId, msg, ms) == Step(states[chatId := Fresh()], NoRequest)
    ensures Lower(JsTrim(OrElse(msg.text, ""))) !in Greetings ==> OnMessage(states, chatId, msg, ms) == Step(states, NoRequest)
  {
  }

  /** A location shared while the chat waits for one is stored and the chat waits for media. */
  lemma LocationStored(states: map<ChatId, ChatState>, chatId: ChatId, msg: Message, ms: nat)
    requires chatId in states && states[chatId].stage == WaitingForLocation && msg.location.Some?
    requires Lower(JsTrim(OrElse(msg.text, ""))) !in Greetings
    ensures var after := OnMessage(states, chatId, msg, ms);
      && after.effect == NoRequest
      && after.states == states[chatId := states[chatId].(stage := WaitingForMedia, data := states[chatId].data.(location := msg.location))]
  {
  }

  /** A video longer than 30 seconds is refused and nothing changes. */
  lemma LongVideoRejected(states: map<ChatId, ChatState>, chatId: ChatId, msg: Message, ms: nat)
    requires chatId in states && states[chatId].stage == WaitingForMedia
    requires msg.video.Some? && msg.video.value.duration > 30
    requires Lower(JsTrim(OrElse(msg.text, ""))) != "skip" && msg.photo.None?
    ensures OnMessage(states, chatId, msg, ms) == Step(states, NoRequest)
  {
  }

  /** A category selection creates the chat's state if needed and asks for the
      location; "done" and a callback request forget the chat. */
  lemma CallbackTransitions(states: map<ChatId, ChatState>, chatId: ChatId, data: string, ms: nat)
    requires !IsMenuButton(data) && !StartsWith(data, "callback_") && !StartsWith(data, "details_") && data != "done"
    ensures OnCallback(states, chatId, data).states[chatId].stage == WaitingForLocation
    ensures OnCallback(states, chatId, data).states[chatId].data.category == Some(data)
    ensures forall c :: c in states && c != chatId ==> OnCallback(states, chatId, data).states[c] == states[c]
    ensures chatId !in OnCallback(states, chatId, "done").states
    ensures chatId !in OnCallback(states, chatId, "callback_" + ReportId(ms)).states
  {
    assert !IsMenuButton("done") && !StartsWith("done", "callback_") && !StartsWith("done", "details_");
    var cb := "callback_" + ReportId(ms);
    assert cb[0] == 'c' && cb[1] == 'a' && |cb| > 9;
    assert StartsWith(cb, "callback_");
  }

  /** For the report ids the bots generate, which hold no "_", the request
      carries the whole id, as in the Python bot. */
  lemma CallbackIdsAgree(states: map<ChatId, ChatState>, chatId: ChatId, ms: nat)
    ensures OnCallback(states, chatId, "callback_" + ReportId(ms)) == TelegramPy.OnCallback(states, chatId, "callback_" + ReportId(ms))
    ensures OnCallback(states, chatId, "callback_" + ReportId(ms)).effect == PostCallback(ReportId(ms))
  {
    var id := ReportId(ms);
    CallbackSegment(id, "");
    assert "callback_" + id + "" == "callback_" + id;
    TelegramPy.CallbackIdIsRest(states, chatId, id);
  }

  /** For a report id holding "_" the bots part: this one keeps only the segment
      after the first "_". */
  lemma CallbackIdsDiverge(states: map<ChatId, ChatState>, chatId: ChatId)
    ensures OnCallback(states, chatId, "callback_A_B").effect == PostCallback("A")
    ensures TelegramPy.OnCallback(states, chatId, "callback_A_B").effect == PostCallback("A_B")
  {
    CallbackSegment("A", "_B");
    assert "callback_" + "A" + "_B" == "callback_A_B";
    TelegramPy.CallbackIdIsRest(states, chatId, "A_B");
    assert "callback_" + "A_B" == "callback_A_B";
  }

  /** Every handler keeps every chat settled. */
  lemma {:induction false} HandlersKeepSettled(states: map<ChatId, ChatState>, chatId: ChatId, msg: Message, data: string, ms: nat)
    requires AllSettled(states)
    ensures AllSettled(OnMessage(states, chatId, msg, ms).states)
    ensures AllSettled(OnCallback(states, chatId, data).states)
    ensures AllSettled(Confirm(states, chatId, ms).states)
  {
    if chatId in states {
      var cs := states[chatId];
      if cs.stage == WaitingForMedia {
        assert cs.data.location.Some?;
        var withPhoto := states[chatId := cs.(data := cs.data.(photo := msg.photo))];
        var withVideo := states[chatId := cs.(data := cs.data.(video := msg.video))];
        var withVoice := states[chatId := cs.(data := cs.data.(voice := msg.voice))];
        assert AllSettled(withPhoto) && AllSettled(withVideo) && AllSettled(withVoice);
      }
    }
  }
}
