/** The websocket bot adapter: a simpler generation turn bound to one session. It always uses the
    scenario's first chapter, never records a completion, and notifies the session's socket
    with typing-stop first and the reply second. */
module BotAdapters {
  import opened Wrappers
  import opened Seqs
  import opened Models
  import opened Dtos
  import opened Events
  import opened Store
  import Sessions

  /** `_get_session`: the session row, or "Session not found". */
  function GetSession(t: Tables, sessionId: int): (r: Result<TrainingSession, Failure>)
    ensures r.Err? <==> FindSession(t, sessionId).None?
    ensures r.Err? ==> r.error == SessionNotFound
    ensures r.Ok? ==> r.value in t.sessions && r.value.id == sessionId
  {
    match FindSession(t, sessionId)
    case None => Err(SessionNotFound)
    case Some(s) => Ok(s)
  }

  /** `_identify_current_chapter`: the first chapter of the session's scenario, in list order;
      completions play no part. */
  function IdentifyCurrentChapter(t: Tables, s: TrainingSession): (r: Result<ScenarioChapter, Failure>)
    ensures FindScenario(t, s.scenarioId).None? ==> r == Err(ScenarioNotFound)
    ensures FindScenario(t, s.scenarioId).Some? && ChaptersOf(t.chapters, s.scenarioId) == [] ==> r == Err(NoChaptersFound)
    ensures FindScenario(t, s.scenarioId).Some? && ChaptersOf(t.chapters, s.scenarioId) != [] ==>
      r == Ok(ChaptersOf(t.chapters, s.scenarioId)[0])
    ensures r.Ok? ==> r.value in t.chapters && r.value.scenarioId == s.scenarioId
    ensures r.Ok? ==> forall c :: c in t.chapters && c.scenarioId == s.scenarioId ==>
      exists i, j :: 0 <= i <= j < |t.chapters| && t.chapters[i] == r.value && t.chapters[j] == c
  {
    match FindScenario(t, s.scenarioId)
    case None => Err(ScenarioNotFound)
    case Some(scenario) =>
      var chapters := ChaptersOf(t.chapters, scenario.id);
      if chapters == [] then Err(NoChaptersFound)
      else
        FirstOfScenarioComesFirst(t.chapters, scenario.id);
        Ok(chapters[0])
  }

  /** The first chapter of a scenario, in table order, is in the table no later than any other
      chapter of that scenario. */
  lemma {:induction false} FirstOfScenarioComesFirst(chapters: seq<ScenarioChapter>, scenarioId: int)
    requires ChaptersOf(chapters, scenarioId) != []
    ensures var first := ChaptersOf(chapters, scenarioId)[0];
      && first in chapters && first.scenarioId == scenarioId
      && forall c :: c in chapters && c.scenarioId == scenarioId ==>
           exists i, j :: 0 <= i <= j < |chapters| && chapters[i] == first && chapters[j] == c
  {
    var own := ChaptersOf(chapters, scenarioId);
    assert OfScenario(scenarioId)(own[0]);
    if OfScenario(scenarioId)(chapters[0]) {
      assert own[0] == chapters[0];
      forall c | c in chapters && c.scenarioId == scenarioId
        ensures exists i, j :: 0 <= i <= j < |chapters| && chapters[i] == own[0] && chapters[j] == c
      {
        var j :| 0 <= j < |chapters| && chapters[j] == c;
        assert chapters[0] == own[0];
      }
    } else {
      var rest := chapters[1..];
      assert ChaptersOf(chapters, scenarioId) == ChaptersOf(rest, scenarioId);
      FirstOfScenarioComesFirst(rest, scenarioId);
      forall c | c in chapters && c.scenarioId == scenarioId
        ensures exists i, j :: 0 <= i <= j < |chapters| && chapters[i] == own[0] && chapters[j] == c
      {
        assert c != chapters[0];
        assert c in rest;
        var i, j :| 0 <= i <= j < |rest| && rest[i] == own[0] && rest[j] == c;
        assert chapters[i + 1] == own[0] && chapters[j + 1] == c;
      }
    }
  }

  /** `_convert_message`: one `{role, content}` pair per message, same length, same order. */
  function ConvertMessages(messages: seq<SessionMessage>): (r: seq<Turn>)
    ensures |r| == |messages|
    ensures forall i :: 0 <= i < |r| ==> r[i].role == messages[i].role && r[i].content == messages[i].content
  {
    Turns(messages)
  }

  /** The adapter's notifications for a stored reply: typing-stop, then the reply. */
  function ReplyNotifications(sessionId: int, reply: SessionMessageDTO): (r: seq<Outbound>)
    ensures forall i :: 0 <= i < |r| ==> r[i].sessionId == sessionId
    ensures |r| == 2 && r[|r| - 1] == SendText(sessionId, reply)
    ensures forall i :: 0 <= i < |r| - 1 ==> r[i] == SendJson(sessionId, Typing(Stop))
  {
    [SendJson(sessionId, Typing(Stop)), SendText(sessionId, reply)]
  }

  class BotAdapter {
    const sessionId: int
    const service: Sessions.SessionService

    constructor (sessionId: int, service: Sessions.SessionService)
      ensures this.sessionId == sessionId && this.service == service
    {
      this.sessionId := sessionId;
      this.service := service;
    }

    /** `answer_user_message`: resolve the session and its first chapter, ask the generator,
        and, when the reply is not empty, store it as one assistant message and send typing-stop
        followed by the reply. The completion flag is never read. */
    method AnswerUserMessage(now: int)
      returns (failure: Option<Failure>, reply: string, outbox: seq<Outbound>)
      requires service.db.Valid()
      modifies service.db`tables
      ensures service.db.Valid()
      ensures var t := old(service.db.tables);
        failure.Some? <==> GetSession(t, sessionId).Err? || IdentifyCurrentChapter(t, GetSession(t, sessionId).value).Err?
      ensures var t := old(service.db.tables);
        failure.Some? ==> failure.value == (if GetSession(t, sessionId).Err? then SessionNotFound
                                          else IdentifyCurrentChapter(t, GetSession(t, sessionId).value).error)
      ensures failure.Some? || reply == [] ==> service.db.tables == old(service.db.tables) && outbox == []
      ensures failure.None? && reply != [] ==>
        var t := old(service.db.tables);
        var m := SessionMessage(t.nextMessageId, sessionId, AssistantRole, reply, now);
        && service.db.tables == t.(messages := t.messages + [m], nextMessageId := t.nextMessageId + 1)
        && outbox == ReplyNotifications(sessionId, MessageView(m))
    {
      outbox := [];
      reply := [];
      var t := service.db.tables;
      var session := GetSession(t, sessionId);
      if session.Err? {
        return Some(session.error), reply, outbox;
      }
      var chapter := IdentifyCurrentChapter(t, session.value);
      if chapter.Err? {
        return Some(chapter.error), reply, outbox;
      }
      var scenario := FindScenario(t, session.value.scenarioId).value;
      var transcript := ConvertMessages(MessagesOf(t.messages, sessionId));
      var partCompleted;
      reply, partCompleted := Sessions.Generate(scenario, chapter.value, transcript);
      failure := None;
      if reply != [] {
        var stored := service.AddMessage(sessionId, reply, now, AssistantRole);
        outbox := ReplyNotifications(sessionId, stored.value);
      }
    }
  }
}
