/** The conversation coordinator: training sessions, their messages and chapter completions,
    one generation turn of the bot, and the notifications a turn pushes to the session's
    socket. The answer generator (a language model) is an oracle; the tasks scheduled in the
    background are logged, not run; notifications are returned as an ordered log of calls on the
    connection registry. */
module Sessions {
  import opened Wrappers
  import opened Seqs
  import opened Models
  import opened Dtos
  import opened Events
  import opened Store
  import opened Chapters

  /** The instruction sent as the only turn of a session that has no message yet: the
      `dedent`ed literal, whose trailing space after "and" survives and whose blank last line
      is reduced to its line break. */
  const BootstrapPrompt: string :=
    "\nStart the scenario by welcoming the user and \nexposing the summary of the scenario and what the user will learn.\n\nPropose him to start the first chapter.\n"

  function CompletionChapter(c: ChapterCompletion): int { c.chapterId }

  /** The chapter ids a session has completed, one per completion row. */
  function CompletedIds(t: Tables, sessionId: int): seq<int> {
    Map(CompletionsOf(t.completions, sessionId), CompletionChapter)
  }

  /** `__session_to_training_session_dto`: reading `session.scenario` on a dangling scenario
      id fails with an attribute error on None. */
  function SessionView(t: Tables, s: TrainingSession): (r: Result<TrainingSessionDTO, Failure>)
    ensures r.Err? <==> FindScenario(t, s.scenarioId).None?
    ensures r.Err? ==> r.error == MissingAttribute
    ensures r.Ok? ==> r.value.id == s.id && r.value.createdAt == s.createdAt
    ensures r.Ok? ==> r.value.scenario == ScenarioView(FindScenario(t, s.scenarioId).value, t.chapters)
    ensures r.Ok? ==> |r.value.messages| == |MessagesOf(t.messages, s.id)|
    ensures r.Ok? ==> forall i :: 0 <= i < |r.value.messages| ==>
      r.value.messages[i] == MessageView(MessagesOf(t.messages, s.id)[i])
    ensures r.Ok? ==> |r.value.completions| == |CompletionsOf(t.completions, s.id)|
    ensures r.Ok? ==> forall i :: 0 <= i < |r.value.completions| ==>
      r.value.completions[i] == CompletionView(CompletionsOf(t.completions, s.id)[i])
  {
    match FindScenario(t, s.scenarioId)
    case None => Err(MissingAttribute)
    case Some(scenario) =>
      Ok(TrainingSessionDTO(s.id, s.createdAt, ScenarioView(scenario, t.chapters),
        Map(MessagesOf(t.messages, s.id), MessageView),
        Map(CompletionsOf(t.completions, s.id), CompletionView)))
  }

  /** `get`: None for an unknown id, otherwise the session's projection, which fails when the
      session's scenario is gone. */
  function Get(t: Tables, sessionId: int): (r: Result<Option<TrainingSessionDTO>, Failure>)
    ensures r == Ok(None) <==> FindSession(t, sessionId).None?
    ensures r.Err? <==> FindSession(t, sessionId).Some? && !Viewable(t, FindSession(t, sessionId).value)
    ensures r.Err? ==> r.error == MissingAttribute
    ensures r.Ok? && r.value.Some? ==>
      FindSession(t, sessionId).Some? && SessionView(t, FindSession(t, sessionId).value) == Ok(r.value.value)
  {
    match FindSession(t, sessionId)
    case None => Ok(None)
    case Some(s) =>
      match SessionView(t, s)
      case Err(e) => Err(e)
      case Ok(v) => Ok(Some(v))
  }

  predicate Viewable(t: Tables, s: TrainingSession) {
    FindScenario(t, s.scenarioId).Some?
  }

  /** The projection of every session of `ss`, in order; the first dangling scenario fails it. */
  function ViewAll(t: Tables, ss: seq<TrainingSession>): (r: Result<seq<TrainingSessionDTO>, Failure>)
    ensures r.Ok? <==> forall i :: 0 <= i < |ss| ==> Viewable(t, ss[i])
    ensures r.Err? ==> r.error == MissingAttribute
    ensures r.Ok? ==> |r.value| == |ss| && forall i :: 0 <= i < |ss| ==> SessionView(t, ss[i]) == Ok(r.value[i])
  {
    if ss == [] then Ok([])
    else
      var head := SessionView(t, ss[0]);
      var rest := ViewAll(t, ss[1..]);
      ViewableCons(t, ss);
      if head.Err? then Err(head.error)
      else if rest.Err? then Err(rest.error)
      else
        ViewsCons(t, ss, head.value, rest.value);
        Ok([head.value] + rest.value)
  }

  lemma ViewableCons(t: Tables, ss: seq<TrainingSession>)
    requires ss != []
    ensures (forall i :: 0 <= i < |ss| ==> Viewable(t, ss[i]))
        <==> Viewable(t, ss[0]) && forall i :: 0 <= i < |ss| - 1 ==> Viewable(t, ss[1..][i])
  {
    if Viewable(t, ss[0]) && forall i :: 0 <= i < |ss| - 1 ==> Viewable(t, ss[1..][i]) {
      forall i | 1 <= i < |ss| ensures Viewable(t, ss[i]) {
        assert ss[1..][i - 1] == ss[i];
      }
    }
  }

  lemma ViewsCons(t: Tables, ss: seq<TrainingSession>, v: TrainingSessionDTO, vs: seq<TrainingSessionDTO>)
    requires ss != [] && |vs| == |ss| - 1 && SessionView(t, ss[0]) == Ok(v)
    requires forall i :: 0 <= i < |vs| ==> SessionView(t, ss[1..][i]) == Ok(vs[i])
    ensures forall i :: 0 <= i < |ss| ==> SessionView(t, ss[i]) == Ok(([v] + vs)[i])
  {
    forall i | 1 <= i < |ss| ensures SessionView(t, ss[i]) == Ok(([v] + vs)[i]) {
      ViewShifted(t, ss, v, vs, i);
    }
  }

  lemma ViewShifted(t: Tables, ss: seq<TrainingSession>, v: TrainingSessionDTO, vs: seq<TrainingSessionDTO>, i: int)
    requires 1 <= i < |ss| && |vs| == |ss| - 1 && SessionView(t, ss[1..][i - 1]) == Ok(vs[i - 1])
    ensures SessionView(t, ss[i]) == Ok(([v] + vs)[i])
  {
    assert ss[1..][i - 1] == ss[i];
    assert ([v] + vs)[i] == vs[i - 1];
  }

  /** The sessions the user filter keeps are exactly the user's sessions. */
  lemma OwnSessions(t: Tables, userId: int)
    ensures forall s :: s in Filter(t.sessions, SessionOfUser(userId)) <==> s in t.sessions && s.userId == userId
  {
    var own := Filter(t.sessions, SessionOfUser(userId));
    forall s | s in t.sessions && s.userId == userId ensures s in own {
      var k :| 0 <= k < |t.sessions| && t.sessions[k] == s;
      assert SessionOfUser(userId)(t.sessions[k]);
    }
    forall s | s in own ensures s in t.sessions && s.userId == userId {
      var k :| 0 <= k < |own| && own[k] == s;
      assert SessionOfUser(userId)(own[k]);
    }
  }

  /** `users_sessions`: the projections of the user's sessions, in table order; a session whose
      scenario is gone fails the whole listing. */
  function UsersSessions(t: Tables, userId: int): (r: Result<seq<TrainingSessionDTO>, Failure>)
    ensures r.Err? <==> exists s :: s in t.sessions && s.userId == userId && !Viewable(t, s)
    ensures r.Err? ==> r.error == MissingAttribute
    ensures r.Ok? ==> var own := Filter(t.sessions, SessionOfUser(userId));
      |r.value| == |own| && forall i :: 0 <= i < |own| ==> SessionView(t, own[i]) == Ok(r.value[i])
  {
    OwnSessions(t, userId);
    ViewAll(t, Filter(t.sessions, SessionOfUser(userId)))
  }

  /** Every session listed for a user is one of that user's sessions, projected. */
  lemma UsersSessionsBelongToUser(t: Tables, userId: int)
    requires UsersSessions(t, userId).Ok?
    ensures forall i :: 0 <= i < |UsersSessions(t, userId).value| ==>
      exists s :: s in t.sessions && s.userId == userId && SessionView(t, s) == Ok(UsersSessions(t, userId).value[i])
  {
    var own := Filter(t.sessions, SessionOfUser(userId));
    var vs := UsersSessions(t, userId).value;
    forall i | 0 <= i < |vs|
      ensures exists s :: s in t.sessions && s.userId == userId && SessionView(t, s) == Ok(vs[i])
    {
      var s := own[i];
      assert s in t.sessions && SessionOfUser(userId)(s);
      assert SessionView(t, s) == Ok(vs[i]);
    }
  }

  /** Every session of the user is listed, as its projection. */
  lemma UsersSessionsListAll(t: Tables, userId: int, s: TrainingSession)
    requires UsersSessions(t, userId).Ok?
    requires s in t.sessions && s.userId == userId
    ensures exists i :: 0 <= i < |UsersSessions(t, userId).value| && SessionView(t, s) == Ok(UsersSessions(t, userId).value[i])
  {
    var own := Filter(t.sessions, SessionOfUser(userId));
    var vs := UsersSessions(t, userId).value;
    var k :| 0 <= k < |t.sessions| && t.sessions[k] == s;
    assert SessionOfUser(userId)(t.sessions[k]);
    var i :| 0 <= i < |own| && own[i] == s;
    assert SessionView(t, s) == Ok(vs[i]);
  }

  /** The turns handed to the generator: the bootstrap instruction alone when the session has
      no message, otherwise one `{role, content}` pair per stored message, in stored order. */
  function Transcript(history: seq<SessionMessage>): (r: seq<Turn>)
    ensures history == [] ==> r == [Turn(AssistantRole, BootstrapPrompt)]
    ensures history != [] ==>
      |r| == |history| && forall i :: 0 <= i < |r| ==> r[i] == Turn(history[i].role, history[i].content)
  {
    if history == [] then [Turn(AssistantRole, BootstrapPrompt)] else Turns(history)
  }

  /** `_get_current_chapter`: the session, its scenario and its chapters are looked up, then the
      first pending chapter in ascending `order` is chosen. */
  function ResolveCurrentChapter(t: Tables, sessionId: int): (r: Result<ScenarioChapter, Failure>)
    ensures r == Err(SessionNotFound) <==> FindSession(t, sessionId).None?
    ensures FindSession(t, sessionId).Some? ==>
      var s := FindSession(t, sessionId).value;
      && (r == Err(MissingAttribute) <==> FindScenario(t, s.scenarioId).None?)
      && (FindScenario(t, s.scenarioId).Some? ==>
            (r == Err(NoChaptersFound) <==> ChaptersOf(t.chapters, s.scenarioId) == [])
            && (r.Ok? || r.error == NoChaptersFound || r.error == AllChaptersCompleted))
    ensures r.Ok? ==>
      && r.value in t.chapters
      && r.value.scenarioId == FindSession(t, sessionId).value.scenarioId
      && r.value.id !in CompletedIds(t, sessionId)
  {
    match FindSession(t, sessionId)
    case None => Err(SessionNotFound)
    case Some(s) =>
      match FindScenario(t, s.scenarioId)
      case None => Err(MissingAttribute)
      case Some(scenario) =>
        var chapters := ChaptersOf(t.chapters, scenario.id);
        if |chapters| == 0 then Err(NoChaptersFound)
        else
          var r := CurrentChapter(chapters, CompletedIds(t, sessionId));
          assert r.Ok? ==> r.value in chapters && OfScenario(scenario.id)(r.value);
          r
  }

  /** The chapter resolved for a session is the one the reference definition picks among the
      chapters of its scenario. */
  lemma ResolvedChapterIsReference(t: Tables, sessionId: int, k: int)
    requires FindSession(t, sessionId).Some?
    requires FindScenario(t, FindSession(t, sessionId).value.scenarioId).Some?
    requires IsCurrent(ChaptersOf(t.chapters, FindSession(t, sessionId).value.scenarioId), CompletedIds(t, sessionId), k)
    ensures ResolveCurrentChapter(t, sessionId)
         == Ok(ChaptersOf(t.chapters, FindSession(t, sessionId).value.scenarioId)[k])
  {
    var s := FindSession(t, sessionId).value;
    CurrentChapterIsReference(ChaptersOf(t.chapters, s.scenarioId), CompletedIds(t, sessionId), k);
  }

  /** Appending a message to the table appends it to its own session's history and leaves every
      other session's history as it was. */
  lemma AppendedMessageEndsHistory(messages: seq<SessionMessage>, m: SessionMessage, sessionId: int)
    ensures MessagesOf(messages + [m], sessionId)
         == MessagesOf(messages, sessionId) + (if m.sessionId == sessionId then [m] else [])
  {
    FilterSnoc(messages, m, MessageOfSession(sessionId));
  }

  /** Once a session is deleted it is not found, and it has neither messages nor completions
      left; every other session keeps its history and its completions. */
  lemma {:induction false} DeletedSessionIsGone(t: Tables, sessionId: int, other: int)
    requires other != sessionId
    ensures var t' := t.(sessions := Filter(t.sessions, Not(SessionIs(sessionId))),
                         messages := Filter(t.messages, Not(MessageOfSession(sessionId))),
                         completions := Filter(t.completions, Not(CompletionOfSession(sessionId))));
      && FindSession(t', sessionId).None?
      && MessagesOf(t'.messages, sessionId) == []
      && CompletionsOf(t'.completions, sessionId) == []
      && MessagesOf(t'.messages, other) == MessagesOf(t.messages, other)
      && CompletionsOf(t'.completions, other) == CompletionsOf(t.completions, other)
  {
    var ms := Filter(t.messages, Not(MessageOfSession(sessionId)));
    var cs := Filter(t.completions, Not(CompletionOfSession(sessionId)));
    FilterDropsAll(ms, MessageOfSession(sessionId));
    FilterDropsAll(cs, CompletionOfSession(sessionId));
    FilterFilter(t.messages, Not(MessageOfSession(sessionId)), MessageOfSession(other), MessageOfSession(other));
    FilterFilter(t.completions, Not(CompletionOfSession(sessionId)), CompletionOfSession(other), CompletionOfSession(other));
  }

  /** The notifications of one generation turn over a connection registry, in call order: the
      chapter-completed event when the turn recorded a completion, then the reply, then the
      typing-stop event, all addressed to the session; nothing without a registry. */
  function TurnNotifications(sessionId: int, completionId: Option<int>, reply: SessionMessageDTO, withManager: bool)
    : (out: seq<Outbound>)
    ensures !withManager ==> out == []
    ensures withManager ==> |out| == (if completionId.Some? then 3 else 2)
    ensures withManager ==> out[|out| - 2] == SendText(sessionId, reply) && out[|out| - 1] == SendJson(sessionId, Typing(Stop))
    ensures withManager && completionId.Some? ==> out[0] == SendJson(sessionId, ChapterCompleted(completionId.value))
  {
    if !withManager then []
    else
      (match completionId
       case Some(id) => [SendJson(sessionId, ChapterCompleted(id))]
       case None => [])
      + [SendText(sessionId, reply), SendJson(sessionId, Typing(Stop))]
  }

  /** Every notification of a turn reaches the session the turn was for. */
  lemma TurnNotificationsStayInSession(sessionId: int, completionId: Option<int>, reply: SessionMessageDTO, withManager: bool)
    ensures forall i :: 0 <= i < |TurnNotifications(sessionId, completionId, reply, withManager)| ==>
      TurnNotifications(sessionId, completionId, reply, withManager)[i].sessionId == sessionId
  {
    var out := TurnNotifications(sessionId, completionId, reply, withManager);
    if withManager && completionId.Some? {
      assert out == [SendJson(sessionId, ChapterCompleted(completionId.value)), SendText(sessionId, reply), SendJson(sessionId, Typing(Stop))];
    }
  }

  /** The notification step as written: the chapter-completed call passes the event where the
      session id belongs and omits the payload, so with a registry it fails with a missing
      argument before the reply and the typing-stop event are sent. */
  function TurnNotificationsAsWritten(sessionId: int, completionId: Option<int>, reply: SessionMessageDTO, withManager: bool)
    : (r: Result<seq<Outbound>, Failure>)
    ensures r.Err? <==> withManager && completionId.Some?
  {
    if withManager && completionId.Some? then Err(MissingArgument)
    else if withManager then Ok([SendText(sessionId, reply), SendJson(sessionId, Typing(Stop))])
    else Ok([])
  }

  /** As written, every turn that completes a chapter while a registry is present loses its
      reply: nothing is sent, although the reply and the completion are already stored. The
      corrected step sends the reply last but one. */
  lemma AsWrittenLosesReply(sessionId: int, completionId: int, reply: SessionMessageDTO)
    ensures TurnNotificationsAsWritten(sessionId, Some(completionId), reply, true) == Err(MissingArgument)
    ensures SendText(sessionId, reply) in TurnNotifications(sessionId, Some(completionId), reply, true)
  {
    var out := TurnNotifications(sessionId, Some(completionId), reply, true);
    assert out[1] == SendText(sessionId, reply);
  }

  /** Where the call as written does not fail, it sends what the corrected step sends. */
  lemma AsWrittenAgreesOtherwise(sessionId: int, completionId: Option<int>, reply: SessionMessageDTO, withManager: bool)
    requires !(withManager && completionId.Some?)
    ensures TurnNotificationsAsWritten(sessionId, completionId, reply, withManager)
         == Ok(TurnNotifications(sessionId, completionId, reply, withManager))
  {
    var tail := [SendText(sessionId, reply), SendJson(sessionId, Typing(Stop))];
    assert [] + tail == tail;
  }

  /** The language model: given the scenario, the current chapter and the transcript it returns
      some reply and whether its completion tool marked the chapter as completed. Nothing is
      promised about either. */
  method Generate(scenario: Scenario, chapter: ScenarioChapter, transcript: seq<Turn>)
    returns (reply: string, partCompleted: bool)
  {
    reply := *;
    partCompleted := *;
  }

  /** A background `generate_answer` task, with or without a connection registry to notify. */
  datatype Task = GenerateAnswerTask(sessionId: int, withManager: bool)

  class SessionService {
    const db: Database
    /** The generation tasks handed to the event loop, in scheduling order. */
    var scheduled: seq<Task>

    constructor (db: Database)
      ensures this.db == db && scheduled == []
    {
      this.db := db;
      scheduled := [];
    }

    /** `add_message`: None for an unknown session; otherwise one new message, with the given
        role ("user" unless told otherwise), at the end of the table. */
    method AddMessage(sessionId: int, content: string, now: int, role: string := DefaultRole)
      returns (r: Option<SessionMessageDTO>)
      requires db.Valid()
      modifies db`tables
      ensures db.Valid()
      ensures FindSession(old(db.tables), sessionId).None? ==> r.None? && db.tables == old(db.tables)
      ensures FindSession(old(db.tables), sessionId).Some? ==>
        var m := SessionMessage(old(db.tables).nextMessageId, sessionId, role, content, now);
        && r == Some(MessageView(m))
        && db.tables == old(db.tables).(messages := old(db.tables).messages + [m],
                                         nextMessageId := old(db.tables).nextMessageId + 1)
    {
      var t := db.tables;
      if FindSession(t, sessionId).None? {
        return None;
      }
      var m := SessionMessage(t.nextMessageId, sessionId, role, content, now);
      FreshKeyAppend(t.messages, MessageKey, t.nextMessageId, m);
      db.tables := t.(messages := t.messages + [m], nextMessageId := t.nextMessageId + 1);
      r := Some(MessageView(m));
    }

    /** `_complete_chapter`: one new completion row linking the session, the chapter and the
        message, stamped with the host's naive local time. The links are not checked. */
    method CompleteChapter(sessionId: int, chapterId: int, messageId: int, localNow: int)
      returns (c: ChapterCompletion)
      requires db.Valid()
      modifies db`tables
      ensures db.Valid()
      ensures c == ChapterCompletion(old(db.tables).nextCompletionId, sessionId, chapterId, messageId, localNow)
      ensures db.tables == old(db.tables).(completions := old(db.tables).completions + [c],
                                           nextCompletionId := old(db.tables).nextCompletionId + 1)
    {
      var t := db.tables;
      c := ChapterCompletion(t.nextCompletionId, sessionId, chapterId, messageId, localNow);
      FreshKeyAppend(t.completions, CompletionKey, t.nextCompletionId, c);
      db.tables := t.(completions := t.completions + [c], nextCompletionId := t.nextCompletionId + 1);
    }

    /** The first loop of `delete`: every message of the session, deleted one row at a time. */
    method DeleteMessagesOf(sessionId: int)
      requires KeyUnique(db.tables.messages, MessageKey)
      modifies db`tables
      ensures db.tables == old(db.tables).(messages := Filter(old(db.tables).messages, Not(MessageOfSession(sessionId))))
    {
      var t0 := db.tables;
      var ids := Map(MessagesOf(t0.messages, sessionId), MessageKey);
      FilterKeepsAll(t0.messages, KeyNotIn(MessageKey, ids[..0]));
      var i := 0;
      while i < |ids|
        invariant 0 <= i <= |ids|
        invariant db.tables == t0.(messages := Filter(t0.messages, KeyNotIn(MessageKey, ids[..i])))
      {
        DeleteOneMore(t0.messages, MessageKey, ids, i);
        db.tables := db.tables.(messages := Filter(db.tables.messages, KeyNotIn(MessageKey, [ids[i]])));
        i := i + 1;
      }
      assert ids[..|ids|] == ids;
      DeleteSelected(t0.messages, MessageKey, MessageOfSession(sessionId));
    }

    /** The second loop of `delete`: every completion of the session, deleted one row at a time. */
    method DeleteCompletionsOf(sessionId: int)
      requires KeyUnique(db.tables.completions, CompletionKey)
      modifies db`tables
      ensures db.tables == old(db.tables).(completions := Filter(old(db.tables).completions, Not(CompletionOfSession(sessionId))))
    {
      var t0 := db.tables;
      var ids := Map(CompletionsOf(t0.completions, sessionId), CompletionKey);
      FilterKeepsAll(t0.completions, KeyNotIn(CompletionKey, ids[..0]));
      var i := 0;
      while i < |ids|
        invariant 0 <= i <= |ids|
        invariant db.tables == t0.(completions := Filter(t0.completions, KeyNotIn(CompletionKey, ids[..i])))
      {
        DeleteOneMore(t0.completions, CompletionKey, ids, i);
        db.tables := db.tables.(completions := Filter(db.tables.completions, KeyNotIn(CompletionKey, [ids[i]])));
        i := i + 1;
      }
      assert ids[..|ids|] == ids;
      DeleteSelected(t0.completions, CompletionKey, CompletionOfSession(sessionId));
    }

    /** `delete`: False for an unknown id; otherwise every message of the session is deleted,
        then every completion, then the session itself. */
    method Delete(sessionId: int) returns (deleted: bool)
      requires db.Valid()
      modifies db`tables
      ensures db.Valid()
      ensures deleted <==> FindSession(old(db.tables), sessionId).Some?
      ensures !deleted ==> db.tables == old(db.tables)
      ensures deleted ==> db.tables == old(db.tables).(
        sessions := Filter(old(db.tables).sessions, Not(SessionIs(sessionId))),
        messages := Filter(old(db.tables).messages, Not(MessageOfSession(sessionId))),
        completions := Filter(old(db.tables).completions, Not(CompletionOfSession(sessionId))))
    {
      var t0 := db.tables;
      if FindSession(t0, sessionId).None? {
        return false;
      }
      DeleteMessagesOf(sessionId);
      DeleteCompletionsOf(sessionId);
      db.tables := db.tables.(sessions := Filter(t0.sessions, KeyNotIn(SessionKey, [sessionId])));
      FilterCongruent(t0.sessions, KeyNotIn(SessionKey, [sessionId]), Not(SessionIs(sessionId)));
      DeletePreservesWellFormed(t0, _ => true, _ => true, Not(SessionIs(sessionId)),
        Not(MessageOfSession(sessionId)), Not(CompletionOfSession(sessionId)));
      FilterKeepsAll(t0.scenarios, _ => true);
      FilterKeepsAll(t0.chapters, _ => true);
      deleted := true;
    }

    /** `get_or_create`: the existing session of the (user, scenario) pair, untouched; otherwise
        one new session, a typing-start event when a registry is given, and one scheduled
        generation turn. The projection of the new session fails, after the insert, when its
        scenario does not exist; then nothing is sent or scheduled. */
    method GetOrCreate(userId: int, scenarioId: int, withManager: bool, now: int)
      returns (r: Result<TrainingSessionDTO, Failure>, outbox: seq<Outbound>)
      requires db.Valid()
      modifies db`tables, this`scheduled
      ensures db.Valid()
      ensures FindPair(old(db.tables), userId, scenarioId).Some? ==>
        && r == SessionView(old(db.tables), FindPair(old(db.tables), userId, scenarioId).value)
        && db.tables == old(db.tables) && scheduled == old(scheduled) && outbox == []
      ensures FindPair(old(db.tables), userId, scenarioId).None? ==>
        var s := TrainingSession(old(db.tables).nextSessionId, userId, scenarioId, now);
        && db.tables == old(db.tables).(sessions := old(db.tables).sessions + [s],
                                         nextSessionId := old(db.tables).nextSessionId + 1)
        && r == SessionView(db.tables, s)
        && (r.Ok? ==> scheduled == old(scheduled) + [GenerateAnswerTask(s.id, withManager)]
                      && outbox == if withManager then [SendJson(s.id, Typing(Start))] else [])
        && (r.Err? ==> scheduled == old(scheduled) && outbox == [])
    {
      var t := db.tables;
      outbox := [];
      var existing := FindPair(t, userId, scenarioId);
      if existing.Some? {
        r := SessionView(t, existing.value);
        return;
      }
      var s := TrainingSession(t.nextSessionId, userId, scenarioId, now);
      FreshKeyAppend(t.sessions, SessionKey, t.nextSessionId, s);
      KeyUniqueAppend(t.sessions, SessionPair, s);
      db.tables := t.(sessions := t.sessions + [s], nextSessionId := t.nextSessionId + 1);
      r := SessionView(db.tables, s);
      if r.Err? {
        return;
      }
      if withManager {
        outbox := [SendJson(s.id, Typing(Start))];
      }
      scheduled := scheduled + [GenerateAnswerTask(s.id, withManager)];
    }

    /** `generate_answer`: one turn of the bot. The session, its scenario, its chapters and the
        current chapter are resolved first, and any failure there changes nothing. Then the
        generator answers the transcript; the reply is stored as one assistant message; a
        completion of the current chapter by that message is stored only when the generator set
        the flag; the notifications are returned, and so is the stored message. Two clocks are
        read: the message is stamped with the UTC time `now`, the completion with the host's
        naive local time `localNow`. */
    method GenerateAnswer(sessionId: int, withManager: bool, now: int, localNow: int)
      returns (r: Result<SessionMessageDTO, Failure>, reply: string, partCompleted: bool, outbox: seq<Outbound>)
      requires db.Valid()
      modifies db`tables
      ensures db.Valid()
      ensures r.Err? <==> ResolveCurrentChapter(old(db.tables), sessionId).Err?
      ensures r.Err? ==> db.tables == old(db.tables) && outbox == []
      ensures r.Err? ==> r.error == (if FindSession(old(db.tables), sessionId).None? then MissingAttribute
                                     else ResolveCurrentChapter(old(db.tables), sessionId).error)
      ensures r.Ok? ==>
        var t := old(db.tables);
        var m := SessionMessage(t.nextMessageId, sessionId, AssistantRole, reply, now);
        var c := ChapterCompletion(t.nextCompletionId, sessionId, ResolveCurrentChapter(t, sessionId).value.id, m.id, localNow);
        && r.value == MessageView(m)
        && db.tables == t.(messages := t.messages + [m], nextMessageId := t.nextMessageId + 1,
                           completions := t.completions + (if partCompleted then [c] else []),
                           nextCompletionId := t.nextCompletionId + (if partCompleted then 1 else 0))
        && outbox == TurnNotifications(sessionId, if partCompleted then Some(c.id) else None, MessageView(m), withManager)
    {
      var t := db.tables;
      outbox := [];
      reply, partCompleted := "", false;
      var current := ResolveCurrentChapter(t, sessionId);
      if current.Err? {
        // reading `session.scenario` on a missing session is an attribute error on None
        var e := if current.error == SessionNotFound then MissingAttribute else current.error;
        return Err(e), reply, partCompleted, outbox;
      }
      var session := FindSession(t, sessionId).value;
      var scenario := FindScenario(t, session.scenarioId).value;
      var transcript := Transcript(MessagesOf(t.messages, sessionId));
      reply, partCompleted := Generate(scenario, current.value, transcript);
      var stored;
      stored, outbox := RecordTurn(sessionId, current.value.id, reply, partCompleted, withManager, now, localNow);
      r := Ok(stored);
    }

    /** The writes of one turn: the reply as an assistant message, then, when the flag is set,
        a completion of the chapter by that message; and the notifications that follow. The
        message carries the UTC time `now`, the completion the naive local time `localNow`. */
    method RecordTurn(sessionId: int, chapterId: int, reply: string, partCompleted: bool, withManager: bool,
                      now: int, localNow: int)
      returns (stored: SessionMessageDTO, outbox: seq<Outbound>)
      requires db.Valid() && FindSession(db.tables, sessionId).Some?
      modifies db`tables
      ensures db.Valid()
      ensures
        var t := old(db.tables);
        var m := SessionMessage(t.nextMessageId, sessionId, AssistantRole, reply, now);
        var c := ChapterCompletion(t.nextCompletionId, sessionId, chapterId, m.id, localNow);
        && stored == MessageView(m)
        && db.tables == t.(messages := t.messages + [m], nextMessageId := t.nextMessageId + 1,
                           completions := t.completions + (if partCompleted then [c] else []),
                           nextCompletionId := t.nextCompletionId + (if partCompleted then 1 else 0))
        && outbox == TurnNotifications(sessionId, if partCompleted then Some(c.id) else None, MessageView(m), withManager)
    {
      var added := AddMessage(sessionId, reply, now, AssistantRole);
      stored := added.value;
      var completionId: Option<int> := None;
      if partCompleted {
        var c := CompleteChapter(sessionId, chapterId, stored.id, localNow);
        completionId := Some(c.id);
      }
      outbox := TurnNotifications(sessionId, completionId, stored, withManager);
    }
  }
}
