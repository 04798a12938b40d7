/** The relational store the services read and write through an ORM session: one sequence of
    rows per table, in insertion order, and one id counter per autoincrement key. A commit is
    atomic here; the engine's own failures other than constraint violations are not modelled. */
module Store {
  import opened Wrappers
  import opened Seqs
  import opened Models

  /** What a service call can fail with: the exceptions the services raise or let escape. */
  datatype Failure =
    | SessionNotFound          // "Session not found"
    | ScenarioNotFound         // "Scenario not found"
    | NoChaptersFound          // "No chapters found" / "No chapters found in scenario"
    | AllChaptersCompleted     // "All chapters completed"
    | MissingAttribute         // AttributeError: an attribute read on None
    | IntegrityError           // a NOT NULL or UNIQUE constraint rejected the commit
    | InvalidGithubUrl         // ValueError("Invalid GitHub URL")
    | InvalidFileType          // ValueError("Invalid file type. Only .json files are supported.")
    | MissingArgument          // TypeError: a required positional argument was not passed

  datatype Tables = Tables(
    users: seq<User>,
    scenarios: seq<Scenario>,
    chapters: seq<ScenarioChapter>,
    sessions: seq<TrainingSession>,
    messages: seq<SessionMessage>,
    completions: seq<ChapterCompletion>,
    nextScenarioId: int,
    nextChapterId: int,
    nextSessionId: int,
    nextMessageId: int,
    nextCompletionId: int)

  /** The constraints the schema declares: primary keys, the unique e-mail, the unique slug and
      the unique (user, scenario) pair of a training session. Foreign keys are declared but not
      enforced by the engine, so dangling references are allowed. (session, chapter) is not
      unique for completions: those columns are only indexed. */
  ghost predicate WellFormed(t: Tables) {
    && KeyUnique(t.users, UserKey) && KeyUnique(t.users, UserEmail)
    && KeyUnique(t.scenarios, ScenarioKey) && KeysBelow(t.scenarios, ScenarioKey, t.nextScenarioId)
    && KeyUnique(t.scenarios, ScenarioSlug)
    && KeyUnique(t.chapters, ChapterKey) && KeysBelow(t.chapters, ChapterKey, t.nextChapterId)
    && KeyUnique(t.sessions, SessionKey) && KeysBelow(t.sessions, SessionKey, t.nextSessionId)
    && KeyUnique(t.sessions, SessionPair)
    && KeyUnique(t.messages, MessageKey) && KeysBelow(t.messages, MessageKey, t.nextMessageId)
    && KeyUnique(t.completions, CompletionKey) && KeysBelow(t.completions, CompletionKey, t.nextCompletionId)
  }

  function Empty(): (t: Tables)
    ensures WellFormed(t)
    ensures t.scenarios == [] && t.sessions == [] && t.messages == [] && t.completions == []
  {
    Tables([], [], [], [], [], [], 1, 1, 1, 1, 1)
  }

  function ScenarioIs(id: int): Scenario -> bool { (s: Scenario) => s.id == id }
  function SessionIs(id: int): TrainingSession -> bool { (s: TrainingSession) => s.id == id }
  function SessionFor(userId: int, scenarioId: int): TrainingSession -> bool {
    (s: TrainingSession) => s.userId == userId && s.scenarioId == scenarioId
  }

  /** `select(Scenario).where(Scenario.id == id).first()` */
  function FindScenario(t: Tables, id: int): (r: Option<Scenario>)
    ensures r.Some? ==> r.value in t.scenarios && r.value.id == id
    ensures r.None? <==> forall i :: 0 <= i < |t.scenarios| ==> t.scenarios[i].id != id
  {
    FirstWhere(t.scenarios, ScenarioIs(id))
  }

  /** `select(TrainingSession).where(TrainingSession.id == id).first()` */
  function FindSession(t: Tables, id: int): (r: Option<TrainingSession>)
    ensures r.Some? ==> r.value in t.sessions && r.value.id == id
    ensures r.None? <==> forall i :: 0 <= i < |t.sessions| ==> t.sessions[i].id != id
  {
    FirstWhere(t.sessions, SessionIs(id))
  }

  /** The session of a (user, scenario) pair, if one exists. */
  function FindPair(t: Tables, userId: int, scenarioId: int): (r: Option<TrainingSession>)
    ensures r.Some? ==> r.value in t.sessions && r.value.userId == userId && r.value.scenarioId == scenarioId
    ensures r.None? <==> forall i :: 0 <= i < |t.sessions| ==>
      !(t.sessions[i].userId == userId && t.sessions[i].scenarioId == scenarioId)
  {
    FirstWhere(t.sessions, SessionFor(userId, scenarioId))
  }

  /** Under the primary key, a lookup finds the one row with that id. */
  lemma FindSessionUnique(t: Tables, id: int, s: TrainingSession)
    requires WellFormed(t)
    requires s in t.sessions && s.id == id
    ensures FindSession(t, id) == Some(s)
  {
    var r := FindSession(t, id).value;
    var i :| 0 <= i < |t.sessions| && t.sessions[i] == s;
    var j :| 0 <= j < |t.sessions| && t.sessions[j] == r;
    KeyIdentifiesRow(t.sessions, SessionKey, i, j);
  }

  /** Under the unique pair constraint, a pair lookup finds the one session of that pair. */
  lemma FindPairUnique(t: Tables, s: TrainingSession)
    requires WellFormed(t)
    requires s in t.sessions
    ensures FindPair(t, s.userId, s.scenarioId) == Some(s)
  {
    var r := FindPair(t, s.userId, s.scenarioId).value;
    var i :| 0 <= i < |t.sessions| && t.sessions[i] == s;
    var j :| 0 <= j < |t.sessions| && t.sessions[j] == r;
    KeyIdentifiesRow(t.sessions, SessionPair, i, j);
  }

  /** Nothing stops the same chapter from being recorded twice for one session: two such rows
      with distinct ids form a well-formed store. */
  lemma DuplicateCompletionsAdmitted()
    ensures var c1 := ChapterCompletion(1, 1, 1, 1, 0);
      var c2 := ChapterCompletion(2, 1, 1, 2, 0);
      var t := Empty().(completions := [c1, c2], nextCompletionId := 3);
      WellFormed(t) && CompletionPair(c1) == CompletionPair(c2)
  {
    var c1 := ChapterCompletion(1, 1, 1, 1, 0);
    var c2 := ChapterCompletion(2, 1, 1, 2, 0);
    var cs := [c1, c2];
    assert KeyUnique(cs, CompletionKey) by {
      forall i, j | 0 <= i < j < |cs| ensures CompletionKey(cs[i]) != CompletionKey(cs[j]) {
        assert i == 0 && j == 1;
      }
    }
  }

  /** The rows whose `key` is not among `ks`: what is left after deleting those rows. */
  function KeyNotIn<T>(key: T -> int, ks: seq<int>): T -> bool {
    x => key(x) !in ks
  }

  function Not<T>(p: T -> bool): T -> bool {
    x => !p(x)
  }

  /** Deleting the rows keyed `ks[..i]` and then the row keyed `ks[i]` deletes the rows keyed
      `ks[..i + 1]`. */
  lemma DeleteOneMore<T>(rows: seq<T>, key: T -> int, ks: seq<int>, i: int)
    requires 0 <= i < |ks|
    ensures Filter(Filter(rows, KeyNotIn(key, ks[..i])), KeyNotIn(key, [ks[i]]))
         == Filter(rows, KeyNotIn(key, ks[..i + 1]))
  {
    assert ks[..i + 1] == ks[..i] + [ks[i]];
    FilterFilter(rows, KeyNotIn(key, ks[..i]), KeyNotIn(key, [ks[i]]), KeyNotIn(key, ks[..i + 1]));
  }

  /** Deleting, one primary key at a time, every row selected by `p` leaves exactly the rows
      `p` does not select. */
  lemma DeleteSelected<T>(rows: seq<T>, key: T -> int, p: T -> bool)
    requires KeyUnique(rows, key)
    ensures Filter(rows, KeyNotIn(key, Map(Filter(rows, p), key))) == Filter(rows, Not(p))
  {
    var doomed := Filter(rows, p);
    var ks := Map(doomed, key);
    forall i | 0 <= i < |rows| ensures KeyNotIn(key, ks)(rows[i]) == Not(p)(rows[i]) {
      if p(rows[i]) {
        var j :| 0 <= j < |doomed| && doomed[j] == rows[i];
        assert ks[j] == key(rows[i]);
      }
    }
    FilterCongruent(rows, KeyNotIn(key, ks), Not(p));
  }

  /** Deleting rows from a table keeps every constraint of the store. */
  lemma DeletePreservesWellFormed(t: Tables, ps: Scenario -> bool, pc: ScenarioChapter -> bool,
                                  pt: TrainingSession -> bool, pm: SessionMessage -> bool, pk: ChapterCompletion -> bool)
    requires WellFormed(t)
    ensures WellFormed(t.(scenarios := Filter(t.scenarios, ps), chapters := Filter(t.chapters, pc),
      sessions := Filter(t.sessions, pt), messages := Filter(t.messages, pm), completions := Filter(t.completions, pk)))
  {
    KeyUniqueFilter(t.scenarios, ScenarioKey, ps); KeysBelowFilter(t.scenarios, ScenarioKey, t.nextScenarioId, ps);
    KeyUniqueFilter(t.scenarios, ScenarioSlug, ps);
    KeyUniqueFilter(t.chapters, ChapterKey, pc); KeysBelowFilter(t.chapters, ChapterKey, t.nextChapterId, pc);
    KeyUniqueFilter(t.sessions, SessionKey, pt); KeysBelowFilter(t.sessions, SessionKey, t.nextSessionId, pt);
    KeyUniqueFilter(t.sessions, SessionPair, pt);
    KeyUniqueFilter(t.messages, MessageKey, pm); KeysBelowFilter(t.messages, MessageKey, t.nextMessageId, pm);
    KeyUniqueFilter(t.completions, CompletionKey, pk); KeysBelowFilter(t.completions, CompletionKey, t.nextCompletionId, pk);
  }

  /** The database behind an ORM session, shared by the services. */
  class Database {
    var tables: Tables

    ghost predicate Valid()
      reads this
    {
      WellFormed(tables)
    }

    constructor ()
      ensures Valid() && tables == Empty()
    {
      tables := Empty();
    }
  }
}
