/** The persisted entities (users, scenarios, chapters, training sessions, messages and
    chapter completions) with the constraints the schema declares on them. Timestamps are
    abstract integers; the optional JSON `meta` column of a chapter is not modelled. */
module Models {
  import opened Wrappers
  import opened Seqs

  /** Role stored when none is given, both by the column default and by `add_message`. */
  const DefaultRole: string := "user"
  const AssistantRole: string := "assistant"

  datatype User = User(
    id: int, email: string, name: Option<string>, createdAt: int,
    hashedPassword: string, isActive: bool, isSuperuser: bool)

  datatype Scenario = Scenario(id: int, title: string, slug: string, description: string, createdAt: int)

  datatype ScenarioChapter = ScenarioChapter(id: int, scenarioId: int, title: string, content: string, order: int)

  datatype TrainingSession = TrainingSession(id: int, userId: int, scenarioId: int, createdAt: int)

  datatype SessionMessage = SessionMessage(id: int, sessionId: int, role: string, content: string, createdAt: int)

  /** A completion references exactly one session, one chapter and one message. */
  datatype ChapterCompletion = ChapterCompletion(
    id: int, sessionId: int, chapterId: int, messageId: int, completedAt: int)

  // Column keys used by the primary-key and UNIQUE constraints.
  function UserKey(u: User): int { u.id }
  function UserEmail(u: User): string { u.email }
  function ScenarioKey(s: Scenario): int { s.id }
  function ScenarioSlug(s: Scenario): string { s.slug }
  function ChapterKey(c: ScenarioChapter): int { c.id }
  function SessionKey(s: TrainingSession): int { s.id }
  function SessionPair(s: TrainingSession): (int, int) { (s.userId, s.scenarioId) }
  function MessageKey(m: SessionMessage): int { m.id }
  function CompletionKey(c: ChapterCompletion): int { c.id }
  function CompletionPair(c: ChapterCompletion): (int, int) { (c.sessionId, c.chapterId) }
  function ChapterOrder(c: ScenarioChapter): int { c.order }

  /** No two rows of the table share a value of `key`: a primary key or a UNIQUE constraint. */
  ghost predicate KeyUnique<T, K>(rows: seq<T>, key: T -> K) {
    forall i, j :: 0 <= i < j < |rows| ==> key(rows[i]) != key(rows[j])
  }

  /** Every key is below the next value the autoincrement counter hands out. */
  ghost predicate KeysBelow<T>(rows: seq<T>, key: T -> int, next: int) {
    forall i :: 0 <= i < |rows| ==> key(rows[i]) < next
  }

  /** A row whose key is not yet taken can be added without breaking the constraint. */
  lemma KeyUniqueAppend<T, K>(rows: seq<T>, key: T -> K, r: T)
    requires KeyUnique(rows, key)
    requires forall i :: 0 <= i < |rows| ==> key(rows[i]) != key(r)
    ensures KeyUnique(rows + [r], key)
  {
  }

  /** A row that takes the counter's value keeps both the key unique and all keys below the
      advanced counter. */
  lemma FreshKeyAppend<T>(rows: seq<T>, key: T -> int, next: int, r: T)
    requires KeyUnique(rows, key) && KeysBelow(rows, key, next)
    requires key(r) == next
    ensures KeyUnique(rows + [r], key) && KeysBelow(rows + [r], key, next + 1)
  {
    KeyUniqueAppend(rows, key, r);
  }

  /** Deleting rows never breaks a uniqueness constraint. */
  lemma {:induction false} KeyUniqueFilter<T, K>(rows: seq<T>, key: T -> K, p: T -> bool)
    requires KeyUnique(rows, key)
    ensures KeyUnique(Filter(rows, p), key)
  {
    if rows != [] {
      var rest := Filter(rows[1..], p);
      KeyUniqueFilter(rows[1..], key, p);
      var r := (if p(rows[0]) then [rows[0]] else []) + rest;
      assert Filter(rows, p) == r;
      forall i, j | 0 <= i < j < |r| ensures key(r[i]) != key(r[j]) {
        if p(rows[0]) && i == 0 {
          assert r[j] == rest[j - 1];
          assert rest[j - 1] in rows[1..];
        } else if p(rows[0]) {
          assert r[i] == rest[i - 1] && r[j] == rest[j - 1];
        }
      }
    }
  }

  /** Deleting rows keeps every key below the counter. */
  lemma KeysBelowFilter<T>(rows: seq<T>, key: T -> int, next: int, p: T -> bool)
    requires KeysBelow(rows, key, next)
    ensures KeysBelow(Filter(rows, p), key, next)
  {
    var r := Filter(rows, p);
    forall i | 0 <= i < |r| ensures key(r[i]) < next {
      assert r[i] in rows;
    }
  }

  /** Two rows of a table with a unique key that agree on the key are the same row. */
  lemma KeyIdentifiesRow<T, K>(rows: seq<T>, key: T -> K, i: int, j: int)
    requires KeyUnique(rows, key)
    requires 0 <= i < |rows| && 0 <= j < |rows| && key(rows[i]) == key(rows[j])
    ensures i == j
  {
  }

  // Relationship attributes: the child rows of a parent, in table (insertion) order.
  function OfScenario(scenarioId: int): ScenarioChapter -> bool { (c: ScenarioChapter) => c.scenarioId == scenarioId }
  function MessageOfSession(sessionId: int): SessionMessage -> bool { (m: SessionMessage) => m.sessionId == sessionId }
  function CompletionOfSession(sessionId: int): ChapterCompletion -> bool { (c: ChapterCompletion) => c.sessionId == sessionId }
  function SessionOfUser(userId: int): TrainingSession -> bool { (s: TrainingSession) => s.userId == userId }

  /** `scenario.chapters` */
  function ChaptersOf(chapters: seq<ScenarioChapter>, scenarioId: int): seq<ScenarioChapter> {
    Filter(chapters, OfScenario(scenarioId))
  }

  /** `session.messages` */
  function MessagesOf(messages: seq<SessionMessage>, sessionId: int): seq<SessionMessage> {
    Filter(messages, MessageOfSession(sessionId))
  }

  /** `session.completions` */
  function CompletionsOf(completions: seq<ChapterCompletion>, sessionId: int): seq<ChapterCompletion> {
    Filter(completions, CompletionOfSession(sessionId))
  }

  /** The `{role, content}` pair the answer generator receives for one stored message. */
  datatype Turn = Turn(role: string, content: string)

  function ToTurn(m: SessionMessage): Turn { Turn(m.role, m.content) }

  /** The conversation as the generator sees it: one pair per message, same length, same order. */
  function Turns(messages: seq<SessionMessage>): (r: seq<Turn>)
    ensures |r| == |messages|
    ensures forall i :: 0 <= i < |r| ==> r[i].role == messages[i].role && r[i].content == messages[i].content
  {
    Map(messages, ToTurn)
  }
}
