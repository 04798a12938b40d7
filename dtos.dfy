/** The transfer objects the services return, and the projections from stored rows to them. */
module Dtos {
  import opened Seqs
  import opened Models

  datatype SessionMessageDTO = SessionMessageDTO(id: int, role: string, content: string, createdAt: int)

  datatype ScenarioChapterWithoutContentDTO = ScenarioChapterWithoutContentDTO(id: int, title: string, order: int)

  datatype ScenarioWithChapterDTO = ScenarioWithChapterDTO(
    id: int, title: string, description: string, createdAt: int,
    chapters: seq<ScenarioChapterWithoutContentDTO>)

  datatype CompletedChapterDTO = CompletedChapterDTO(chapterId: int, messageId: int, completedAt: int)

  datatype TrainingSessionDTO = TrainingSessionDTO(
    id: int, createdAt: int, scenario: ScenarioWithChapterDTO,
    messages: seq<SessionMessageDTO>, completions: seq<CompletedChapterDTO>)

  datatype CreateScenarioChapterDTO = CreateScenarioChapterDTO(title: string, content: string, order: int)

  datatype CreateScenarioDTO = CreateScenarioDTO(
    slug: string, title: string, description: string, chapters: seq<CreateScenarioChapterDTO>)

  function MessageView(m: SessionMessage): SessionMessageDTO {
    SessionMessageDTO(m.id, m.role, m.content, m.createdAt)
  }

  function ChapterSummary(c: ScenarioChapter): ScenarioChapterWithoutContentDTO {
    ScenarioChapterWithoutContentDTO(c.id, c.title, c.order)
  }

  function CompletionView(c: ChapterCompletion): CompletedChapterDTO {
    CompletedChapterDTO(c.chapterId, c.messageId, c.completedAt)
  }

  /** A scenario with its chapters (taken from the chapter table `chapters`), content left out. */
  function ScenarioView(s: Scenario, chapters: seq<ScenarioChapter>): (v: ScenarioWithChapterDTO)
    ensures v.id == s.id && v.title == s.title && v.description == s.description && v.createdAt == s.createdAt
    ensures |v.chapters| == |ChaptersOf(chapters, s.id)|
    ensures forall i :: 0 <= i < |v.chapters| ==>
      var c := ChaptersOf(chapters, s.id)[i];
      v.chapters[i].id == c.id && v.chapters[i].title == c.title && v.chapters[i].order == c.order
  {
    ScenarioWithChapterDTO(s.id, s.title, s.description, s.createdAt, Map(ChaptersOf(chapters, s.id), ChapterSummary))
  }

  /** Every chapter of the scenario appears in the projection, and nothing else does. */
  lemma ScenarioViewCoversChapters(s: Scenario, chapters: seq<ScenarioChapter>, c: ScenarioChapter)
    ensures ChapterSummary(c) in ScenarioView(s, chapters).chapters <==>
      exists d :: d in chapters && d.scenarioId == s.id && ChapterSummary(d) == ChapterSummary(c)
  {
    var v := ScenarioView(s, chapters);
    var own := ChaptersOf(chapters, s.id);
    if ChapterSummary(c) in v.chapters {
      var i :| 0 <= i < |v.chapters| && v.chapters[i] == ChapterSummary(c);
      assert own[i] in chapters && OfScenario(s.id)(own[i]);
    }
    if exists d :: d in chapters && d.scenarioId == s.id && ChapterSummary(d) == ChapterSummary(c) {
      var d :| d in chapters && d.scenarioId == s.id && ChapterSummary(d) == ChapterSummary(c);
      var k :| 0 <= k < |chapters| && chapters[k] == d;
      assert d in own;
      var i :| 0 <= i < |own| && own[i] == d;
      assert v.chapters[i] == ChapterSummary(d);
    }
  }
}
