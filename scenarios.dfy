/** The scenario service: projections of scenarios with their chapters, deletion and creation
    over the store, and the checks and path rewrite that turn a GitHub page URL into the URL of
    the raw file to import. */
module Scenarios {
  import opened Wrappers
  import opened Seqs
  import opened Models
  import opened Dtos
  import opened Store

  /** `get`: None for an unknown id, otherwise the scenario with its chapters, content left out. */
  function Get(t: Tables, scenarioId: int): (r: Option<ScenarioWithChapterDTO>)
    ensures r.None? <==> FindScenario(t, scenarioId).None?
    ensures r.Some? ==> r.value.id == scenarioId && r.value == ScenarioView(FindScenario(t, scenarioId).value, t.chapters)
  {
    match FindScenario(t, scenarioId)
    case None => None
    case Some(s) => Some(ScenarioView(s, t.chapters))
  }

  function ViewIn(t: Tables): Scenario -> ScenarioWithChapterDTO {
    (s: Scenario) => ScenarioView(s, t.chapters)
  }

  /** `get_all`: one projection per stored scenario, in storage order. */
  function GetAll(t: Tables): (r: seq<ScenarioWithChapterDTO>)
    ensures |r| == |t.scenarios|
    ensures forall i :: 0 <= i < |r| ==> r[i].id == t.scenarios[i].id && r[i] == ScenarioView(t.scenarios[i], t.chapters)
  {
    Map(t.scenarios, ViewIn(t))
  }

  /** A scenario row about to be inserted; `slug` is None when the code never sets it. */
  datatype NewScenario = NewScenario(title: string, slug: Option<string>, description: string)

  /** The row `create` builds, as written: title and description only. */
  function ScenarioRowAsWritten(dto: CreateScenarioDTO): (r: NewScenario)
    ensures r.slug.None?
    ensures r.title == dto.title && r.description == dto.description
  {
    NewScenario(dto.title, None, dto.description)
  }

  /** The row `create` evidently means to build: the request's slug as well. */
  function ScenarioRow(dto: CreateScenarioDTO): (r: NewScenario)
    ensures r.slug == Some(dto.slug)
    ensures r.title == dto.title && r.description == dto.description
  {
    NewScenario(dto.title, Some(dto.slug), dto.description)
  }

  /** Committing one new scenario row: a missing slug violates NOT NULL and a taken slug violates
      UNIQUE; otherwise the row gets the next id. */
  function InsertScenario(t: Tables, row: NewScenario, now: int): (r: Result<Tables, Failure>)
    requires WellFormed(t)
    ensures r.Err? <==> row.slug.None? || exists i :: 0 <= i < |t.scenarios| && t.scenarios[i].slug == row.slug.value
    ensures r.Err? ==> r.error == IntegrityError
    ensures r.Ok? ==> WellFormed(r.value) && r.value == t.(
      scenarios := t.scenarios + [Scenario(t.nextScenarioId, row.title, row.slug.value, row.description, now)],
      nextScenarioId := t.nextScenarioId + 1)
  {
    match row.slug
    case None => Err(IntegrityError)
    case Some(slug) =>
      if exists i :: 0 <= i < |t.scenarios| && t.scenarios[i].slug == slug then Err(IntegrityError)
      else
        var s := Scenario(t.nextScenarioId, row.title, slug, row.description, now);
        FreshKeyAppend(t.scenarios, ScenarioKey, t.nextScenarioId, s);
        KeyUniqueAppend(t.scenarios, ScenarioSlug, s);
        Ok(t.(scenarios := t.scenarios + [s], nextScenarioId := t.nextScenarioId + 1))
  }

  /** As written, `create` cannot succeed on any store: the first commit is rejected. */
  lemma CreateAsWrittenAlwaysFails(t: Tables, dto: CreateScenarioDTO, now: int)
    requires WellFormed(t)
    ensures InsertScenario(t, ScenarioRowAsWritten(dto), now) == Err(IntegrityError)
  {
  }

  /** With the slug carried over, the first commit succeeds exactly when the slug is free. */
  lemma CreateSucceedsOnFreeSlug(t: Tables, dto: CreateScenarioDTO, now: int)
    requires WellFormed(t)
    requires forall i :: 0 <= i < |t.scenarios| ==> t.scenarios[i].slug != dto.slug
    ensures InsertScenario(t, ScenarioRow(dto), now).Ok?
    ensures FindScenario(InsertScenario(t, ScenarioRow(dto), now).value, t.nextScenarioId)
         == Some(Scenario(t.nextScenarioId, dto.title, dto.slug, dto.description, now))
  {
    var t' := InsertScenario(t, ScenarioRow(dto), now).value;
    var s := Scenario(t.nextScenarioId, dto.title, dto.slug, dto.description, now);
    assert t'.scenarios[|t.scenarios|] == s;
    FirstOfKeyIsOnly(t'.scenarios, s);
  }

  lemma FirstOfKeyIsOnly(scenarios: seq<Scenario>, s: Scenario)
    requires KeyUnique(scenarios, ScenarioKey) && s in scenarios
    ensures FirstWhere(scenarios, ScenarioIs(s.id)) == Some(s)
  {
    var r := FirstWhere(scenarios, ScenarioIs(s.id)).value;
    var i :| 0 <= i < |scenarios| && scenarios[i] == s;
    var j :| 0 <= j < |scenarios| && scenarios[j] == r;
    KeyIdentifiesRow(scenarios, ScenarioKey, i, j);
  }

  /** The chapter rows `create` adds for the requested chapters, ids handed out from `firstId`. */
  function ChapterRows(cs: seq<CreateScenarioChapterDTO>, scenarioId: int, firstId: int): (r: seq<ScenarioChapter>)
    ensures |r| == |cs|
    ensures forall i :: 0 <= i < |cs| ==>
      r[i] == ScenarioChapter(firstId + i, scenarioId, cs[i].title, cs[i].content, cs[i].order)
  {
    if cs == [] then []
    else
      var last := cs[|cs| - 1];
      ChapterRows(cs[..|cs| - 1], scenarioId, firstId) + [ScenarioChapter(firstId + |cs| - 1, scenarioId, last.title, last.content, last.order)]
  }

  /** The chapters listed for a newly created scenario are those it already had in the table
      (none, unless some chapter was stored with a dangling scenario id), followed by one
      chapter per request, in request order. */
  lemma CreatedChaptersAreListed(chapters: seq<ScenarioChapter>, cs: seq<CreateScenarioChapterDTO>, scenarioId: int, firstId: int)
    ensures ChaptersOf(chapters + ChapterRows(cs, scenarioId, firstId), scenarioId)
         == ChaptersOf(chapters, scenarioId) + ChapterRows(cs, scenarioId, firstId)
  {
    var added := ChapterRows(cs, scenarioId, firstId);
    FilterAppend(chapters, added, OfScenario(scenarioId));
    FilterKeepsAll(added, OfScenario(scenarioId));
  }

  /** The part of `import_github` before any fetch: a GitHub page URL of a `.json` file. */
  datatype Url = Url(host: string, path: string)

  const GithubHost: string := "github.com"
  const RawHost: string := "https://raw.githubusercontent.com"

  predicate EndsWith(s: string, suffix: string) {
    |suffix| <= |s| && s[|s| - |suffix|..] == suffix
  }

  predicate StartsWith(s: string, prefix: string) {
    |prefix| <= |s| && s[..|prefix|] == prefix
  }

  /** `s.replace(pattern, "")`: occurrences are found left to right and do not overlap. */
  function RemoveAll(s: string, pattern: string): (r: string)
    requires pattern != []
    ensures |r| <= |s|
    decreases |s|
  {
    if |s| < |pattern| then s
    else if s[..|pattern|] == pattern then RemoveAll(s[|pattern|..], pattern)
    else [s[0]] + RemoveAll(s[1..], pattern)
  }

  /** The URL of the raw file: the raw host followed by the path, with every "blob/" removed and
      then every "refs/heads/" removed. */
  function RawUrl(path: string): (r: string)
    ensures StartsWith(r, RawHost)
    ensures |r| <= |RawHost| + |path|
  {
    RawHost + RemoveAll(RemoveAll(path, "blob/"), "refs/heads/")
  }

  /** The checks of `import_github`, in order, and the URL it would then fetch. */
  function ImportSource(url: Url): (r: Result<string, Failure>)
    ensures r == Err(InvalidGithubUrl) <==> url.host != GithubHost
    ensures r == Err(InvalidFileType) <==> url.host == GithubHost && !EndsWith(url.path, ".json")
    ensures r.Ok? ==> r.value == RawUrl(url.path)
  {
    if url.host != GithubHost then Err(InvalidGithubUrl)
    else if !EndsWith(url.path, ".json") then Err(InvalidFileType)
    else Ok(RawUrl(url.path))
  }

  /** A string in which the last character of the pattern never occurs holds no occurrence, and
      removal leaves it as it is. */
  lemma {:induction false} RemoveAllWithoutLastChar(s: string, pattern: string)
    requires pattern != [] && pattern[|pattern| - 1] !in s
    ensures RemoveAll(s, pattern) == s
    decreases |s|
  {
    if |s| >= |pattern| {
      assert s[|pattern| - 1] in s;
      assert s[..|pattern|] != pattern;
      RemoveAllWithoutLastChar(s[1..], pattern);
      assert [s[0]] + s[1..] == s;
    }
  }

  lemma SuffixAfterDrop(s: string, n: nat, suffix: string)
    requires EndsWith(s, suffix) && n <= |s| - |suffix|
    ensures EndsWith(s[n..], suffix)
  {
    assert s[n..][|s| - n - |suffix|..] == s[|s| - |suffix|..];
  }

  lemma SuffixAfterCons(c: char, r: string, suffix: string)
    requires EndsWith(r, suffix)
    ensures EndsWith([c] + r, suffix)
  {
    assert ([c] + r)[|r| + 1 - |suffix|..] == r[|r| - |suffix|..];
  }

  /** An occurrence of the pattern at the front ends before a suffix that does not contain the
      pattern's last character. */
  lemma MatchEndsBeforeSuffix(s: string, pattern: string, suffix: string)
    requires pattern != [] && pattern[|pattern| - 1] !in suffix
    requires EndsWith(s, suffix) && |pattern| <= |s| && s[..|pattern|] == pattern
    ensures |pattern| <= |s| - |suffix|
  {
    assert s[|pattern| - 1] == pattern[|pattern| - 1];
  }

  /** A suffix that does not contain the last character of the pattern survives removal. */
  lemma {:induction false} RemoveAllKeepsSuffix(s: string, pattern: string, suffix: string)
    requires pattern != [] && pattern[|pattern| - 1] !in suffix
    requires EndsWith(s, suffix)
    ensures EndsWith(RemoveAll(s, pattern), suffix)
    decreases |s|
  {
    if |s| >= |pattern| {
      if s[..|pattern|] == pattern {
        MatchEndsBeforeSuffix(s, pattern, suffix);
        SuffixAfterDrop(s, |pattern|, suffix);
        RemoveAllKeepsSuffix(s[|pattern|..], pattern, suffix);
      } else if |s| - 1 >= |suffix| {
        SuffixAfterDrop(s, 1, suffix);
        RemoveAllKeepsSuffix(s[1..], pattern, suffix);
        SuffixAfterCons(s[0], RemoveAll(s[1..], pattern), suffix);
      } else {
        assert s == s[|s| - |suffix|..];
        RemoveAllWithoutLastChar(s, pattern);
      }
    }
  }

  /** `pattern` occurs in `s` starting at index `i`. */
  predicate MatchAt(s: string, i: int, pattern: string) {
    0 <= i && i + |pattern| <= |s| && s[i..i + |pattern|] == pattern
  }

  predicate Occurs(s: string, pattern: string) {
    exists i :: 0 <= i <= |s| - |pattern| && MatchAt(s, i, pattern)
  }

  /** An occurrence at the front is dropped and removal goes on after it. */
  lemma RemoveAllDropsLeading(pattern: string, s: string)
    requires pattern != []
    ensures RemoveAll(pattern + s, pattern) == RemoveAll(s, pattern)
  {
    assert (pattern + s)[..|pattern|] == pattern;
    assert (pattern + s)[|pattern|..] == s;
  }

  /** A character that does not start an occurrence is kept, in front of the rest's removal. */
  lemma RemoveAllKeepsNonMatch(c: char, s: string, pattern: string)
    requires pattern != [] && !MatchAt([c] + s, 0, pattern)
    ensures RemoveAll([c] + s, pattern) == [c] + RemoveAll(s, pattern)
  {
    assert ([c] + s)[1..] == s;
    if |[c] + s| >= |pattern| {
      assert ([c] + s)[..|pattern|] != pattern;
    }
    if |[c] + s| < |pattern| {
      RemoveAllShort(s, pattern);
    }
  }

  lemma RemoveAllShort(s: string, pattern: string)
    requires pattern != [] && |s| < |pattern|
    ensures RemoveAll(s, pattern) == s
  {
  }

  /** A text in which the pattern does not occur is left as it is. */
  lemma {:induction false} RemoveAllWithoutOccurrence(s: string, pattern: string)
    requires pattern != [] && !Occurs(s, pattern)
    ensures RemoveAll(s, pattern) == s
    decreases |s|
  {
    if |s| >= |pattern| {
      assert !MatchAt(s, 0, pattern);
      assert !Occurs(s[1..], pattern) by {
        forall i | 0 <= i <= |s[1..]| - |pattern| ensures !MatchAt(s[1..], i, pattern) {
          assert !MatchAt(s, i + 1, pattern);
          assert s[1..][i..i + |pattern|] == s[i + 1..i + 1 + |pattern|];
        }
      }
      RemoveAllWithoutOccurrence(s[1..], pattern);
      assert [s[0]] + s[1..] == s;
    }
  }

  /** An occurrence after a leading character is one in the text that follows it. */
  lemma MatchAtShift(c: char, s: string, i: int, pattern: string)
    requires 0 <= i
    ensures MatchAt([c] + s, i + 1, pattern) <==> MatchAt(s, i, pattern)
  {
    if i + |pattern| <= |s| {
      assert ([c] + s)[i + 1..i + 1 + |pattern|] == s[i..i + |pattern|];
    }
  }

  /** A prefix in which no occurrence starts is kept, in front of the removal from the rest. */
  lemma {:induction false} RemoveAllKeepsPrefix(a: string, b: string, pattern: string)
    requires pattern != []
    requires forall i :: 0 <= i < |a| ==> !MatchAt(a + b, i, pattern)
    ensures RemoveAll(a + b, pattern) == a + RemoveAll(b, pattern)
    decreases |a|
  {
    if a != [] {
      var c, rest := a[0], a[1..];
      var tail := rest + b;
      assert a == [c] + rest;
      assert a + b == [c] + tail;
      assert !MatchAt([c] + tail, 0, pattern);
      RemoveAllKeepsNonMatch(c, tail, pattern);
      forall i | 0 <= i < |rest| ensures !MatchAt(tail, i, pattern) {
        MatchAtShift(c, tail, i, pattern);
        assert !MatchAt(a + b, i + 1, pattern);
      }
      RemoveAllKeepsPrefix(rest, b, pattern);
      assert [c] + (rest + RemoveAll(b, pattern)) == ([c] + rest) + RemoveAll(b, pattern);
    } else {
      assert a + b == b;
    }
  }

  /** A text lacking any one character of the pattern holds no occurrence of it. */
  lemma NoOccurrenceWithoutChar(s: string, pattern: string, k: int)
    requires 0 <= k < |pattern| && pattern[k] !in s
    ensures !Occurs(s, pattern)
  {
  }

  /** A path in which neither pattern occurs is kept verbatim after the raw host. */
  lemma RawUrlKeepsPlainPath(path: string)
    requires !Occurs(path, "blob/") && !Occurs(path, "refs/heads/")
    ensures RawUrl(path) == RawHost + path
  {
    RemoveAllWithoutOccurrence(path, "blob/");
    RemoveAllWithoutOccurrence(path, "refs/heads/");
  }

  /** No occurrence of "blob/" starts in the owner and repository part of the example path. */
  lemma ExampleOwnerPartHasNoMatch(a: string, rest: string)
    requires a == "/amrltqt/brobot/"
    ensures forall i :: 0 <= i < |a| ==> !MatchAt(a + rest, i, "blob/")
  {
    forall i | 0 <= i < |a| ensures !MatchAt(a + rest, i, "blob/") {
      MatchAtStart(a + rest, i, "blob/");
      assert (a + rest)[i] == a[i];
      if i + 1 < |a| {
        assert (a + rest)[i + 1] == a[i + 1];
        assert a[i] != 'b' || a[i + 1] != 'l' by {
          assert a[9] == 'b' && a[10] == 'r' && a[12] == 'b' && a[13] == 'o';
          assert forall j :: 0 <= j < |a| && j != 9 && j != 12 ==> a[j] != 'b';
        }
      } else {
        assert a[i] == '/';
      }
    }
  }

  /** An occurrence starts with the pattern's first two characters. */
  lemma MatchAtStart(s: string, i: int, pattern: string)
    requires 0 <= i && |pattern| >= 2
    ensures MatchAt(s, i, pattern) ==> i + 1 < |s| && s[i] == pattern[0] && s[i + 1] == pattern[1]
  {
    if MatchAt(s, i, pattern) {
      assert s[i..i + |pattern|][0] == s[i];
      assert s[i..i + |pattern|][1] == s[i + 1];
    }
  }

  /** The part after "blob/" holds no "b", so no "blob/". */
  lemma ExampleFilePartHasNoMatch(b: string)
    requires b == "master/data/scenarios/introduction-sql.json"
    ensures !Occurs(b, "blob/")
  {
    assert 'b' !in b;
    NoOccurrenceWithoutChar(b, "blob/", 0);
  }

  /** The rewritten example path holds no "f", so no "refs/heads/". */
  lemma ExampleRewrittenHasNoMatch(a: string, b: string)
    requires a == "/amrltqt/brobot/" && b == "master/data/scenarios/introduction-sql.json"
    ensures !Occurs(a + b, "refs/heads/")
  {
    assert 'f' !in a;
    assert 'f' !in b;
    NoOccurrenceWithoutChar(a + b, "refs/heads/", 2);
  }

  /** The page URL of the repository's own example file becomes its raw-file URL. */
  lemma RawUrlExample(a: string, b: string)
    requires a == "/amrltqt/brobot/" && b == "master/data/scenarios/introduction-sql.json"
    ensures RawUrl(a + "blob/" + b)
         == "https://raw.githubusercontent.com" + "/amrltqt/brobot/" + "master/data/scenarios/introduction-sql.json"
  {
    ExampleBlobRemoved(a, b);
    ExampleRewrittenHasNoMatch(a, b);
    RemoveAllWithoutOccurrence(a + b, "refs/heads/");
  }

  /** Removing "blob/" from the example path drops its one occurrence. */
  lemma ExampleBlobRemoved(a: string, b: string)
    requires a == "/amrltqt/brobot/" && b == "master/data/scenarios/introduction-sql.json"
    ensures RemoveAll(a + "blob/" + b, "blob/") == a + b
  {
    assert a + "blob/" + b == a + ("blob/" + b);
    ExampleOwnerPartHasNoMatch(a, "blob/" + b);
    RemoveAllKeepsPrefix(a, "blob/" + b, "blob/");
    RemoveAllDropsLeading("blob/", b);
    ExampleFilePartHasNoMatch(b);
    RemoveAllWithoutOccurrence(b, "blob/");
  }

  /** Every URL that passes the checks is a raw-host URL of a `.json` file. */
  lemma ImportSourceIsRawJson(url: Url)
    requires ImportSource(url).Ok?
    ensures StartsWith(ImportSource(url).value, RawHost)
    ensures EndsWith(ImportSource(url).value, ".json")
  {
    var once := RemoveAll(url.path, "blob/");
    RemoveAllKeepsSuffix(url.path, "blob/", ".json");
    RemoveAllKeepsSuffix(once, "refs/heads/", ".json");
    var twice := RemoveAll(once, "refs/heads/");
    assert (RawHost + twice)[|RawHost + twice| - 5..] == twice[|twice| - 5..];
    assert (RawHost + twice)[..|RawHost|] == RawHost;
  }

  /** The tables after the scenario and its chapters are gone: well formed, and the scenario
      row removed by primary key is the row the scenario id selects. */
  lemma ScenarioDeletionState(t: Tables, scenarioId: int)
    requires WellFormed(t)
    ensures Filter(t.scenarios, KeyNotIn(ScenarioKey, [scenarioId])) == Filter(t.scenarios, Not(ScenarioIs(scenarioId)))
    ensures WellFormed(t.(scenarios := Filter(t.scenarios, Not(ScenarioIs(scenarioId))),
                          chapters := Filter(t.chapters, Not(OfScenario(scenarioId)))))
  {
    FilterCongruent(t.scenarios, KeyNotIn(ScenarioKey, [scenarioId]), Not(ScenarioIs(scenarioId)));
    DeletePreservesWellFormed(t, Not(ScenarioIs(scenarioId)), Not(OfScenario(scenarioId)), _ => true, _ => true, _ => true);
    FilterKeepsAll(t.sessions, _ => true);
    FilterKeepsAll(t.messages, _ => true);
    FilterKeepsAll(t.completions, _ => true);
  }

  /** Some row still points at the scenario: one of its training sessions, or a completion of
      one of its chapters. */
  predicate ScenarioInUse(t: Tables, scenarioId: int) {
    || (exists i :: 0 <= i < |t.sessions| && t.sessions[i].scenarioId == scenarioId)
    || (exists i, j :: 0 <= i < |t.completions| && 0 <= j < |t.chapters|
          && t.completions[i].chapterId == t.chapters[j].id && t.chapters[j].scenarioId == scenarioId)
  }

  /** Every session names a stored scenario. */
  predicate SessionsResolve(sessions: seq<TrainingSession>, scenarios: seq<Scenario>) {
    forall i :: 0 <= i < |sessions| ==> exists k :: 0 <= k < |scenarios| && scenarios[k].id == sessions[i].scenarioId
  }

  /** Every completion names a stored chapter. */
  predicate CompletionsResolve(completions: seq<ChapterCompletion>, chapters: seq<ScenarioChapter>) {
    forall i :: 0 <= i < |completions| ==> exists k :: 0 <= k < |chapters| && chapters[k].id == completions[i].chapterId
  }

  predicate ReferencesResolve(t: Tables) {
    SessionsResolve(t.sessions, t.scenarios) && CompletionsResolve(t.completions, t.chapters)
  }

  /** A deletion that commits leaves no session or completion pointing at a removed row. */
  lemma DeletionKeepsReferencesResolved(t: Tables, scenarioId: int)
    requires ReferencesResolve(t) && !ScenarioInUse(t, scenarioId)
    ensures ReferencesResolve(t.(scenarios := Filter(t.scenarios, Not(ScenarioIs(scenarioId))),
                                 chapters := Filter(t.chapters, Not(OfScenario(scenarioId)))))
  {
    var scenarios := Filter(t.scenarios, Not(ScenarioIs(scenarioId)));
    var chapters := Filter(t.chapters, Not(OfScenario(scenarioId)));
    forall i | 0 <= i < |t.sessions|
      ensures exists k :: 0 <= k < |scenarios| && scenarios[k].id == t.sessions[i].scenarioId
    {
      var k :| 0 <= k < |t.scenarios| && t.scenarios[k].id == t.sessions[i].scenarioId;
      assert t.sessions[i].scenarioId != scenarioId;
      assert Not(ScenarioIs(scenarioId))(t.scenarios[k]);
      var k' :| 0 <= k' < |scenarios| && scenarios[k'] == t.scenarios[k];
    }
    assert forall i :: 0 <= i < |t.sessions| ==> exists k :: 0 <= k < |scenarios| && scenarios[k].id == t.sessions[i].scenarioId;
    assert SessionsResolve(t.sessions, scenarios);
    forall i | 0 <= i < |t.completions|
      ensures exists k :: 0 <= k < |chapters| && chapters[k].id == t.completions[i].chapterId
    {
      var k :| 0 <= k < |t.chapters| && t.chapters[k].id == t.completions[i].chapterId;
      assert Not(OfScenario(scenarioId))(t.chapters[k]);
      var k' :| 0 <= k' < |chapters| && chapters[k'] == t.chapters[k];
    }
    assert forall i :: 0 <= i < |t.completions| ==> exists k :: 0 <= k < |chapters| && chapters[k].id == t.completions[i].chapterId;
    assert CompletionsResolve(t.completions, chapters);
  }

  class ScenarioService {
    const db: Database

    constructor (db: Database)
      ensures this.db == db
    {
      this.db := db;
    }

    /** `delete`: False for an unknown id; otherwise every chapter with that scenario id is
        deleted, one row at a time, and then the scenario, and the session is committed. A
        scenario still in use fails the commit: the flush sets the scenario id of its training
        sessions, and the chapter id of the completions of its chapters, to NULL, which their
        NOT NULL columns reject; the transaction is rolled back and the error reaches the caller. */
    method Delete(scenarioId: int) returns (r: Result<bool, Failure>)
      requires db.Valid()
      modifies db`tables
      ensures db.Valid()
      ensures r == Ok(false) <==> FindScenario(old(db.tables), scenarioId).None?
      ensures r.Err? <==> FindScenario(old(db.tables), scenarioId).Some? && ScenarioInUse(old(db.tables), scenarioId)
      ensures r.Err? ==> r.error == IntegrityError
      ensures r != Ok(true) ==> db.tables == old(db.tables)
      ensures ReferencesResolve(old(db.tables)) ==> ReferencesResolve(db.tables)
      ensures r == Ok(true) ==> db.tables == old(db.tables).(
        scenarios := Filter(old(db.tables).scenarios, Not(ScenarioIs(scenarioId))),
        chapters := Filter(old(db.tables).chapters, Not(OfScenario(scenarioId))))
    {
      var t0 := db.tables;
      if FindScenario(t0, scenarioId).None? {
        return Ok(false);
      }
      DeleteChaptersOf(scenarioId);
      db.tables := db.tables.(scenarios := Filter(t0.scenarios, KeyNotIn(ScenarioKey, [scenarioId])));
      if ScenarioInUse(t0, scenarioId) {
        // the commit fails and rolls back
        db.tables := t0;
        return Err(IntegrityError);
      }
      ScenarioDeletionState(t0, scenarioId);
      if ReferencesResolve(t0) {
        DeletionKeepsReferencesResolved(t0, scenarioId);
      }
      r := Ok(true);
    }

    /** The chapter loop of `delete`: every chapter of the scenario, deleted one row at a time. */
    method DeleteChaptersOf(scenarioId: int)
      requires KeyUnique(db.tables.chapters, ChapterKey)
      modifies db`tables
      ensures db.tables == old(db.tables).(chapters := Filter(old(db.tables).chapters, Not(OfScenario(scenarioId))))
    {
      var t0 := db.tables;
      var ids := Map(ChaptersOf(t0.chapters, scenarioId), ChapterKey);
      FilterKeepsAll(t0.chapters, KeyNotIn(ChapterKey, ids[..0]));
      var i := 0;
      while i < |ids|
        invariant 0 <= i <= |ids|
        invariant db.tables == t0.(chapters := Filter(t0.chapters, KeyNotIn(ChapterKey, ids[..i])))
      {
        DeleteOneMore(t0.chapters, ChapterKey, ids, i);
        db.tables := db.tables.(chapters := Filter(db.tables.chapters, KeyNotIn(ChapterKey, [ids[i]])));
        i := i + 1;
      }
      assert ids[..|ids|] == ids;
      DeleteSelected(t0.chapters, ChapterKey, OfScenario(scenarioId));
    }

    /** The chapter loop of `create`: one row per requested chapter, in order, each linked to
        the scenario and numbered from the next free chapter id. */
    method InsertChapters(chapters: seq<CreateScenarioChapterDTO>, scenarioId: int)
      requires WellFormed(db.tables)
      modifies db`tables
      ensures WellFormed(db.tables)
      ensures db.tables == old(db.tables).(
        chapters := old(db.tables).chapters + ChapterRows(chapters, scenarioId, old(db.tables).nextChapterId),
        nextChapterId := old(db.tables).nextChapterId + |chapters|)
    {
      var t1 := db.tables;
      var i := 0;
      while i < |chapters|
        invariant 0 <= i <= |chapters|
        invariant WellFormed(db.tables)
        invariant db.tables == t1.(chapters := t1.chapters + ChapterRows(chapters[..i], scenarioId, t1.nextChapterId),
                                   nextChapterId := t1.nextChapterId + i)
      {
        var chapter := chapters[i];
        var row := ScenarioChapter(db.tables.nextChapterId, scenarioId, chapter.title, chapter.content, chapter.order);
        FreshKeyAppend(db.tables.chapters, ChapterKey, db.tables.nextChapterId, row);
        assert chapters[..i + 1][..i] == chapters[..i];
        db.tables := db.tables.(chapters := db.tables.chapters + [row], nextChapterId := db.tables.nextChapterId + 1);
        i := i + 1;
      }
      assert chapters[..|chapters|] == chapters;
    }

    /** `create`, with the request's slug carried into the row: the scenario is committed
        first (a taken slug rejects it and nothing changes), then one chapter per requested
        chapter, in order, each linked to the new scenario. */
    method Create(dto: CreateScenarioDTO, now: int) returns (r: Result<Scenario, Failure>)
      requires db.Valid()
      modifies db`tables
      ensures db.Valid()
      ensures r.Err? <==> exists i :: 0 <= i < |old(db.tables).scenarios| && old(db.tables).scenarios[i].slug == dto.slug
      ensures r.Err? ==> r.error == IntegrityError && db.tables == old(db.tables)
      ensures r.Ok? ==>
        var t := old(db.tables);
        && r.value == Scenario(t.nextScenarioId, dto.title, dto.slug, dto.description, now)
        && db.tables == t.(scenarios := t.scenarios + [r.value], nextScenarioId := t.nextScenarioId + 1,
                           chapters := t.chapters + ChapterRows(dto.chapters, r.value.id, t.nextChapterId),
                           nextChapterId := t.nextChapterId + |dto.chapters|)
    {
      var t0 := db.tables;
      var inserted := InsertScenario(t0, ScenarioRow(dto), now);
      if inserted.Err? {
        return Err(inserted.error);
      }
      db.tables := inserted.value;
      var s := Scenario(t0.nextScenarioId, dto.title, dto.slug, dto.description, now);
      InsertChapters(dto.chapters, s.id);
      r := Ok(s);
    }
  }
}
