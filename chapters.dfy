/** Which chapter of a scenario a training session is on: the chapters sorted by `order` with a
    stable sort, then the first one whose id has no completion yet. */
module Chapters {
  import opened Wrappers
  import opened Seqs
  import opened StableSort
  import opened Models
  import opened Store

  /** The chapters not yet completed, given the chapter ids of the session's completions. */
  function Pending(done: seq<int>): ScenarioChapter -> bool {
    (c: ScenarioChapter) => c.id !in done
  }

  /** The chapter search of `_get_current_chapter`, once the session and its scenario are found. */
  function CurrentChapter(chapters: seq<ScenarioChapter>, done: seq<int>): (r: Result<ScenarioChapter, Failure>)
    ensures r.Err? ==> r.error == NoChaptersFound || r.error == AllChaptersCompleted
    ensures r == Err(NoChaptersFound) <==> chapters == []
    ensures r.Ok? ==> r.value in chapters && r.value.id !in done
  {
    if chapters == [] then Err(NoChaptersFound)
    else
      var sorted := SortBy(chapters, ChapterOrder);
      SortBySorted(chapters, ChapterOrder);
      assert forall c :: c in sorted ==> c in chapters by {
        forall c | c in sorted ensures c in chapters {
          assert c in multiset(sorted);
        }
      }
      match FirstWhere(sorted, Pending(done))
      case None => Err(AllChaptersCompleted)
      case Some(c) => Ok(c)
  }

  /** The reference definition: `chapters[k]` is pending, no pending chapter has a lower order,
      and no pending chapter earlier in the list has the same order. */
  ghost predicate IsCurrent(chapters: seq<ScenarioChapter>, done: seq<int>, k: int) {
    && 0 <= k < |chapters| && chapters[k].id !in done
    && (forall j :: 0 <= j < |chapters| && chapters[j].id !in done ==> chapters[k].order <= chapters[j].order)
    && (forall j :: 0 <= j < k && chapters[j].id !in done ==> chapters[j].order != chapters[k].order)
  }

  /** The chapter the search finds has the lowest order among the pending ones. */
  lemma SearchFindsLowestOrder(chapters: seq<ScenarioChapter>, done: seq<int>)
    requires FirstWhere(SortBy(chapters, ChapterOrder), Pending(done)).Some?
    ensures var x := FirstWhere(SortBy(chapters, ChapterOrder), Pending(done)).value;
      x in chapters && x.id !in done &&
      forall j :: 0 <= j < |chapters| && chapters[j].id !in done ==> x.order <= chapters[j].order
  {
    var sorted := SortBy(chapters, ChapterOrder);
    SortBySorted(chapters, ChapterOrder);
    FirstWhereLowestOf(chapters, sorted, ChapterOrder, Pending(done));
    var x := FirstWhere(sorted, Pending(done)).value;
    forall j | 0 <= j < |chapters| && chapters[j].id !in done ensures x.order <= chapters[j].order {
      assert Pending(done)(chapters[j]);
      assert ChapterOrder(x) <= ChapterOrder(chapters[j]);
    }
  }

  /** An index at which a member of a sequence sits, found through the multiset of the sequence. */
  lemma IndexIn(s: seq<ScenarioChapter>, c: ScenarioChapter) returns (l: int)
    requires c in multiset(s)
    ensures 0 <= l < |s| && s[l] == c
  {
    assert c in s;
    l :| 0 <= l < |s| && s[l] == c;
  }

  /** Whenever some chapter is pending, a chapter meeting the reference definition exists. */
  lemma LowestPendingExists(chapters: seq<ScenarioChapter>, done: seq<int>, i: int) returns (k: int)
    requires 0 <= i < |chapters| && chapters[i].id !in done
    ensures IsCurrent(chapters, done, k)
  {
    var sorted := SortBy(chapters, ChapterOrder);
    SortBySorted(chapters, ChapterOrder);
    assert chapters[i] in multiset(sorted);
    assert Pending(done)(chapters[i]);
    assert FirstWhere(sorted, Pending(done)).Some?;
    SearchFindsLowestOrder(chapters, done);
    var m := FirstWhere(sorted, Pending(done)).value.order;
    var lowest := (c: ScenarioChapter) => c.id !in done && c.order == m;
    var x := FirstWhere(sorted, Pending(done)).value;
    var ix :| 0 <= ix < |chapters| && chapters[ix] == x;
    assert lowest(chapters[ix]);
    k := FirstWhereIndex(chapters, lowest);
  }

  /** The search lands on a chapter of the same order as the reference chapter. */
  lemma SearchHitsReferenceOrder(chapters: seq<ScenarioChapter>, done: seq<int>, k: int)
    requires IsCurrent(chapters, done, k)
    ensures FirstWhere(SortBy(chapters, ChapterOrder), Pending(done)).Some?
    ensures FirstWhere(SortBy(chapters, ChapterOrder), Pending(done)).value.order == chapters[k].order
  {
    var sorted := SortBy(chapters, ChapterOrder);
    SortBySorted(chapters, ChapterOrder);
    var l := IndexIn(sorted, chapters[k]);
    assert Pending(done)(sorted[l]);
    SearchFindsLowestOrder(chapters, done);
    FirstWhereLowest(sorted, ChapterOrder, Pending(done));
  }

  /** The search agrees with the reference definition: it returns exactly the chapter that the
      definition picks. Ties in `order` go to the chapter earlier in the list because the sort
      is stable. */
  lemma CurrentChapterIsReference(chapters: seq<ScenarioChapter>, done: seq<int>, k: int)
    requires IsCurrent(chapters, done, k)
    ensures CurrentChapter(chapters, done) == Ok(chapters[k])
  {
    var sorted := SortBy(chapters, ChapterOrder);
    var m := chapters[k].order;
    SearchHitsReferenceOrder(chapters, done, k);
    assert KeyIs(ChapterOrder, m)(FirstWhere(sorted, Pending(done)).value);
    FirstWhereSurvivesFilter(sorted, Pending(done), KeyIs(ChapterOrder, m));
    SortByStable(chapters, ChapterOrder, m);
    FirstWhereFilterAt(chapters, KeyIs(ChapterOrder, m), Pending(done), k);
    assert FirstWhere(sorted, Pending(done)) == Some(chapters[k]);
  }

  /** A chapter is found exactly when some chapter is still pending; "All chapters completed"
      exactly when there are chapters and every one of them has a completion. */
  lemma CurrentChapterFoundIff(chapters: seq<ScenarioChapter>, done: seq<int>)
    ensures CurrentChapter(chapters, done).Ok? <==> exists i :: 0 <= i < |chapters| && chapters[i].id !in done
    ensures CurrentChapter(chapters, done) == Err(AllChaptersCompleted) <==>
      chapters != [] && forall i :: 0 <= i < |chapters| ==> chapters[i].id in done
  {
    if i :| 0 <= i < |chapters| && chapters[i].id !in done {
      var k := LowestPendingExists(chapters, done, i);
      CurrentChapterIsReference(chapters, done, k);
    }
  }
}
