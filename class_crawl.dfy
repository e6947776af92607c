/** The class paginator and the class walker, as functions of the upstream
    answers: what they append to the course list, which requests they
    issue, and how they end. */
module ClassCrawl {
  import opened Payload

  /** What a stretch of the crawl contributes: the courses it appends, the
      requests it issues, in order, and how it ends. */
  datatype Crawl = Crawl(found: seq<Course>, requests: seq<Request>, outcome: Outcome)

  /** One stretch of the crawl followed by another. */
  function CrawlThen(a: Crawl, b: Crawl): Crawl
  {
    Crawl(a.found + b.found, a.requests + b.requests, b.outcome)
  }

  /** The courses of a class page, each stamped with the queried class. */
  function Stamp(courses: seq<Course>, classId: int): seq<Course>
  {
    seq(|courses|, k requires 0 <= k < |courses| => courses[k].(classId := Some(classId)))
  }

  /** The class paginator from page `page` on: fetch the page; on a failure
      stop and pass it up; on an empty page stop; otherwise append the
      page's courses stamped with `classId` and go on with the next page. */
  function PagesFrom(api: Api, classId: int, page: int): Crawl
    requires page >= 1
    decreases |api.classPages(classId)| + 1 - page
  {
    var request := CourseForClass(classId, page);
    var answer := ClassPage(api, classId, page);
    if answer.Failed? then Crawl([], [request], Fail(answer.error))
    else if answer.body == [] then Crawl([], [request], Pass)
    else CrawlThen(Crawl(Stamp(answer.body, classId), [request], Pass), PagesFrom(api, classId, page + 1))
  }

  /** The class paginator as the program starts it, at page 1. */
  function Paginate(api: Api, classId: int): Crawl
  {
    PagesFrom(api, classId, 1)
  }

  /** The courses of pages `from` up to but excluding `to`, concatenated. */
  function Bodies(api: Api, classId: int, from: int, to: int): seq<Course>
    decreases to - from
  {
    if from >= to then []
    else
      var answer := ClassPage(api, classId, from);
      (if answer.Ok? then answer.body else []) + Bodies(api, classId, from + 1, to)
  }

  lemma StampAppend(a: seq<Course>, b: seq<Course>, classId: int)
    ensures Stamp(a + b, classId) == Stamp(a, classId) + Stamp(b, classId)
  {
  }

  /** The paginator from page `page` requests pages `page`, `page + 1`, ...
      up to some last page; every page before the last answered a
      non-empty course list, the last one ends pagination, and the run
      ends as that last page says. The courses appended are those of the
      pages before the last, in page order, each stamped with the class. */
  lemma {:induction false} PagesFromShape(api: Api, classId: int, page: int)
    requires page >= 1
    ensures var run := PagesFrom(api, classId, page);
      var last := page + |run.requests| - 1;
      && |run.requests| >= 1
      && (forall j :: 0 <= j < |run.requests| ==> run.requests[j] == CourseForClass(classId, page + j))
      && (forall p :: page <= p < last ==> ClassPage(api, classId, p).Ok? && ClassPage(api, classId, p).body != [])
      && EndsPagination(ClassPage(api, classId, last))
      && run.outcome == (if ClassPage(api, classId, last).Failed? then Fail(ClassPage(api, classId, last).error) else Pass)
      && run.found == Stamp(Bodies(api, classId, page, last), classId)
    decreases |api.classPages(classId)| + 1 - page
  {
    var answer := ClassPage(api, classId, page);
    if answer.Ok? && answer.body != [] {
      PagesFromShape(api, classId, page + 1);
      var rest := PagesFrom(api, classId, page + 1);
      var last := page + 1 + |rest.requests| - 1;
      StampAppend(answer.body, Bodies(api, classId, page + 1, last), classId);
    }
  }

  /** The walk over the class ids: run the paginator for each id in order;
      the first failing class ends the walk and its failure is passed up. */
  function Walk(api: Api, classIds: seq<int>): Crawl
  {
    if classIds == [] then Crawl([], [], Pass)
    else
      var first := Paginate(api, classIds[0]);
      if first.outcome.Fail? then first else CrawlThen(first, Walk(api, classIds[1..]))
  }

  /** Joining three stretches of crawling does not depend on grouping. */
  lemma CrawlThenAssoc(x: Crawl, y: Crawl, z: Crawl)
    ensures CrawlThen(x, CrawlThen(y, z)) == CrawlThen(CrawlThen(x, y), z)
  {
  }

  /** Walking two lists of ids one after the other: a failure in the first
      list ends the walk there, otherwise the second list is walked
      next. */
  lemma {:induction false} WalkAppend(api: Api, a: seq<int>, b: seq<int>)
    ensures Walk(api, a + b)
      == if Walk(api, a).outcome.Fail? then Walk(api, a) else CrawlThen(Walk(api, a), Walk(api, b))
  {
    if a == [] {
      assert a + b == b;
    } else {
      var first := Paginate(api, a[0]);
      assert (a + b)[0] == a[0];
      assert (a + b)[1..] == a[1..] + b;
      WalkAppend(api, a[1..], b);
      if !first.outcome.Fail? {
        var rest := Walk(api, a[1..]);
        assert Walk(api, a) == CrawlThen(first, rest);
        assert Walk(api, a + b) == CrawlThen(first, Walk(api, a[1..] + b));
        if rest.outcome.Pass? {
          CrawlThenAssoc(first, rest, Walk(api, b));
        }
      }
    }
  }

  /** One more class id: the walk of `classIds[..i + 1]` is the walk of
      `classIds[..i]` followed, if that passed, by the paginator of class
      `classIds[i]`. */
  lemma WalkStep(api: Api, classIds: seq<int>, i: nat)
    requires i < |classIds|
    ensures Walk(api, classIds[..i + 1])
      == if Walk(api, classIds[..i]).outcome.Fail? then Walk(api, classIds[..i])
         else CrawlThen(Walk(api, classIds[..i]), Paginate(api, classIds[i]))
  {
    assert classIds[..i + 1] == classIds[..i] + [classIds[i]];
    WalkAppend(api, classIds[..i], [classIds[i]]);
    var first := Paginate(api, classIds[i]);
    assert [classIds[i]][1..] == [];
    if !first.outcome.Fail? {
      assert first.found + [] == first.found;
      assert first.requests + [] == first.requests;
    }
  }

  /** Once a prefix of the ids fails, the classes after it are never
      visited: the whole walk is the walk of that prefix. */
  lemma WalkStopsAtFailure(api: Api, classIds: seq<int>, i: nat)
    requires i <= |classIds| && Walk(api, classIds[..i]).outcome.Fail?
    ensures Walk(api, classIds) == Walk(api, classIds[..i])
  {
    assert classIds == classIds[..i] + classIds[i..];
    WalkAppend(api, classIds[..i], classIds[i..]);
  }

  /** Every class's paginator, run on its own, passes. */
  predicate EveryClassPasses(api: Api, classIds: seq<int>)
  {
    forall i :: 0 <= i < |classIds| ==> Paginate(api, classIds[i]).outcome == Pass
  }

  /** The walk passes exactly when every class's paginator passes. */
  lemma {:induction false} WalkPassesIffAllPass(api: Api, classIds: seq<int>)
    ensures Walk(api, classIds).outcome == Pass <==> EveryClassPasses(api, classIds)
  {
    if classIds != [] {
      WalkPassesIffAllPass(api, classIds[1..]);
      PagesFromShape(api, classIds[0], 1);
      assert forall i :: 1 <= i < |classIds| ==> classIds[i] == classIds[1..][i - 1];
    }
  }

  /** Class `k` is where the walk stops: every class before it passed and
      its own paginator failed. */
  predicate FailsAt(api: Api, classIds: seq<int>, k: int)
  {
    0 <= k < |classIds| && Walk(api, classIds[..k]).outcome == Pass && Paginate(api, classIds[k]).outcome.Fail?
  }

  lemma {:induction false} SomeClassFails(api: Api, classIds: seq<int>)
    requires Walk(api, classIds).outcome.Fail?
    ensures exists k :: FailsAt(api, classIds, k)
  {
    var n := |classIds|;
    assert classIds[..n] == classIds;
    WalkStep(api, classIds, n - 1);
    if Walk(api, classIds[..n - 1]).outcome.Fail? {
      var init := classIds[..n - 1];
      SomeClassFails(api, init);
      var k :| FailsAt(api, init, k);
      assert init[..k] == classIds[..k];
      assert FailsAt(api, classIds, k);
    } else {
      assert FailsAt(api, classIds, n - 1);
    }
  }

  /** A failing walk stopped at some class `k`: every class before it
      passed, the walk is the passing walk of the classes before `k`
      followed by the paginator of class `k`, and it fails with that
      class's failure. No request is issued for a class after `k`. */
  lemma WalkFailsAtFirstFailure(api: Api, classIds: seq<int>)
    requires Walk(api, classIds).outcome.Fail?
    ensures exists k :: (FailsAt(api, classIds, k)
      && (forall j :: 0 <= j < k ==> Paginate(api, classIds[j]).outcome == Pass)
      && Paginate(api, classIds[k]).outcome == Walk(api, classIds).outcome
      && Walk(api, classIds) == CrawlThen(Walk(api, classIds[..k]), Paginate(api, classIds[k])))
  {
    SomeClassFails(api, classIds);
    var k :| FailsAt(api, classIds, k);
    WalkPassesIffAllPass(api, classIds[..k]);
    WalkStep(api, classIds, k);
    WalkStopsAtFailure(api, classIds, k + 1);
    assert forall j :: 0 <= j < k ==> classIds[j] == classIds[..k][j];
  }

  /** The number of courses the paginator of each class appends: the sizes
      of the pages each class fetched before its first empty page, summed
      over the classes. */
  function PagedCount(api: Api, classIds: seq<int>): nat
  {
    if classIds == [] then 0
    else
      var c := classIds[0];
      |Bodies(api, c, 1, |Paginate(api, c).requests|)| + PagedCount(api, classIds[1..])
  }

  /** A walk that passes appends exactly the courses of the pages each
      class fetched before its first empty page, with no deduplication. */
  lemma {:induction false} WalkFoundCount(api: Api, classIds: seq<int>)
    requires Walk(api, classIds).outcome == Pass
    ensures |Walk(api, classIds).found| == PagedCount(api, classIds)
  {
    if classIds != [] {
      var c := classIds[0];
      PagesFromShape(api, c, 1);
      if Paginate(api, c).outcome.Pass? {
        WalkFoundCount(api, classIds[1..]);
      }
    }
  }

  /** Every course the walk appends is stamped with a class id it
      walked. */
  lemma {:induction false} WalkStampsClasses(api: Api, classIds: seq<int>, k: nat)
    requires k < |Walk(api, classIds).found|
    ensures Walk(api, classIds).found[k].classId.Some?
    ensures Walk(api, classIds).found[k].classId.value in classIds
  {
    var c := classIds[0];
    var first := Paginate(api, c);
    PagesFromShape(api, c, 1);
    if k >= |first.found| {
      WalkStampsClasses(api, classIds[1..], k - |first.found|);
    }
  }
}
