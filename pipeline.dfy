/** The whole run as a function of the upstream answers: the tab listing,
    then the class walk, then validation of every accumulated course, and
    the report only when all three succeed. */
module Pipeline {
  import opened Payload
  import opened TabListing
  import opened ClassCrawl
  import opened CourseCheck
  import opened Validation

  /** What a successful run reports: the lines written to the report file
      and the two counts it prints. */
  datatype Report = Report(wrongLines: seq<string>, rightCount: nat, wrongCount: nat)

  /** A run: the requests issued, in order, the courses accumulated, and
      the report, present only when the run succeeded. */
  datatype RunResult = RunResult(requests: seq<Request>, courses: seq<Course>, report: Option<Report>)

  /** One run against the upstream `api`: a failed tab listing ends it; a
      failing class walk ends it after the listing has seeded its courses;
      otherwise every accumulated course is validated and the report exists
      only if no detail fetch failed. */
  function Run(api: Api): RunResult
  {
    match api.tabPage
    case Failed(_) => RunResult([TabPage], [], None)
    case Ok(entries) =>
      var walk := Walk(api, ClassIds(entries));
      var courses := Seeded(entries) + walk.found;
      if walk.outcome.Fail? then RunResult([TabPage] + walk.requests, courses, None)
      else
        var tally := Validate(api, courses);
        RunResult([TabPage] + walk.requests + tally.requests, courses,
                  if tally.outcome.Pass? then Some(Report(tally.lines, tally.right, tally.wrong)) else None)
  }

  /** A failing tab listing ends the run before any class or course is
      requested, and nothing is reported. */
  lemma TabFailureEndsRun(api: Api)
    requires api.tabPage.Failed?
    ensures Run(api).requests == [TabPage] && Run(api).report == None
  {
  }

  /** The detail of every course arrives. */
  predicate EveryDetailArrives(api: Api, courses: seq<Course>)
  {
    forall k :: 0 <= k < |courses| ==> api.courseDetail(courses[k].courseId).Ok?
  }

  /** The report exists exactly when the tab listing arrived, every class
      paginator passed and every course detail arrived. */
  lemma ReportOnlyOnFullSuccess(api: Api)
    ensures Run(api).report.Some? <==>
      && api.tabPage.Ok?
      && EveryClassPasses(api, ClassIds(api.tabPage.body))
      && EveryDetailArrives(api, Run(api).courses)
  {
    if api.tabPage.Ok? {
      var entries := api.tabPage.body;
      var walk := Walk(api, ClassIds(entries));
      var courses := Seeded(entries) + walk.found;
      assert Run(api).courses == courses;
      WalkPassesIffAllPass(api, ClassIds(entries));
      if walk.outcome.Pass? {
        assert Run(api).report.Some? <==> Validate(api, courses).outcome.Pass?;
        DetailsArrive(api, courses);
      } else {
        assert Run(api).report == None;
      }
    } else {
      TabFailureEndsRun(api);
    }
  }

  /** Validation passes exactly when every course's detail arrives. */
  lemma {:induction false} DetailsArrive(api: Api, courses: seq<Course>)
    ensures Validate(api, courses).outcome.Pass? <==> EveryDetailArrives(api, courses)
  {
    if courses != [] {
      DetailsArrive(api, courses[1..]);
      assert forall k :: 1 <= k < |courses| ==> courses[k] == courses[1..][k - 1];
    }
  }

  /** Once the class walk has passed, the accumulated courses are the
      seeded courses of the tab listing followed by every course of the
      pages each class fetched before its first empty page, without
      deduplication. */
  lemma CourseCount(api: Api)
    requires api.tabPage.Ok? && Walk(api, ClassIds(api.tabPage.body)).outcome == Pass
    ensures |Run(api).courses| == |Seeded(api.tabPage.body)| + PagedCount(api, ClassIds(api.tabPage.body))
  {
    WalkFoundCount(api, ClassIds(api.tabPage.body));
  }

  /** A successful run counts each accumulated course once, as right or as
      wrong, and counts right exactly the courses whose catalog has no
      faulty lesson. */
  lemma ReportCounts(api: Api)
    requires Run(api).report.Some?
    ensures Run(api).report.value.rightCount + Run(api).report.value.wrongCount == |Run(api).courses|
    ensures Run(api).report.value.rightCount == RightCount(api, Run(api).courses)
  {
    ValidateCounts(api, Run(api).courses);
    ValidateRightCount(api, Run(api).courses);
  }

  /** The requests of a successful run: the tab page, the class pages of
      the walk and one detail request per accumulated course, in course
      order. */
  lemma SuccessfulRunRequests(api: Api)
    requires Run(api).report.Some?
    ensures var entries := api.tabPage.body;
      var classRequests := Walk(api, ClassIds(entries)).requests;
      && Run(api).requests[..1 + |classRequests|] == [TabPage] + classRequests
      && |Run(api).requests| == 1 + |classRequests| + |Run(api).courses|
      && forall k :: 0 <= k < |Run(api).courses| ==>
           Run(api).requests[1 + |classRequests| + k] == CourseDetail(Run(api).courses[k].courseId)
  {
    ValidateCounts(api, Run(api).courses);
  }

  /** Every course a run accumulates comes either from the tab listing or
      from a class page, stamped there with a class id of the listing. */
  lemma CourseOrigins(api: Api, k: nat)
    requires api.tabPage.Ok? && k < |Run(api).courses|
    ensures var entries := api.tabPage.body;
      || (k < |Seeded(entries)| && Run(api).courses[k] == Seeded(entries)[k])
      || (Run(api).courses[k].classId.Some? && Run(api).courses[k].classId.value in ClassIds(entries))
  {
    var entries := api.tabPage.body;
    if k >= |Seeded(entries)| {
      WalkStampsClasses(api, ClassIds(entries), k - |Seeded(entries)|);
    }
  }

  /** When no course name holds a tab, every line of a report reads back as
      one accumulated course and one faulty lesson of its catalog. */
  lemma ReportNamesFaultyLessons(api: Api, n: nat)
    requires Run(api).report.Some?
    requires forall k :: 0 <= k < |Run(api).courses| ==> '\t' !in Run(api).courses[k].courseName
    requires n < |Run(api).report.value.wrongLines|
    ensures exists k :: 0 <= k < |Run(api).courses| && NamesFaultyLesson(api, Run(api).courses[k], Run(api).report.value.wrongLines[n])
  {
    ReportLinesNameFaultyLessons(api, Run(api).courses, n);
  }
}
