/** The crawler as the program runs it: one session owns the accumulated
    course list, the report lines and the two counters, and each stage
    updates them step by step.  Every method is proved against the
    function of the upstream answers that specifies its stage. */
module Crawler {
  import opened Payload
  import opened TabListing
  import opened ClassCrawl
  import opened CourseCheck
  import opened Validation
  import opened Pipeline

  class Session {
    /** Every course discovered so far, in discovery order. */
    var allCourse: seq<Course>
    /** One report line per faulty lesson validated so far. */
    var allWrong: seq<string>
    var rightCount: nat
    var wrongCount: nat
    /** The requests issued so far, in order. */
    ghost var requests: seq<Request>

    constructor ()
      ensures allCourse == [] && allWrong == [] && rightCount == 0 && wrongCount == 0
      ensures requests == []
    {
      allCourse, allWrong, rightCount, wrongCount := [], [], 0, 0;
      requests := [];
    }

    /** The pass over the tab listing: returns the class ids of the type-4
        entries and appends the courses of the type-3 and type-4 entries. */
    method ListTabs(entries: seq<TabEntry>) returns (classIds: seq<int>)
      modifies this`allCourse
      ensures classIds == ClassIds(entries)
      ensures allCourse == old(allCourse) + Seeded(entries)
    {
      classIds := [];
      for i := 0 to |entries|
        invariant classIds == ClassIds(entries[..i])
        invariant allCourse == old(allCourse) + Seeded(entries[..i])
      {
        var model := entries[i];
        assert entries[..i + 1][..i] == entries[..i];
        if model.entryType == 4 {
          classIds := classIds + [model.classId];
        }
        if model.entryType == 3 || model.entryType == 4 {
          for j := 0 to |model.courses|
            invariant allCourse == old(allCourse) + Seeded(entries[..i]) + model.courses[..j]
          {
            assert model.courses[..j + 1] == model.courses[..j] + [model.courses[j]];
            allCourse := allCourse + [model.courses[j]];
          }
          assert model.courses[..|model.courses|] == model.courses;
        }
      }
      assert entries[..|entries|] == entries;
    }

    /** The class paginator: requests pages 1, 2, ... of class `classId`,
        appending each non-empty page's courses stamped with `classId`,
        until an empty page (pass) or a failure (passed up). */
    method CrawlClass(api: Api, classId: int) returns (outcome: Outcome)
      modifies this`allCourse, this`requests
      ensures var run := Paginate(api, classId);
        && outcome == run.outcome
        && allCourse == old(allCourse) + run.found
        && requests == old(requests) + run.requests
    {
      var page := 1;
      while true
        invariant 1 <= page <= |api.classPages(classId)| + 1
        invariant var run := Paginate(api, classId);
          var rest := PagesFrom(api, classId, page);
          && old(allCourse) + run.found == allCourse + rest.found
          && old(requests) + run.requests == requests + rest.requests
          && run.outcome == rest.outcome
        decreases |api.classPages(classId)| + 1 - page
      {
        requests := requests + [CourseForClass(classId, page)];
        var answer := ClassPage(api, classId, page);
        if answer.Failed? {
          return Fail(answer.error);
        }
        var datas := answer.body;
        if |datas| == 0 {
          return Pass;
        }
        ghost var before := allCourse;
        for i := 0 to |datas|
          invariant allCourse == before + Stamp(datas[..i], classId)
          modifies this`allCourse
        {
          assert Stamp(datas[..i + 1], classId) == Stamp(datas[..i], classId) + [datas[i].(classId := Some(classId))];
          var model := datas[i].(classId := Some(classId));
          allCourse := allCourse + [model];
        }
        assert datas[..|datas|] == datas;
        ghost var next := PagesFrom(api, classId, page + 1);
        assert PagesFrom(api, classId, page).requests == [CourseForClass(classId, page)] + next.requests;
        assert PagesFrom(api, classId, page).found == Stamp(datas, classId) + next.found;
        page := page + 1;
      }
    }

    /** The class walk from position `index` of `classIds` on: runs the
        paginator of that class, stops at a failure and passes it up,
        otherwise goes on with the next position. */
    method CrawlClasses(api: Api, classIds: seq<int>, index: nat) returns (outcome: Outcome)
      requires index <= |classIds|
      modifies this`allCourse, this`requests
      ensures var walk := Walk(api, classIds[index..]);
        && outcome == walk.outcome
        && allCourse == old(allCourse) + walk.found
        && requests == old(requests) + walk.requests
      decreases |classIds| - index
    {
      if index == |classIds| {
        assert classIds[index..] == [];
        return Pass;
      }
      var rest := classIds[index..];
      assert rest[0] == classIds[index] && rest[1..] == classIds[index + 1..];
      var err := CrawlClass(api, classIds[index]);
      if err.Fail? {
        return err;
      }
      outcome := CrawlClasses(api, classIds, index + 1);
    }

    /** Validation of one course whose catalog arrived: one report line
        per faulty lesson in catalog order, then one of the two counters
        goes up. */
    method CheckCourse(course: Course, catalog: seq<Lesson>)
      modifies this`allWrong, this`rightCount, this`wrongCount
      ensures allWrong == old(allWrong) + WrongLines(course, catalog)
      ensures IsRight(catalog) ==> rightCount == old(rightCount) + 1 && wrongCount == old(wrongCount)
      ensures !IsRight(catalog) ==> rightCount == old(rightCount) && wrongCount == old(wrongCount) + 1
    {
      var finish := true;
      for i := 0 to |catalog|
        invariant allWrong == old(allWrong) + WrongLines(course, catalog[..i])
        invariant finish == IsRight(catalog[..i])
        invariant rightCount == old(rightCount) && wrongCount == old(wrongCount)
      {
        var lesson := catalog[i];
        assert catalog[..i + 1][..i] == catalog[..i];
        if Faulty(lesson) {
          allWrong := allWrong + [WrongLine(course, lesson)];
          finish := false;
        }
      }
      assert catalog[..|catalog|] == catalog;
      if finish {
        rightCount := rightCount + 1;
      } else {
        wrongCount := wrongCount + 1;
      }
    }

    /** Validation of `courses` from position `index` on: fetch the
        detail of that course; a failure ends validation and is passed up,
        otherwise the course is checked and validation goes on with the
        next position. */
    method ValidateCourses(api: Api, courses: seq<Course>, index: nat) returns (outcome: Outcome)
      requires index <= |courses|
      modifies this`allWrong, this`rightCount, this`wrongCount, this`requests
      ensures var tally := Validate(api, courses[index..]);
        && outcome == tally.outcome
        && allWrong == old(allWrong) + tally.lines
        && rightCount == old(rightCount) + tally.right
        && wrongCount == old(wrongCount) + tally.wrong
        && requests == old(requests) + tally.requests
      decreases |courses| - index
    {
      if index == |courses| {
        assert courses[index..] == [];
        return Pass;
      }
      var rest := courses[index..];
      assert rest[0] == courses[index] && rest[1..] == courses[index + 1..];
      var course := courses[index];
      requests := requests + [CourseDetail(course.courseId)];
      var answer := api.courseDetail(course.courseId);
      if answer.Failed? {
        return Fail(answer.error);
      }
      CheckCourse(course, answer.body);
      outcome := ValidateCourses(api, courses, index + 1);
    }
  }

  /** One run of the program: a fresh session, the tab listing, the class
      walk, validation, and the report only when every stage succeeded. */
  method Start(api: Api) returns (report: Option<Report>, ghost requests: seq<Request>)
    ensures report == Run(api).report
    ensures requests == Run(api).requests
  {
    var session := new Session();
    session.requests := session.requests + [TabPage];
    match api.tabPage {
      case Failed(_) =>
        report := None;
      case Ok(entries) =>
        var classIds := session.ListTabs(entries);
        assert session.allCourse == Seeded(entries) && session.requests == [TabPage];
        var walked := session.CrawlClasses(api, classIds, 0);
        assert classIds[0..] == classIds;
        assert session.allCourse == Seeded(entries) + Walk(api, ClassIds(entries)).found;
        assert session.requests == [TabPage] + Walk(api, ClassIds(entries)).requests;
        if walked.Fail? {
          report := None;
        } else {
          var courses := session.allCourse;
          var checked := session.ValidateCourses(api, courses, 0);
          assert courses[0..] == courses;
          ghost var tally := Validate(api, courses);
          assert session.allWrong == tally.lines && session.rightCount == tally.right && session.wrongCount == tally.wrong;
          if checked.Fail? {
            report := None;
          } else {
            report := Some(Report(session.allWrong, session.rightCount, session.wrongCount));
          }
        }
    }
    requests := session.requests;
  }
}
