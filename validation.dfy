/** The course validator as a function of the upstream answers: for each
    accumulated course in order it fetches the lesson catalog, appends the
    report lines of the faulty lessons and counts the course as right or
    wrong; the first failing fetch ends validation. */
module Validation {
  import opened Payload
  import opened CourseCheck

  /** What validating a run of courses produces: the report lines, the
      right and wrong counts, the requests issued and how it ended. */
  datatype Tally = Tally(lines: seq<string>, right: nat, wrong: nat, requests: seq<Request>, outcome: Outcome)

  /** One stretch of validation followed by another. */
  function TallyThen(a: Tally, b: Tally): Tally
  {
    Tally(a.lines + b.lines, a.right + b.right, a.wrong + b.wrong, a.requests + b.requests, b.outcome)
  }

  /** Validating one course whose catalog arrived. */
  function Checked(course: Course, catalog: seq<Lesson>): Tally
  {
    var right := IsRight(catalog);
    Tally(WrongLines(course, catalog), if right then 1 else 0, if right then 0 else 1,
          [CourseDetail(course.courseId)], Pass)
  }

  /** Validating one course: fetch its detail; a failure ends validation. */
  function ValidateOne(api: Api, course: Course): Tally
  {
    match api.courseDetail(course.courseId)
    case Failed(e) => Tally([], 0, 0, [CourseDetail(course.courseId)], Fail(e))
    case Ok(catalog) => Checked(course, catalog)
  }

  /** Validating the accumulated courses one at a time, in order. */
  function Validate(api: Api, courses: seq<Course>): Tally
  {
    if courses == [] then Tally([], 0, 0, [], Pass)
    else
      var first := ValidateOne(api, courses[0]);
      if first.outcome.Fail? then first else TallyThen(first, Validate(api, courses[1..]))
  }

  /** Joining three stretches of validation does not depend on grouping. */
  lemma TallyThenAssoc(x: Tally, y: Tally, z: Tally)
    ensures TallyThen(x, TallyThen(y, z)) == TallyThen(TallyThen(x, y), z)
  {
  }

  /** Validating two runs of courses one after the other: a failure in the
      first run ends validation there, otherwise the second run follows. */
  lemma {:induction false} ValidateAppend(api: Api, a: seq<Course>, b: seq<Course>)
    ensures Validate(api, a + b)
      == if Validate(api, a).outcome.Fail? then Validate(api, a) else TallyThen(Validate(api, a), Validate(api, b))
  {
    if a == [] {
      assert a + b == b;
    } else {
      var first := ValidateOne(api, a[0]);
      assert (a + b)[0] == a[0];
      assert (a + b)[1..] == a[1..] + b;
      ValidateAppend(api, a[1..], b);
      if !first.outcome.Fail? {
        var rest := Validate(api, a[1..]);
        assert Validate(api, a) == TallyThen(first, rest);
        assert Validate(api, a + b) == TallyThen(first, Validate(api, a[1..] + b));
        if rest.outcome.Pass? {
          TallyThenAssoc(first, rest, Validate(api, b));
        }
      }
    }
  }

  /** One more course: validating `courses[..i + 1]` is validating
      `courses[..i]` and then, if that passed, course `i`. */
  lemma ValidateStep(api: Api, courses: seq<Course>, i: nat)
    requires i < |courses|
    ensures Validate(api, courses[..i + 1])
      == if Validate(api, courses[..i]).outcome.Fail? then Validate(api, courses[..i])
         else TallyThen(Validate(api, courses[..i]), ValidateOne(api, courses[i]))
  {
    assert courses[..i + 1] == courses[..i] + [courses[i]];
    ValidateAppend(api, courses[..i], [courses[i]]);
    var one := ValidateOne(api, courses[i]);
    assert [courses[i]][1..] == [];
    if !one.outcome.Fail? {
      assert one.lines + [] == one.lines;
      assert one.requests + [] == one.requests;
    }
  }

  /** Once validation of a prefix fails, no later course is fetched or
      counted: the whole run is the run of that prefix. */
  lemma ValidateStopsAtFailure(api: Api, courses: seq<Course>, i: nat)
    requires i <= |courses| && Validate(api, courses[..i]).outcome.Fail?
    ensures Validate(api, courses) == Validate(api, courses[..i])
  {
    assert courses == courses[..i] + courses[i..];
    ValidateAppend(api, courses[..i], courses[i..]);
  }

  /** Each validated course is counted once, as right or as wrong, and the
      courses are fetched in order, one request each. A run that fails at
      course `k` has fetched courses 0..k and counted courses 0..k-1. */
  lemma {:induction false} ValidateCounts(api: Api, courses: seq<Course>)
    ensures var t := Validate(api, courses);
      && |t.requests| <= |courses|
      && (forall j :: 0 <= j < |t.requests| ==> t.requests[j] == CourseDetail(courses[j].courseId))
      && t.right + t.wrong == (if t.outcome.Pass? then |courses| else |t.requests| - 1)
      && (t.outcome.Pass? ==> |t.requests| == |courses|)
      && (t.outcome.Fail? ==> api.courseDetail(courses[|t.requests| - 1].courseId) == Failed(t.outcome.error))
  {
    if courses != [] {
      ValidateCounts(api, courses[1..]);
      var t := Validate(api, courses);
      var first := ValidateOne(api, courses[0]);
      if !first.outcome.Fail? {
        assert forall j :: 1 <= j < |t.requests| ==> t.requests[j] == Validate(api, courses[1..]).requests[j - 1];
      }
    }
  }

  /** A course is counted right exactly when its catalog has no faulty
      lesson, and then it adds no report line. */
  lemma CheckedIsRight(course: Course, catalog: seq<Lesson>)
    ensures Checked(course, catalog).right == 1 <==> IsRight(catalog)
    ensures Checked(course, catalog).right + Checked(course, catalog).wrong == 1
    ensures Checked(course, catalog).lines == [] <==> IsRight(catalog)
  {
    NoLinesIffRight(course, catalog);
  }

  /** The number of courses counted right: those whose catalog has no
      faulty lesson. */
  function RightCount(api: Api, courses: seq<Course>): nat
  {
    if courses == [] then 0
    else
      var answer := api.courseDetail(courses[0].courseId);
      (if answer.Ok? && IsRight(answer.body) then 1 else 0) + RightCount(api, courses[1..])
  }

  /** A validation that passes counts as right exactly the courses whose
      catalog has no faulty lesson, and every other course as wrong. */
  lemma {:induction false} ValidateRightCount(api: Api, courses: seq<Course>)
    requires Validate(api, courses).outcome == Pass
    ensures Validate(api, courses).right == RightCount(api, courses)
    ensures Validate(api, courses).wrong == |courses| - RightCount(api, courses)
  {
    if courses != [] {
      ValidateRightCount(api, courses[1..]);
    }
  }

  /** `line` names `course` and one faulty lesson of the catalog the
      upstream gave for it. */
  predicate NamesFaultyLesson(api: Api, course: Course, line: string)
  {
    var answer := api.courseDetail(course.courseId);
    && answer.Ok?
    && exists i :: 0 <= i < |answer.body| && Faulty(answer.body[i])
         && ParseWrongLine(line)
            == Some(LineEntry(course.courseName, course.courseId, answer.body[i].lessonName, answer.body[i].lessonId))
  }

  /** Every report line is a line of some validated course whose catalog
      arrived. */
  lemma {:induction false} LineOrigin(api: Api, courses: seq<Course>, n: nat)
    requires n < |Validate(api, courses).lines|
    ensures exists k :: (0 <= k < |courses| && api.courseDetail(courses[k].courseId).Ok?
      && Validate(api, courses).lines[n] in WrongLines(courses[k], api.courseDetail(courses[k].courseId).body))
  {
    var first := ValidateOne(api, courses[0]);
    var lines := Validate(api, courses).lines;
    if n < |first.lines| {
      assert lines[n] == first.lines[n];
    } else {
      var rest := courses[1..];
      var later := Validate(api, rest);
      assert lines == first.lines + later.lines;
      LineOrigin(api, rest, n - |first.lines|);
      var k :| 0 <= k < |rest| && api.courseDetail(rest[k].courseId).Ok?
        && later.lines[n - |first.lines|] in WrongLines(rest[k], api.courseDetail(rest[k].courseId).body);
      assert rest[k] == courses[k + 1];
    }
  }

  /** When no course name holds a tab, every report line reads back as one
      validated course and one faulty lesson of its catalog. */
  lemma ReportLinesNameFaultyLessons(api: Api, courses: seq<Course>, n: nat)
    requires forall k :: 0 <= k < |courses| ==> '\t' !in courses[k].courseName
    requires n < |Validate(api, courses).lines|
    ensures exists k :: 0 <= k < |courses| && NamesFaultyLesson(api, courses[k], Validate(api, courses).lines[n])
  {
    var line := Validate(api, courses).lines[n];
    LineOrigin(api, courses, n);
    var k :| 0 <= k < |courses| && api.courseDetail(courses[k].courseId).Ok?
      && line in WrongLines(courses[k], api.courseDetail(courses[k].courseId).body);
    var catalog := api.courseDetail(courses[k].courseId).body;
    var m :| 0 <= m < |WrongLines(courses[k], catalog)| && WrongLines(courses[k], catalog)[m] == line;
    LinesNameFaultyLessons(courses[k], catalog, m);
    assert NamesFaultyLesson(api, courses[k], line);
  }
}
