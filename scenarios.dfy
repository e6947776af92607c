/** End-to-end runs against small fixed upstreams: one type-4 tab entry for
    class 6, whose first page lists course 128 "X" and whose second page is
    empty; course 128 has one lesson. */
module Scenarios {
  import opened Payload
  import opened Numerals
  import opened CourseCheck
  import opened TabListing
  import opened ClassCrawl
  import opened Validation
  import opened Pipeline

  const COURSE := Course(128, "X", None)

  function ScenarioApi(videoSize: int): Api
  {
    Api(Ok([TabEntry(4, 6, [])]),
        c => if c == 6 then [Ok([COURSE])] else [],
        id => if id == 128 then Ok([Lesson(7, "LessonName", videoSize, 200)]) else Failed("no such course"))
  }

  /** The class walk requests pages 1 and 2 of class 6 and stamps the
      course of page 1 with class 6. */
  lemma ScenarioWalk(videoSize: int)
    ensures ClassIds(ScenarioApi(videoSize).tabPage.body) == [6]
    ensures Walk(ScenarioApi(videoSize), [6])
      == Crawl([COURSE.(classId := Some(6))], [CourseForClass(6, 1), CourseForClass(6, 2)], Pass)
  {
  }

  /** Lesson 7 of course 128, with the given video size. */
  function ScenarioLesson(videoSize: int): Lesson
  {
    Lesson(7, "LessonName", videoSize, 200)
  }

  /** The run accumulates exactly course 128, stamped with class 6, and
      its class walk passes. */
  lemma ScenarioCourses(videoSize: int)
    ensures Run(ScenarioApi(videoSize)).courses == [COURSE.(classId := Some(6))]
    ensures Walk(ScenarioApi(videoSize), ClassIds(ScenarioApi(videoSize).tabPage.body)).outcome == Pass
  {
    ScenarioWalk(videoSize);
  }

  /** Validating the single course is checking its one-lesson catalog. */
  lemma ScenarioValidate(videoSize: int)
    ensures Validate(ScenarioApi(videoSize), [COURSE.(classId := Some(6))])
      == Checked(COURSE.(classId := Some(6)), [ScenarioLesson(videoSize)])
  {
  }

  /** The report line of the lesson without video. */
  lemma ScenarioLine(videoSize: int)
    requires videoSize <= 0
    ensures WrongLines(COURSE.(classId := Some(6)), [ScenarioLesson(videoSize)]) == ["X(128)\tLessonName(7)"]
  {
    assert Decimal(128) == "128" by {
      assert NatDigits(1) == "1";
      assert NatDigits(12) == "12";
    }
    assert Decimal(7) == "7";
    assert [ScenarioLesson(videoSize)][..0] == [];
    assert WrongLine(COURSE.(classId := Some(6)), ScenarioLesson(videoSize)) == "X(128)\tLessonName(7)";
  }

  /** A complete lesson: nothing reported, one right course, and the
      requests are the tab page, pages 1 and 2 of class 6 and the detail of
      course 128. */
  lemma ScenarioComplete(videoSize: int)
    requires videoSize > 0
    ensures Run(ScenarioApi(videoSize)).report == Some(Report([], 1, 0))
    ensures Run(ScenarioApi(videoSize)).requests
      == [TabPage, CourseForClass(6, 1), CourseForClass(6, 2), CourseDetail(128)]
  {
    var stamped := COURSE.(classId := Some(6));
    ScenarioWalk(videoSize);
    ScenarioCourses(videoSize);
    ScenarioValidate(videoSize);
    assert IsRight([ScenarioLesson(videoSize)]);
    assert WrongLines(stamped, [ScenarioLesson(videoSize)]) == [] by {
      assert [ScenarioLesson(videoSize)][..0] == [];
    }
  }

  /** A lesson with no video: one report line naming course and lesson,
      one wrong course. */
  lemma ScenarioMissingVideo(videoSize: int)
    requires videoSize <= 0
    ensures Run(ScenarioApi(videoSize)).report == Some(Report(["X(128)\tLessonName(7)"], 0, 1))
  {
    ScenarioCourses(videoSize);
    ScenarioValidate(videoSize);
    ScenarioLine(videoSize);
    assert !IsRight([ScenarioLesson(videoSize)]) by {
      assert Faulty([ScenarioLesson(videoSize)][0]);
    }
  }
}
