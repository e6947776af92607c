/** The completeness check applied to one course's lesson catalog, and the
    report line written for every lesson that fails it. */
module CourseCheck {
  import opened Payload
  import opened Numerals

  /** A lesson is faulty when its video size or its length is not
      positive. */
  predicate Faulty(l: Lesson)
  {
    l.videoSize <= 0 || l.length <= 0
  }

  /** A course is right when no lesson of its catalog is faulty; an empty
      catalog is right. */
  predicate IsRight(catalog: seq<Lesson>)
  {
    forall k :: 0 <= k < |catalog| ==> !Faulty(catalog[k])
  }

  /** The report line for a faulty lesson:
      courseName(courseId), a tab, lessonName(lessonId). */
  function WrongLine(course: Course, lesson: Lesson): string
  {
    course.courseName + "(" + Decimal(course.courseId) + ")" + "\t"
      + lesson.lessonName + "(" + Decimal(lesson.lessonId) + ")"
  }

  /** The report lines of a course: one per faulty lesson, in catalog
      order. */
  function WrongLines(course: Course, catalog: seq<Lesson>): seq<string>
  {
    if catalog == [] then []
    else
      var last := catalog[|catalog| - 1];
      WrongLines(course, catalog[..|catalog| - 1])
        + (if Faulty(last) then [WrongLine(course, last)] else [])
  }

  /** The lines of a catalog prefix are a prefix of the catalog's lines. */
  lemma {:induction false} WrongLinesPrefix(course: Course, catalog: seq<Lesson>, i: nat)
    requires i <= |catalog|
    ensures WrongLines(course, catalog[..i]) <= WrongLines(course, catalog)
    decreases |catalog| - i
  {
    if i < |catalog| {
      WrongLinesPrefix(course, catalog, i + 1);
      assert catalog[..i + 1][..i] == catalog[..i];
    } else {
      assert catalog[..i] == catalog;
    }
  }

  /** A course produces no report line exactly when it is right. */
  lemma {:induction false} NoLinesIffRight(course: Course, catalog: seq<Lesson>)
    ensures WrongLines(course, catalog) == [] <==> IsRight(catalog)
  {
    if catalog != [] {
      var init := catalog[..|catalog| - 1];
      NoLinesIffRight(course, init);
      if IsRight(catalog) {
        assert IsRight(init) by {
          forall k | 0 <= k < |init| ensures !Faulty(init[k]) {
            assert init[k] == catalog[k];
          }
        }
      }
    }
  }

  /** Every faulty lesson has its line in the report, at the position
      given by the number of lines of the lessons before it. */
  lemma LineOfFaultyLesson(course: Course, catalog: seq<Lesson>, i: nat)
    requires i < |catalog| && Faulty(catalog[i])
    ensures var k := |WrongLines(course, catalog[..i])|;
      k < |WrongLines(course, catalog)| && WrongLines(course, catalog)[k] == WrongLine(course, catalog[i])
  {
    WrongLinesPrefix(course, catalog, i + 1);
    assert catalog[..i + 1][..i] == catalog[..i];
  }

  /** The faulty lessons of a catalog, in catalog order. */
  function Faults(catalog: seq<Lesson>): seq<Lesson>
  {
    if catalog == [] then []
    else
      var last := catalog[|catalog| - 1];
      Faults(catalog[..|catalog| - 1]) + (if Faulty(last) then [last] else [])
  }

  /** Report line `k` of a course is the line of its `k`-th faulty lesson. */
  lemma {:induction false} LinesOfFaults(course: Course, catalog: seq<Lesson>)
    ensures |WrongLines(course, catalog)| == |Faults(catalog)|
    ensures forall k :: 0 <= k < |Faults(catalog)| ==>
      WrongLines(course, catalog)[k] == WrongLine(course, Faults(catalog)[k])
  {
    if catalog != [] {
      LinesOfFaults(course, catalog[..|catalog| - 1]);
    }
  }

  /** The `k`-th faulty lesson sits at some position `i` of the catalog
      with exactly `k` faulty lessons before it. */
  lemma {:induction false} FaultPosition(catalog: seq<Lesson>, k: nat)
    requires k < |Faults(catalog)|
    ensures exists i :: (0 <= i < |catalog| && Faulty(catalog[i])
      && |Faults(catalog[..i])| == k && Faults(catalog)[k] == catalog[i])
  {
    var n := |catalog| - 1;
    var init := catalog[..n];
    if k < |Faults(init)| {
      FaultPosition(init, k);
      var i :| 0 <= i < |init| && Faulty(init[i]) && |Faults(init[..i])| == k && Faults(init)[k] == init[i];
      assert init[..i] == catalog[..i];
    }
  }

  /** Every report line of a course belongs to a faulty lesson of its
      catalog, and lines appear in catalog order: the lesson of line `k`
      has exactly `k` lines before it. */
  lemma FaultyLessonOfLine(course: Course, catalog: seq<Lesson>, k: nat)
    requires k < |WrongLines(course, catalog)|
    ensures exists i :: (0 <= i < |catalog| && Faulty(catalog[i])
      && |WrongLines(course, catalog[..i])| == k
      && WrongLines(course, catalog)[k] == WrongLine(course, catalog[i]))
  {
    LinesOfFaults(course, catalog);
    FaultPosition(catalog, k);
    var i :| 0 <= i < |catalog| && Faulty(catalog[i]) && |Faults(catalog[..i])| == k && Faults(catalog)[k] == catalog[i];
    LinesOfFaults(course, catalog[..i]);
  }

  /** The position of the first occurrence of `c` in `s`, or -1. */
  function FirstIndex(s: string, c: char): (r: int)
    ensures -1 <= r < |s|
    ensures r >= 0 ==> s[r] == c
    ensures forall k :: 0 <= k < |s| && (r < 0 || k < r) ==> s[k] != c
  {
    if s == [] then -1
    else if s[0] == c then 0
    else var r := FirstIndex(s[1..], c); if r < 0 then -1 else r + 1
  }

  /** The position of the last occurrence of `c` in `s`, or -1. */
  function LastIndex(s: string, c: char): (r: int)
    ensures -1 <= r < |s|
    ensures r >= 0 ==> s[r] == c
    ensures forall k :: r < k < |s| ==> s[k] != c
  {
    if s == [] then -1
    else if s[|s| - 1] == c then |s| - 1
    else LastIndex(s[..|s| - 1], c)
  }

  lemma FirstIndexAt(x: string, c: char, y: string)
    requires c !in x
    ensures FirstIndex(x + [c] + y, c) == |x|
  {
    var s := x + [c] + y;
    var r := FirstIndex(s, c);
    assert s[|x|] == c;
  }

  lemma LastIndexAt(x: string, c: char, y: string)
    requires c !in y
    ensures LastIndex(x + [c] + y, c) == |x|
  {
    var s := x + [c] + y;
    var r := LastIndex(s, c);
    assert s[|x|] == c;
  }

  /** The course and lesson a report line names. */
  datatype LineEntry = LineEntry(courseName: string, courseId: int, lessonName: string, lessonId: int)

  /** Splits `text(id)` into the text and the id, reading the id after the
      last '('. */
  function SplitTrailingId(s: string): Option<(string, int)>
  {
    if |s| == 0 || s[|s| - 1] != ')' then None
    else
      var body := s[..|s| - 1];
      var open := LastIndex(body, '(');
      if open < 0 then None
      else
        match ParseDecimal(body[open + 1..])
        case None => None
        case Some(id) => Some((body[..open], id))
  }

  /** Splits a report line back into the course and lesson it names: the
      lesson id is read after the last '(', the course part ends at the
      first tab. */
  function ParseWrongLine(s: string): Option<LineEntry>
  {
    match SplitTrailingId(s)
    case None => None
    case Some((head, lessonId)) =>
      var tab := FirstIndex(head, '\t');
      if tab < 0 then None
      else
        match SplitTrailingId(head[..tab])
        case None => None
        case Some((courseName, courseId)) => Some(LineEntry(courseName, courseId, head[tab + 1..], lessonId))
  }

  lemma SplitTrailingIdRoundTrip(x: string, id: int)
    ensures SplitTrailingId(x + "(" + Decimal(id) + ")") == Some((x, id))
  {
    var d := Decimal(id);
    var s := x + "(" + d + ")";
    var body := x + "(" + d;
    assert s[..|s| - 1] == body;
    assert body == x + ['('] + d;
    LastIndexAt(x, '(', d);
    assert body[|x| + 1..] == d;
    assert body[..|x|] == x;
    DecimalRoundTrip(id);
  }

  lemma NoTabInCoursePart(name: string, id: int)
    requires '\t' !in name
    ensures '\t' !in name + "(" + Decimal(id) + ")"
  {
    var left := name + "(" + Decimal(id) + ")";
    forall k | 0 <= k < |left| ensures left[k] != '\t' {
      if k < |name| {
        assert left[k] == name[k];
      } else if |name| < k < |name| + 1 + |Decimal(id)| {
        assert left[k] == Decimal(id)[k - |name| - 1];
      }
    }
  }

  /** A report line names its course and lesson unambiguously whenever the
      course name holds no tab: reading it back recovers both names and
      both ids. */
  lemma WrongLineRoundTrip(course: Course, lesson: Lesson)
    requires '\t' !in course.courseName
    ensures ParseWrongLine(WrongLine(course, lesson))
      == Some(LineEntry(course.courseName, course.courseId, lesson.lessonName, lesson.lessonId))
  {
    var left := course.courseName + "(" + Decimal(course.courseId) + ")";
    var head := left + "\t" + lesson.lessonName;
    SplitTrailingIdRoundTrip(head, lesson.lessonId);
    NoTabInCoursePart(course.courseName, course.courseId);
    assert head == left + ['\t'] + lesson.lessonName;
    FirstIndexAt(left, '\t', lesson.lessonName);
    assert head[..|left|] == left;
    assert head[|left| + 1..] == lesson.lessonName;
    SplitTrailingIdRoundTrip(course.courseName, course.courseId);
  }

  /** Each report line of a course whose name holds no tab reads back as
      that course and one of its faulty lessons. */
  lemma LinesNameFaultyLessons(course: Course, catalog: seq<Lesson>, k: nat)
    requires '\t' !in course.courseName
    requires k < |WrongLines(course, catalog)|
    ensures exists i :: (0 <= i < |catalog| && Faulty(catalog[i])
      && ParseWrongLine(WrongLines(course, catalog)[k])
         == Some(LineEntry(course.courseName, course.courseId, catalog[i].lessonName, catalog[i].lessonId)))
  {
    FaultyLessonOfLine(course, catalog, k);
    var i :| 0 <= i < |catalog| && Faulty(catalog[i])
      && |WrongLines(course, catalog[..i])| == k
      && WrongLines(course, catalog)[k] == WrongLine(course, catalog[i]);
    WrongLineRoundTrip(course, catalog[i]);
  }
}
