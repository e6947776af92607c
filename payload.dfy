/** The parsed payloads of the course-catalog API and the requests the crawler issues.

    Every HTTP exchange of the crawler is modelled as a value: the upstream
    service is an `Api` that answers each request with either a parsed body
    or a transport/parse failure.  Nothing here performs I/O. */
module Payload {

  datatype Option<T> = None | Some(value: T)

  /** A course as listed by the tab page or by a class page.  `classId` is
      whatever the payload carried; the class paginator overwrites it with
      the class it queried. */
  datatype Course = Course(courseId: int, courseName: string, classId: Option<int>)

  /** One entry of the tab listing: its `type` discriminant, the class it
      names (meaningful for type 4) and the courses embedded in it. */
  datatype TabEntry = TabEntry(entryType: int, classId: int, courses: seq<Course>)

  /** One lesson of a course's detail catalog. */
  datatype Lesson = Lesson(lessonId: int, lessonName: string, videoSize: int, length: int)

  /** The answer to one request: a parsed body, or the raw failure of the
      transport or of JSON parsing (the program does not tell them apart). */
  datatype Fetch<T> = Ok(body: T) | Failed(error: string)

  /** How a stage of the crawl ended: it ran to its natural end, or it
      stopped at the first failure and passes that failure up. */
  datatype Outcome = Pass | Fail(error: string)

  /** The requests the crawler issues, one per HTTP GET. */
  datatype Request =
    | TabPage                                 // the tab listing
    | CourseForClass(classId: int, page: int) // one page of a class's course listing
    | CourseDetail(courseId: int)             // the lesson catalog of one course

  /** The upstream service as seen by one run.  `classPages(c)[p - 1]` is
      the answer to page `p` of class `c`; every page past that list
      answers an empty course list. */
  datatype Api = Api(
    tabPage: Fetch<seq<TabEntry>>,
    classPages: int -> seq<Fetch<seq<Course>>>,
    courseDetail: int -> Fetch<seq<Lesson>>)

  /** The answer the upstream gives to page `page` of class `classId`. */
  function ClassPage(api: Api, classId: int, page: int): Fetch<seq<Course>>
  {
    var pages := api.classPages(classId);
    if 1 <= page <= |pages| then pages[page - 1] else Ok([])
  }

  /** A page that ends pagination: a failure, or an empty course list. */
  predicate EndsPagination(f: Fetch<seq<Course>>)
  {
    f.Failed? || f.body == []
  }
}
