# Course-catalog crawler: a verified model

The crawler in `appApi/app.js` walks a remote course-catalog API and checks
that every lesson of every course it finds has a video. It runs in four
stages, one after the other:

1. **Tab listing** (`start`). It fetches the tab page once. It records the
   `classId` of every entry of type 4. It seeds the shared course list
   `allCourse` with the embedded courses of every entry of type 3 or 4.
2. **Class paginator** (`getallClass`). For one class it fetches page 1, 2,
   and so on. It stamps every course of a non-empty page with the class id
   and appends it to `allCourse`. It stops at the first empty page.
3. **Class walk** (`getall`). It runs the paginator for each class id in
   order.
4. **Course validation** (`getallDetail`). For each accumulated course it
   fetches the lesson catalog. It appends one line to `allwrong` for every
   lesson whose `videoSize` or `length` is not positive. It counts the
   course in `rightCount` or in `wrongCount`.

Any failed request ends the whole run. The report, the `allwrong` list, is
produced only when all four stages succeed.

The model has two layers:

- **Specification functions** describe each stage as a function of the
  upstream answers. They say what the stage appends, which requests it
  issues and how it ends. These are `TabListing.ClassIds`,
  `TabListing.Seeded`, `ClassCrawl.Paginate`, `ClassCrawl.Walk`,
  `Validation.Validate` and `Pipeline.Run`. Lemmas state the stages'
  properties about these functions.
- **The imperative session**, `Crawler.Session`. It holds the program's
  module-level state: `allCourse`, `allWrong`, `rightCount` and
  `wrongCount`. It also holds a ghost log of the requests issued. Its
  methods update that state with the same loops, recursion and early
  returns as the source. Each method is proved to leave exactly the state its
  specification function gives. `Crawler.Start` is one run of the program:
  fresh state, then the four stages.

The network is an `Api` value with three parts:

- the answer to the tab request;
- for each class, the list of answers to its pages (page `p` is element
  `p - 1`; every page past the list answers an empty course list);
- for each course id, the answer to the detail request.

Each answer is a parsed body or a failure. The report is the sequence of
lines itself.

Two points where the code differs from a plain reading of its intent:

- `wrongCount` goes up once per wrong course, not once per faulty lesson
  (app.js:80-89). The model follows the code.
- Courses seeded from the tab listing keep whatever `classId` their
  payload carried. Only paginated courses are stamped (app.js:32, 125). The
  model follows the code.

Modules: `Payload` (datatypes and the upstream), `Numerals` (how an id is
written into a string), `CourseCheck` (the lesson check and the report
line), `TabListing`, `ClassCrawl` (paginator and walk), `Validation`,
`Pipeline` (the whole run), `Crawler` (the imperative session) and
`Scenarios` (concrete end-to-end runs).

## Model

| member | source | states |
|---|---|---|
| `Numerals.NatDigits` | appApi/app.js:75 | The digits of a number are non-empty, all decimal digits, and have no leading zero. |
| `Numerals.Decimal` | appApi/app.js:75 | An id written into a report line is non-empty and holds no '(', ')' or tab. |
| `Numerals.DecimalRoundTrip` | appApi/app.js:75 | Reading back the text of any integer id gives that id. |
| `Numerals.DecimalInjective` | appApi/app.js:75 | Distinct ids are written as distinct texts. |
| `CourseCheck.NoLinesIffRight` | appApi/app.js:71-80 | A course adds no report line exactly when no lesson has `videoSize <= 0` or `length <= 0`, so an empty catalog adds none. |
| `CourseCheck.WrongLinesPrefix` | appApi/app.js:72-79 | The lines of a catalog prefix are a prefix of the catalog's lines: lines are only appended. |
| `CourseCheck.LineOfFaultyLesson` | appApi/app.js:72-79 | Every faulty lesson has its line, at the position given by the number of lines of the lessons before it. |
| `CourseCheck.LinesOfFaults` | appApi/app.js:72-79 | There is one line per faulty lesson, and line `k` is the line of the `k`-th faulty lesson. |
| `CourseCheck.FaultPosition` | appApi/app.js:72-74 | The `k`-th faulty lesson sits in the catalog with exactly `k` faulty lessons before it. |
| `CourseCheck.FaultyLessonOfLine` | appApi/app.js:72-79 | Every line belongs to a faulty lesson, and lines follow catalog order. |
| `CourseCheck.WrongLineRoundTrip` | appApi/app.js:75 | A line `courseName(courseId)\tlessonName(lessonId)` reads back as its course name, course id, lesson name and lesson id whenever the course name holds no tab. |
| `CourseCheck.LinesNameFaultyLessons` | appApi/app.js:72-79 | When the course name holds no tab, each line of a course reads back as that course and one of its faulty lessons. |
| `TabListing.ClassIdsAppend` | appApi/app.js:24-29 | The tab pass over two runs of entries records the class ids of the first run, then those of the second. |
| `TabListing.SeededAppend` | appApi/app.js:30-34 | The tab pass over two runs of entries seeds the courses of the first run, then those of the second. |
| `TabListing.ClassIdsCount` | appApi/app.js:24-29 | One class id is recorded per type-4 entry. |
| `TabListing.ClassIdOfEntry` | appApi/app.js:24-29 | The `classId` of each type-4 entry sits at position "number of type-4 entries before it". |
| `TabListing.EntryOfClassId` | appApi/app.js:24-29 | Every recorded id is the `classId` of a type-4 entry, in listing order. |
| `TabListing.SeededByEntry` | appApi/app.js:30-34 | An entry of type 3 or 4 appends all its courses in order. Any other entry appends nothing. |
| `TabListing.NothingSeededWithoutCourseEntries` | appApi/app.js:30-34 | A listing with no type-3 or type-4 entry seeds no course. |
| `ClassCrawl.PagesFromShape` | appApi/app.js:114-134 | The paginator requests consecutive pages starting at the given page. Every page before the last was a non-empty success. The last page is empty or failed, and the run ends as that page says. The courses appended are those of the earlier pages, in page and item order, each stamped with the queried class. |
| `ClassCrawl.WalkAppend` | appApi/app.js:98-111 | Walking two lists of ids: a failure in the first list ends the walk there, otherwise the second list is walked next. |
| `ClassCrawl.WalkStep` | appApi/app.js:98-111 | Walking one more id runs that class's paginator after the earlier ones, unless an earlier class failed. |
| `ClassCrawl.WalkStopsAtFailure` | appApi/app.js:101-107 | After a failing prefix, no later class is visited. |
| `ClassCrawl.WalkPassesIffAllPass` | appApi/app.js:98-111 | The walk succeeds exactly when every class's paginator succeeds. |
| `ClassCrawl.SomeClassFails` | appApi/app.js:99-107 | A failing walk has a class whose predecessors all passed and which itself failed. |
| `ClassCrawl.WalkFailsAtFirstFailure` | appApi/app.js:99-107 | A failing walk is the passing walk of the classes before the first failing class, followed by that class's requests. It passes up that class's error, and no later class is requested. |
| `ClassCrawl.WalkFoundCount` | appApi/app.js:122-127 | A passing walk appends exactly the sum, over its classes, of the sizes of the pages each class fetched before its first empty page, with no deduplication. |
| `ClassCrawl.WalkStampsClasses` | appApi/app.js:125-126 | Every course the walk appends carries the id of a class it walked. |
| `Validation.ValidateAppend` | appApi/app.js:60-96 | Validating two runs of courses: a failure in the first run ends validation there, otherwise the second run follows. |
| `Validation.ValidateStep` | appApi/app.js:60-96 | Validating one more course fetches and checks it after the earlier ones, unless an earlier fetch failed. |
| `Validation.ValidateStopsAtFailure` | appApi/app.js:66-68 | After a failed detail fetch, no later course is fetched or counted. |
| `Validation.ValidateCounts` | appApi/app.js:60-96 | Details are requested in course order, one request per course. Each course before the stopping point is counted exactly once, as right or as wrong. A failing run ends at the course whose fetch failed. |
| `Validation.CheckedIsRight` | appApi/app.js:71-89 | One checked course adds exactly one to one counter. It is right exactly when no lesson is faulty, and then it adds no line. |
| `Validation.ValidateRightCount` | appApi/app.js:80-89 | A passing validation counts right exactly the courses whose catalog has no faulty lesson, and counts every other course wrong. |
| `Validation.LineOrigin` | appApi/app.js:60-96 | Every line of a validation is a line of some validated course whose detail arrived. |
| `Validation.ReportLinesNameFaultyLessons` | appApi/app.js:60-96 | When no course name holds a tab, every line reads back as a validated course and a faulty lesson of its catalog. |
| `Pipeline.TabFailureEndsRun` | appApi/app.js:18-21 | A failed tab listing issues no further request and produces no report. |
| `Pipeline.ReportOnlyOnFullSuccess` | appApi/app.js:36-53 | The report exists exactly when the tab listing, every class paginator and every detail fetch succeeded. |
| `Pipeline.DetailsArrive` | appApi/app.js:66-68 | Validation passes exactly when every course's detail fetch succeeds. |
| `Pipeline.CourseCount` | appApi/app.js:30-34 | Once the walk has passed, the number of accumulated courses equals the seeded courses plus the sizes of the pages each class fetched before its first empty page. |
| `Pipeline.ReportCounts` | appApi/app.js:36-53 | In a report, right plus wrong equals the number of accumulated courses. Right counts exactly the courses with no faulty lesson. |
| `Pipeline.SuccessfulRunRequests` | appApi/app.js:17-58 | A successful run requests the tab page, then the class pages of the walk, then one detail per accumulated course, in course order. |
| `Pipeline.CourseOrigins` | appApi/app.js:30-34 | Every accumulated course is either a seeded course of the listing or is stamped with a class id of the listing. |
| `Pipeline.ReportNamesFaultyLessons` | appApi/app.js:44-46 | When no course name holds a tab, every report line reads back as an accumulated course and a faulty lesson of its catalog. |
| `Crawler.Session.constructor` | appApi/app.js:7-12 | The module-level lists start empty and the counters start at zero. |
| `Crawler.Session.ListTabs` | appApi/app.js:22-35 | The loop returns exactly `ClassIds(entries)` and appends exactly `Seeded(entries)` to `allCourse`. |
| `Crawler.Session.CrawlClass` | appApi/app.js:114-134 | The page loop leaves `allCourse` and the request log extended by exactly what `Paginate` gives. It returns its outcome. |
| `Crawler.Session.CrawlClasses` | appApi/app.js:98-111 | The walk from position `index` on leaves `allCourse` and the request log extended by exactly what `Walk` of the remaining ids gives. It returns its outcome. |
| `Crawler.Session.CheckCourse` | appApi/app.js:71-89 | The catalog loop appends `WrongLines(course, catalog)` and raises exactly one counter, chosen by whether the course is right. |
| `Crawler.Session.ValidateCourses` | appApi/app.js:60-96 | Validation from position `index` on updates the lines, both counters and the request log exactly as `Validate` of the remaining courses gives. It returns its outcome. |
| `Crawler.Start` | appApi/app.js:14-58 | One run returns exactly the report and request sequence that `Pipeline.Run` gives. |
| `Scenarios.ScenarioWalk` | appApi/app.js:114-134 | For the fixed upstream, class 6 requests pages 1 and 2 and finds course 128 stamped with class 6. |
| `Scenarios.ScenarioCourses` | appApi/app.js:22-35 | For the fixed upstream, the run accumulates exactly course 128 stamped with class 6, and the walk passes. |
| `Scenarios.ScenarioValidate` | appApi/app.js:60-96 | Validating the single course is checking its one-lesson catalog. |
| `Scenarios.ScenarioLine` | appApi/app.js:74-75 | The line of the lesson without video is `X(128)\tLessonName(7)`. |
| `Scenarios.ScenarioComplete` | appApi/app.js:36-53 | With one lesson of positive video size the report is empty, with 1 right and 0 wrong, after four requests. |
| `Scenarios.ScenarioMissingVideo` | appApi/app.js:74-87 | With a `videoSize` of 0 or less the report is `["X(128)\tLessonName(7)"]`, with 0 right and 1 wrong. |

## Left out

- The HTTP layer, `getAppUrl` (app.js:136-156): superagent, the fixed request headers and the URLs. A request is a `Request` value and its answer comes from the `Api` value.
- `JSON.parse` and `JSON.stringify`. Payloads are datatypes, and the report is the sequence of lines, not its JSON text.
- A `JSON.parse` error inside a callback throws an uncaught exception instead of calling `cb(err)`. The model treats it as a failed answer: in both cases no report is produced.
- A type-3 or type-4 entry without a `courses` field also throws. Payloads are assumed to have the documented shape.
- `fs.writeFile`, every `console.log`, and the `allWright` list with its debug strings (app.js:81-88). These are output only and never read back.
- Callback-style asynchrony. With one outstanding request at a time, it is modelled as sequential loops and recursive calls with early return.
- JavaScript comparison quirks (`undefined <= 0` is false, `null <= 0` is true) and non-integer `videoSize`, `length` or ids. These fields are `int`.
- A run whose upstream never answers an empty page, which would paginate forever. For each class the `Api` holds a finite page list, and every page past it is empty.
- Numerals.Decimal: assumes ids of magnitude at most 2^53. JavaScript writes a Number, and above 2^53 it prints the shortest digits that round-trip, padded with zeros (2^60 prints as 1152921504606847000); from 1e21 on it uses exponent notation. The model always writes the exact decimal digits.
- Idempotence across two runs is not a separate lemma. `Crawler.Start` returns a function of the upstream answers, so two runs against the same answers give the same report.
- `CAIProbe/CAIProbe/aspects/CAIP_Aspects.h` and `CAIProbe/CAIProbe/class/CAIP_ConfigInfo.h`. They hold declarations only and have no logic.
