/** `CourseOutlineTool`: finds a course by a case-insensitive partial title and
    renders its outline (header, numbering gaps, lessons by number), leaving a
    citation for the course and one per linked lesson in `last_sources`. */
module CourseOutline {
  import opened Wrappers
  import opened Text
  import opened VectorStore
  import opened Tools
  import opened LessonOrder

  /** The name the tool is registered under. */
  const ToolName := "get_course_outline"

  const Description := "Get the complete outline of a course including all lesson numbers and titles"

  function Schema(): InputSchema {
    InputSchema(
      [Property("course_title", "string", "The course title to get the outline for (partial matches work)")],
      ["course_title"])
  }

  /** The constant schema the tool advertises. */
  function Definition(): ToolDefinition {
    ToolDefinition(ToolName, Description, Schema())
  }

  lemma DefinitionWellFormed()
    ensures WellFormed(Definition())
    ensures Definition().name == ToolName
    ensures Definition().inputSchema.required == ["course_title"]
  {
    assert Definition().inputSchema.properties[0].name == "course_title";
  }

  /** Every failure inside `execute` is answered with this prefix and the message. */
  const ErrorPrefix := "Error retrieving course outline: "

  /** The message of the TypeError `sorted` raises on an explicit `None` number. */
  const UnorderableMessage := "'<' not supported between instances of 'NoneType' and 'int'"

  // ----- choosing the course -----

  /** The lower-cased title used for matching; a course without a title has `''`. */
  function MatchKey(c: Course): string {
    Lower(c.title.GetOr(""))
  }

  /** The query and the title match when either contains the other, ignoring case. */
  predicate Matches(c: Course, query: string) {
    Contains(MatchKey(c), Lower(query)) || Contains(Lower(query), MatchKey(c))
  }

  /** The index of the first course at or after `i` that matches. */
  function FirstMatchFrom(courses: seq<Course>, query: string, i: nat): (r: Option<nat>)
    ensures r.Some? ==> i <= r.value < |courses|
    decreases |courses| - i
  {
    if i >= |courses| then None
    else if Matches(courses[i], query) then Some(i)
    else FirstMatchFrom(courses, query, i + 1)
  }

  function FirstMatch(courses: seq<Course>, query: string): (r: Option<nat>)
    ensures r.Some? ==> r.value < |courses|
  {
    FirstMatchFrom(courses, query, 0)
  }

  lemma {:induction false} FirstMatchFromIsFirst(courses: seq<Course>, query: string, i: nat)
    ensures var f := FirstMatchFrom(courses, query, i);
      (f.Some? ==> i <= f.value < |courses| && Matches(courses[f.value], query) &&
                   forall j :: i <= j < f.value ==> !Matches(courses[j], query)) &&
      (f.None? ==> forall j :: i <= j < |courses| ==> !Matches(courses[j], query))
    decreases |courses| - i
  {
    if i < |courses| && !Matches(courses[i], query) {
      FirstMatchFromIsFirst(courses, query, i + 1);
    }
  }

  /** The chosen course is the first one in store order that matches; with no
      choice, no course matches. */
  lemma FirstMatchIsFirst(courses: seq<Course>, query: string)
    ensures var f := FirstMatch(courses, query);
      (f.Some? ==> f.value < |courses| && Matches(courses[f.value], query) &&
                   forall j :: 0 <= j < f.value ==> !Matches(courses[j], query)) &&
      (f.None? ==> forall j :: 0 <= j < |courses| ==> !Matches(courses[j], query))
  {
    FirstMatchFromIsFirst(courses, query, 0);
  }

  /** Matching is substring occurrence in either direction, after lower-casing. */
  lemma MatchesIff(c: Course, query: string)
    ensures Matches(c, query) <==>
      (exists i: nat :: OccursAt(MatchKey(c), Lower(query), i)) ||
      (exists i: nat :: OccursAt(Lower(query), MatchKey(c), i))
  {
    ContainsIff(MatchKey(c), Lower(query));
    ContainsIff(Lower(query), MatchKey(c));
  }

  /** A query that is a case-insensitive prefix of the title matches the course,
      and a course without a title matches every query. */
  lemma MatchesRelatedQueries(c: Course, query: string)
    ensures Lower(query) <= MatchKey(c) ==> Matches(c, query)
    ensures c.title.None? ==> Matches(c, query)
  {
    if c.title.None? {
      assert MatchKey(c) == [];
      assert MatchKey(c) <= Lower(query);
    }
  }

  /** Such a course is the one selected when no earlier course matches. */
  lemma RelatedQuerySelects(courses: seq<Course>, query: string, k: nat)
    requires k < |courses|
    requires Lower(query) <= MatchKey(courses[k]) || courses[k].title.None?
    requires forall j :: 0 <= j < k ==> !Matches(courses[j], query)
    ensures FirstMatch(courses, query) == Some(k)
  {
    MatchesRelatedQueries(courses[k], query);
    FirstMatchIsFirst(courses, query);
  }

  /** The course-matching loop: stops at the first match. */
  method FindCourse(courses: seq<Course>, query: string) returns (found: Option<nat>)
    ensures found == FirstMatch(courses, query)
    ensures found.Some? ==>
      (found.value < |courses| && Matches(courses[found.value], query) &&
       forall j :: 0 <= j < found.value ==> !Matches(courses[j], query))
    ensures found.None? ==> forall j :: 0 <= j < |courses| ==> !Matches(courses[j], query)
  {
    var queryLower := Lower(query);
    found := None;
    var i := 0;
    while i < |courses|
      invariant 0 <= i <= |courses|
      invariant FirstMatchFrom(courses, query, i) == FirstMatch(courses, query)
      invariant forall j :: 0 <= j < i ==> !Matches(courses[j], query)
    {
      var courseName := Lower(courses[i].title.GetOr(""));
      if Contains(courseName, queryLower) || Contains(queryLower, courseName) {
        found := Some(i);
        break;
      }
      i := i + 1;
    }
  }

  /** Every course's title, `'Unknown'` when missing, in store order. */
  function AvailableTitles(courses: seq<Course>): seq<string> {
    seq(|courses|, i requires 0 <= i < |courses| => courses[i].title.GetOr("Unknown"))
  }

  function NoCourseMessage(query: string, courses: seq<Course>): string {
    "No course found matching '" + query + "'. Available courses: " + Join(", ", AvailableTitles(courses))
  }

  // ----- the outline text -----

  function CourseTitle(c: Course): string {
    c.title.GetOr("Unknown Course")
  }

  function HeaderLines(c: Course): seq<string> {
    ["**Course Title:** " + CourseTitle(c)]
    + (if Truthy(c.courseLink) then ["**Course Link:** " + c.courseLink.value] else [])
    + (if Truthy(c.instructor) then ["**Instructor:** " + c.instructor.value] else [])
    + ["**Number of Lessons:** " + IntToString(|c.lessons|), "", "**Course Outline:**"]
  }

  /** Python's `repr` of a list of integers. */
  function ListRepr(xs: seq<int>): string {
    "[" + Join(", ", seq(|xs|, i requires 0 <= i < |xs| => IntToString(xs[i]))) + "]"
  }

  /** The note on missing lesson numbers and the empty line after it, or nothing. */
  function GapNote(lessons: seq<Lesson>): seq<string> {
    var nums := Numbers(lessons);
    if nums == [] then []
    else
      var missing := Missing(nums);
      if missing == [] then [] else ["*Note: Missing lessons: " + ListRepr(missing) + "*", ""]
  }

  /** `lesson.get('lesson_number', 'N/A')` as text. */
  function NumberLabel(l: Lesson): string {
    match l.number
    case Absent => "N/A"
    case Null => "None"
    case Number(n) => IntToString(n)
  }

  /** `lesson.get('lesson_title', lesson.get('title', 'Untitled Lesson'))`. */
  function LessonName(l: Lesson): string {
    l.lessonTitle.GetOr(l.title.GetOr("Untitled Lesson"))
  }

  function LessonLine(l: Lesson): string {
    "- Lesson " + NumberLabel(l) + ": " + LessonName(l)
    + (if Truthy(l.link) then " - [" + l.link.value + "](" + l.link.value + ")" else "")
  }

  function LessonLines(s: seq<Lesson>): seq<string> {
    seq(|s|, i requires 0 <= i < |s| => LessonLine(s[i]))
  }

  function LessonSection(lessons: seq<Lesson>): seq<string> {
    if lessons == [] then ["- No lessons found"] else LessonLines(SortLessons(lessons))
  }

  /** The lines of the outline, before they are joined with newlines. */
  function OutlineLines(c: Course): seq<string> {
    HeaderLines(c) + GapNote(c.lessons) + LessonSection(c.lessons)
  }

  // ----- the outline citations -----

  function CourseCitation(c: Course): Source {
    Source(CourseTitle(c) + " - Course Outline", if Truthy(c.courseLink) then c.courseLink else None)
  }

  function LessonCitation(l: Lesson): Source {
    Source("Lesson " + NumberLabel(l) + ": " + LessonName(l), l.link)
  }

  /** One citation per lesson with a truthy link, in the order of `s`. */
  function LinkedCitations(s: seq<Lesson>): seq<Source> {
    if s == [] then []
    else (if Truthy(s[0].link) then [LessonCitation(s[0])] else []) + LinkedCitations(s[1..])
  }

  function OutlineSources(c: Course): seq<Source> {
    [CourseCitation(c)] + LinkedCitations(SortLessons(c.lessons))
  }

  /** `_format_course_outline`: the joined outline, or the message of the
      exception the sort raises. */
  function FormattedOutline(c: Course): Result<string, string> {
    if SortRaises(c.lessons) then Failure(UnorderableMessage) else Success(Join("\n", OutlineLines(c)))
  }

  /** What `execute(course_title)` answers and stores, given the catalogue. */
  function OutlineRun(courses: Result<seq<Course>, string>, query: string): Outcome {
    match courses
    case Failure(e) => Outcome(ErrorPrefix + e, None)
    case Success(all) =>
      match FirstMatch(all, query)
      case None => Outcome(NoCourseMessage(query, all), None)
      case Some(i) =>
        match FormattedOutline(all[i])
        case Failure(e) => Outcome(ErrorPrefix + e, None)
        case Success(text) => Outcome(text, Some(OutlineSources(all[i])))
  }

  // ----- properties -----

  /** The number of lessons with a truthy link. */
  function CountLinked(s: seq<Lesson>): nat {
    if s == [] then 0 else (if Truthy(s[0].link) then 1 else 0) + CountLinked(s[1..])
  }

  lemma {:induction false} LinkedCitationsSnoc(s: seq<Lesson>, x: Lesson)
    ensures LinkedCitations(s + [x]) == LinkedCitations(s) + (if Truthy(x.link) then [LessonCitation(x)] else [])
  {
    if s == [] {
      assert [x][1..] == [];
    } else {
      LinkedCitationsSnoc(s[1..], x);
      assert (s + [x])[1..] == s[1..] + [x];
    }
  }

  lemma {:induction false} LinkedCitationsCount(s: seq<Lesson>)
    ensures |LinkedCitations(s)| == CountLinked(s)
    ensures forall i :: 0 <= i < |LinkedCitations(s)| ==> Truthy(LinkedCitations(s)[i].url)
  {
    if s != [] {
      LinkedCitationsCount(s[1..]);
    }
  }

  lemma {:induction false} CountLinkedInsert(x: Lesson, s: seq<Lesson>)
    ensures CountLinked(Insert(x, s)) == CountLinked(s) + (if Truthy(x.link) then 1 else 0)
  {
    if s != [] && SortKey(x) > SortKey(s[0]) {
      CountLinkedInsert(x, s[1..]);
      assert ([s[0]] + Insert(x, s[1..]))[1..] == Insert(x, s[1..]);
    } else if s != [] {
      assert ([x] + s)[1..] == s;
    } else {
      assert [x][1..] == [];
    }
  }

  lemma {:induction false} CountLinkedSort(s: seq<Lesson>)
    ensures CountLinked(SortLessons(s)) == CountLinked(s)
  {
    if s != [] {
      CountLinkedSort(s[1..]);
      CountLinkedInsert(s[0], SortLessons(s[1..]));
    }
  }

  /** The citations are the course's, then one per lesson with a truthy link and
      none for the others, so there are one more than the linked lessons. */
  lemma OutlineSourcesCount(c: Course)
    ensures |OutlineSources(c)| == 1 + CountLinked(c.lessons)
    ensures OutlineSources(c)[0] == CourseCitation(c)
    ensures forall i :: 1 <= i < |OutlineSources(c)| ==> Truthy(OutlineSources(c)[i].url)
  {
    var sorted := SortLessons(c.lessons);
    LinkedCitationsCount(sorted);
    CountLinkedSort(c.lessons);
    forall i | 1 <= i < |OutlineSources(c)| ensures Truthy(OutlineSources(c)[i].url) {
      assert OutlineSources(c)[i] == LinkedCitations(sorted)[i - 1];
    }
  }

  /** After the header and the gap note, the outline lists every lesson once, in
      non-decreasing order of number (missing numbers counting as 0, ties in input
      order), or says that there are none. */
  lemma OutlineListsLessons(c: Course)
    ensures var k := |HeaderLines(c) + GapNote(c.lessons)|;
      OutlineLines(c)[..k] == HeaderLines(c) + GapNote(c.lessons) &&
      OutlineLines(c)[k..] == LessonSection(c.lessons)
    ensures c.lessons == [] ==> LessonSection(c.lessons) == ["- No lessons found"]
    ensures c.lessons != [] ==>
      exists sorted: seq<Lesson> ::
        LessonSection(c.lessons) == LessonLines(sorted) &&
        |sorted| == |c.lessons| &&
        SortedByKey(sorted) &&
        multiset(sorted) == multiset(c.lessons) &&
        forall key :: WithKey(sorted, key) == WithKey(c.lessons, key)
  {
    if c.lessons != [] {
      SortLessonsCorrect(c.lessons);
      var sorted := SortLessons(c.lessons);
      assert LessonSection(c.lessons) == LessonLines(sorted);
    }
  }

  /** The header: title first, the link and the instructor only when truthy, then
      the count of all lessons, an empty line and the outline heading. */
  lemma OutlineHeader(c: Course)
    ensures var h := HeaderLines(c);
      |h| == 4 + (if Truthy(c.courseLink) then 1 else 0) + (if Truthy(c.instructor) then 1 else 0) &&
      OutlineLines(c)[0] == "**Course Title:** " + CourseTitle(c) &&
      (Truthy(c.courseLink) ==> OutlineLines(c)[1] == "**Course Link:** " + c.courseLink.value) &&
      (!Truthy(c.courseLink) ==>
         OutlineLines(c)[1] == (if Truthy(c.instructor) then "**Instructor:** " + c.instructor.value
                                else "**Number of Lessons:** " + IntToString(|c.lessons|))) &&
      (Truthy(c.instructor) ==> OutlineLines(c)[|h| - 4] == "**Instructor:** " + c.instructor.value) &&
      OutlineLines(c)[|h| - 3] == "**Number of Lessons:** " + IntToString(|c.lessons|) &&
      OutlineLines(c)[|h| - 2] == "" &&
      OutlineLines(c)[|h| - 1] == "**Course Outline:**"
  {
  }

  /** Some integer lies strictly between two present numbers without being one. */
  predicate HasGap(ns: seq<int>) {
    exists i, j, x :: 0 <= i < |ns| && 0 <= j < |ns| && ns[i] < x < ns[j] && x !in ns
  }

  lemma MissingGivesGap(ns: seq<int>)
    requires ns != [] && Missing(ns) != []
    ensures HasGap(ns)
  {
    MissingCorrect(ns);
    MinMaxBound(ns);
    var x := Missing(ns)[0];
    assert x in Missing(ns);
    var i :| 0 <= i < |ns| && ns[i] == MinOf(ns);
    var j :| 0 <= j < |ns| && ns[j] == MaxOf(ns);
    assert ns[i] < x < ns[j] && x !in ns;
  }

  lemma GapGivesMissing(ns: seq<int>)
    requires HasGap(ns)
    ensures ns != [] && Missing(ns) != []
  {
    var i, j, x :| 0 <= i < |ns| && 0 <= j < |ns| && ns[i] < x < ns[j] && x !in ns;
    MissingCorrect(ns);
    MinMaxBound(ns);
    assert ns[i] in ns && ns[j] in ns;
    assert x in Missing(ns);
  }

  /** A gap note is emitted exactly when the present lesson numbers have a gap. */
  lemma GapNoteWhenGap(lessons: seq<Lesson>)
    ensures GapNote(lessons) != [] <==> HasGap(Numbers(lessons))
  {
    var ns := Numbers(lessons);
    if GapNote(lessons) != [] {
      MissingGivesGap(ns);
    }
    if HasGap(ns) {
      GapGivesMissing(ns);
    }
  }

  /** The note lists exactly the missing integers between the smallest and the
      largest present number, ascending, and is followed by an empty line. */
  lemma GapNoteLists(lessons: seq<Lesson>)
    requires GapNote(lessons) != []
    ensures Numbers(lessons) != []
    ensures var ns := Numbers(lessons);
      |GapNote(lessons)| == 2 && GapNote(lessons)[1] == "" &&
      GapNote(lessons)[0] == "*Note: Missing lessons: " + ListRepr(Missing(ns)) + "*" &&
      StrictlyIncreasing(Missing(ns)) &&
      forall x :: x in Missing(ns) <==> MinOf(ns) <= x <= MaxOf(ns) && x !in ns
  {
    MissingCorrect(Numbers(lessons));
  }

  /** The lesson numbers the gap note considers: exactly the present numbers. */
  lemma {:induction false} NumbersPresent(lessons: seq<Lesson>)
    ensures forall x :: x in Numbers(lessons) <==>
      exists k :: 0 <= k < |lessons| && lessons[k].number == Number(x)
  {
    if lessons != [] {
      NumbersPresent(lessons[1..]);
      forall x ensures x in Numbers(lessons) <==>
        exists k :: 0 <= k < |lessons| && lessons[k].number == Number(x)
      {
        if exists k :: 0 <= k < |lessons| && lessons[k].number == Number(x) {
          var k :| 0 <= k < |lessons| && lessons[k].number == Number(x);
          if k > 0 {
            assert lessons[1..][k - 1].number == Number(x);
          }
        }
        if x in Numbers(lessons[1..]) {
          var k :| 0 <= k < |lessons[1..]| && lessons[1..][k].number == Number(x);
          assert lessons[k + 1].number == Number(x);
        }
      }
    }
  }

  /** A worked example: the course "Intro to Python" with lesson 0
      (linked) and lesson 1 (unlinked). */
  function ExampleCourse(): Course {
    Course(Some("Intro to Python"), None, None,
           [Lesson(Number(0), Some("Getting Started"), None, Some("https://x/0")),
            Lesson(Number(1), Some("Variables"), None, None)])
  }

  lemma ExampleMatch()
    ensures FirstMatch([ExampleCourse()], "python") == Some(0)
  {
    var c := ExampleCourse();
    assert MatchKey(c) == "intro to python";
    assert Lower("python") == "python";
    assert OccursAt(MatchKey(c), "python", 9);
    ContainsIff(MatchKey(c), "python");
  }

  lemma ExampleOrder()
    ensures !SortRaises(ExampleCourse().lessons)
    ensures SortLessons(ExampleCourse().lessons) == ExampleCourse().lessons
    ensures GapNote(ExampleCourse().lessons) == []
  {
    var c := ExampleCourse();
    var l0, l1 := c.lessons[0], c.lessons[1];
    assert c.lessons[1..] == [l1] && [l1][1..] == [];
    SortSingleton(l1);
    assert Numbers([l1]) == [1];
    assert Numbers(c.lessons) == [0, 1];
    assert MinOf([0, 1]) == 0 && MaxOf([0, 1]) == 1;
    assert MissingBetween([0, 1], 1, 1) == [];
    assert Missing([0, 1]) == [];
  }

  lemma ExampleFormatted()
    ensures var c := ExampleCourse();
      FormattedOutline(c) == Success(Join("\n", HeaderLines(c) + [LessonLine(c.lessons[0]), LessonLine(c.lessons[1])]))
  {
    var c := ExampleCourse();
    ExampleOrder();
    assert !SortRaises(c.lessons);
    assert LessonLines(c.lessons) == [LessonLine(c.lessons[0]), LessonLine(c.lessons[1])];
    assert LessonSection(c.lessons) == [LessonLine(c.lessons[0]), LessonLine(c.lessons[1])];
    assert GapNote(c.lessons) == [];
    assert HeaderLines(c) + [] == HeaderLines(c);
    assert OutlineLines(c) == HeaderLines(c) + [LessonLine(c.lessons[0]), LessonLine(c.lessons[1])];
  }

  lemma ExampleSources()
    ensures var c := ExampleCourse();
      OutlineSources(c) == [CourseCitation(c), LessonCitation(c.lessons[0])]
  {
    var c := ExampleCourse();
    var l1 := c.lessons[1];
    ExampleOrder();
    assert [l1][1..] == [] && c.lessons[1..] == [l1];
    assert LinkedCitations([l1]) == [];
  }

  /** Asked for as "python", the example course is found and its outline lists
      lesson 0 (with its link) and then lesson 1 (without); the code cites the
      course and lesson 0 only, two citations, because unlinked lessons are not
      cited. */
  lemma IntroToPythonExample()
    ensures var c := ExampleCourse();
      var o := OutlineRun(Success([c]), "python");
      o.text == Join("\n", HeaderLines(c) + [LessonLine(c.lessons[0]), LessonLine(c.lessons[1])]) &&
      Truthy(c.lessons[0].link) && !Truthy(c.lessons[1].link) &&
      o.sources.Some? && |o.sources.value| == 2 &&
      o.sources.value[0] == CourseCitation(c) && o.sources.value[0].url == None &&
      o.sources.value[1] == LessonCitation(c.lessons[0]) && o.sources.value[1].url == Some("https://x/0")
  {
    var c := ExampleCourse();
    ExampleMatch();
    ExampleFormatted();
    ExampleSources();
    assert [c][0] == c;
  }

  /** The lesson-line loop of `_format_course_outline`: one line per lesson, in
      the order given. */
  method ListLessons(sorted: seq<Lesson>) returns (lines: seq<string>)
    ensures |lines| == |sorted|
    ensures forall i :: 0 <= i < |sorted| ==> lines[i] == LessonLine(sorted[i])
    ensures lines == LessonLines(sorted)
  {
    lines := [];
    var i := 0;
    while i < |sorted|
      invariant 0 <= i <= |sorted|
      invariant lines == LessonLines(sorted[..i])
    {
      assert LessonLines(sorted[..i + 1]) == LessonLines(sorted[..i]) + [LessonLine(sorted[i])];
      lines := lines + [LessonLine(sorted[i])];
      i := i + 1;
    }
    assert sorted[..i] == sorted;
  }

  /** The citation loop of `_format_course_outline`: a citation for each lesson
      with a truthy link, in the order given, and none for the others. */
  method CiteLinkedLessons(sorted: seq<Lesson>) returns (sources: seq<Source>)
    ensures sources == LinkedCitations(sorted)
    ensures |sources| == CountLinked(sorted)
    ensures forall i :: 0 <= i < |sources| ==> Truthy(sources[i].url)
  {
    sources := [];
    var j := 0;
    while j < |sorted|
      invariant 0 <= j <= |sorted|
      invariant sources == LinkedCitations(sorted[..j])
    {
      LinkedCitationsSnoc(sorted[..j], sorted[j]);
      assert sorted[..j + 1] == sorted[..j] + [sorted[j]];
      if Truthy(sorted[j].link) {
        sources := sources + [LessonCitation(sorted[j])];
      }
      j := j + 1;
    }
    assert sorted[..j] == sorted;
    LinkedCitationsCount(sorted);
  }

  /** The tool; `last_sources` is the state the registry later reads and resets. */
  class CourseOutlineTool {
    const store: Store
    var lastSources: seq<Source>

    constructor (store: Store)
      ensures this.store == store && lastSources == []
    {
      this.store := store;
      lastSources := [];
    }

    /** `execute(course_title)`: every failure becomes an error text and leaves
        `last_sources` alone. */
    method Execute(courseTitle: string) returns (text: string)
      modifies this
      ensures var o := OutlineRun(store.courses, courseTitle);
        text == o.text && lastSources == o.After(old(lastSources))
    {
      match store.courses
      case Failure(e) =>
        text := ErrorPrefix + e;
      case Success(allCourses) =>
        var found := FindCourse(allCourses, courseTitle);
        if found.None? {
          text := NoCourseMessage(courseTitle, allCourses);
        } else {
          var r := FormatCourseOutline(allCourses[found.value]);
          match r
          case Success(outline) => text := outline;
          case Failure(e) => text := ErrorPrefix + e;
        }
    }

    /** `_format_course_outline`: builds the outline and the citations with append
        loops; the citations replace `last_sources` only when the sort succeeds. */
    method FormatCourseOutline(course: Course) returns (r: Result<string, string>)
      modifies this
      ensures r == FormattedOutline(course)
      ensures lastSources == if r.Success? then OutlineSources(course) else old(lastSources)
    {
      var title := course.title.GetOr("Unknown Course");
      var outline := ["**Course Title:** " + title];
      if Truthy(course.courseLink) {
        outline := outline + ["**Course Link:** " + course.courseLink.value];
      }
      if Truthy(course.instructor) {
        outline := outline + ["**Instructor:** " + course.instructor.value];
      }
      outline := outline + ["**Number of Lessons:** " + IntToString(|course.lessons|)];
      outline := outline + [""];
      outline := outline + ["**Course Outline:**"];
      assert outline == HeaderLines(course);
      outline := outline + GapNote(course.lessons);

      var sorted: seq<Lesson> := [];
      if course.lessons != [] {
        if SortRaises(course.lessons) {
          return Failure(UnorderableMessage);
        }
        sorted := SortLessons(course.lessons);
        var lines := ListLessons(sorted);
        outline := outline + lines;
      } else {
        outline := outline + ["- No lessons found"];
      }
      assert outline == OutlineLines(course);

      var sources := [Source(title + " - Course Outline", if Truthy(course.courseLink) then course.courseLink else None)];
      var linked := CiteLinkedLessons(sorted);
      sources := sources + linked;
      lastSources := sources;
      r := Success(Join("\n", outline));
    }
  }
}
