# Course-material tools: a Dafny model

This models the tool layer of a retrieval-augmented course chatbot
(`backend/search_tools.py`). The language model answers questions about course
material by calling one of two tools, and a registry dispatches the calls:

- **`CourseSearchTool`** (`search_course_content`) asks the vector store for
  chunks that match a query. The query can be filtered by course name and lesson
  number. The tool returns either the store's error, a "no relevant content"
  message that names the filters, or one `[course - Lesson n]` block per hit.
  After a successful search it also records one citation per hit in
  `last_sources`. The citation carries a lesson link, which is looked up only
  for hits with a lesson number and a known course.
- **`CourseOutlineTool`** (`get_course_outline`) finds the first course whose
  title and the query contain one another, ignoring case. It renders a header, a
  note listing missing lesson numbers, and the lessons sorted by number. It
  records a citation for the course and one for each lesson that has a link.
  Any failure becomes an `Error retrieving course outline: …` text.
- **`ToolManager`** keeps the tools in a dictionary keyed by name, in insertion
  order. It advertises their definitions and dispatches `execute_tool` by name.
  `get_last_sources` returns the first non-empty citation list, and
  `reset_sources` clears every list.

Modules:

- `Wrappers`: `Option` and `Result`.
- `Text`: Python truthiness of strings, `str.join`, integer formatting,
  ASCII `lower()` and the substring test.
- `VectorStore`: the records the store hands over. The store itself is a value
  whose search, catalogue and link lookup are fixed functions.
- `Tools`: citations, the outcome of one call, and tool definitions.
- `CourseSearch`, `LessonOrder`, `CourseOutline` and `Registry`: the three
  classes of the source file.

Each tool is a class with a mutable `lastSources` field. Its `Execute` method
is proved equal to a pure function (`CourseSearchTool.Run`,
`CourseOutline.OutlineRun`). That function gives the returned text, and it gives
the new citation list, or says that the list is left as it was. The registry is
a class over `tools: map<string, Tool>` and `order: seq<string>`. Its invariant
`Valid` says:

- `order` lists each name exactly once;
- the names in `order` are exactly the map's keys;
- every tool is stored under its own name.

A reader might expect the outline to cite every lesson. The code cites only
lessons with a truthy link (`backend/search_tools.py:257`). The model follows the code, and
`CourseOutline.IntroToPythonExample` shows two citations for a course with one
linked and one unlinked lesson.

## Model

| member | source | states |
|---|---|---|
| Text.IntToStringRoundTrip | backend/search_tools.py:100 | The decimal rendering of a lesson number used in headers and messages can be read back to the same integer, so it loses nothing. |
| Text.IntToStringInjective | backend/search_tools.py:106 | Distinct lesson numbers give distinct citation suffixes. |
| Text.LowerNormalises | backend/search_tools.py:169 | Lower-casing keeps the length, leaves no upper-case ASCII letter and is idempotent. |
| Text.ContainsIff | backend/search_tools.py:173 | The `in` test on strings holds exactly when the needle occurs at some position of the haystack. |
| Text.JoinLength | backend/search_tools.py:125 | The joined text is as long as all the parts together plus one separator fewer than there are parts. |
| Text.JoinLayout | backend/search_tools.py:125 | Each part occurs in the joined text at its offset: the lengths of the parts before it plus one separator for each of them. |
| CourseSearch.DefinitionWellFormed | backend/search_tools.py:27-50 | The search tool's definition is named `search_course_content`, only `query` is required, and every required parameter is a declared property. |
| CourseSearch.NoContentShape | backend/search_tools.py:77-83 | Lesson filter 0 gives the same message as no lesson filter. With no truthy filter the message is exactly "No relevant content found.". |
| CourseSearch.NoContentMentionsFilters | backend/search_tools.py:79-82 | A truthy course filter appears in the message as ` in course '<name>'`, and a non-zero lesson filter as ` in lesson <n>`. |
| CourseSearch.SearchOutcomePaths | backend/search_tools.py:72-86 | A truthy store error is returned verbatim. An empty result gives the no-content message. Both leave `last_sources` unchanged. Otherwise the text is the blocks joined by blank lines and there is one citation per block. |
| CourseSearch.BlocksMatchCitations | backend/search_tools.py:93-120 | Hits are paired up to the shorter of documents and metadata. Block i is `[` + citation i's text + `]`, a newline and document i. Citation i's url is the store's lesson link exactly when the hit has a lesson number and a known course, and otherwise none. |
| CourseSearch.SearchTextHoldsBlocks | backend/search_tools.py:120-125 | Every hit's block occurs in the answer text. |
| CourseSearch.LookupsExactlyWanted | backend/search_tools.py:108-111 | A lesson-link lookup `(course, lesson)` is made if and only if some hit has a lesson number and a course title other than `unknown`. At most one lookup is made per hit. |
| CourseSearch.CourseSearchTool.constructor | backend/search_tools.py:23-25 | The tool keeps the given store and starts with no citations. |
| CourseSearch.CourseSearchTool.DescribeHit | backend/search_tools.py:94-111 | For one hit, the loop body builds the header `[<citation text>]` and the citation whose url is the store's link exactly when a link is wanted. It makes one lookup for such a hit and none for any other. |
| CourseSearch.CourseSearchTool.Execute | backend/search_tools.py:52-86 | The returned text and the new `last_sources` are those of the search outcome for the store's answer. The link lookups made are exactly those of the formatting path, and none on the error and empty paths. |
| CourseSearch.CourseSearchTool.FilterInfo | backend/search_tools.py:78-82 | The suffix is built by appending the course clause if the course name is truthy, then the lesson clause if the lesson number is truthy. |
| CourseSearch.CourseSearchTool.FormatResults | backend/search_tools.py:88-125 | The loop yields the blocks joined by blank lines. `last_sources` becomes one citation per hit, in order. The lookups are those the hits call for. |
| LessonOrder.SortLessonsCorrect | backend/search_tools.py:224 | Sorting by `lesson_number` (default 0) gives a sequence that is non-decreasing in the key and is a permutation of the lessons. Lessons with equal keys keep their input order, as Python's stable sort does. |
| LessonOrder.SortSingleton | backend/search_tools.py:224 | A single lesson sorts to itself, even with a `None` number, because no comparison is made. |
| LessonOrder.MinMaxBound | backend/search_tools.py:212-213 | `min` and `max` of the present numbers are members of the list and bound every element. |
| LessonOrder.MissingCorrect | backend/search_tools.py:212-218 | The missing lessons are exactly the integers from the smallest to the largest present number that are not present, in ascending order. The list is empty exactly when that range is fully covered. |
| LessonOrder.MissingExamples | backend/search_tools.py:214-216 | Numbers 1,2,4,5 miss exactly 3, and 1,2,3 miss nothing. |
| CourseOutline.DefinitionWellFormed | backend/search_tools.py:135-150 | The outline tool's definition is named `get_course_outline`, only `course_title` is required, and that is a declared property. |
| CourseOutline.FirstMatchIsFirst | backend/search_tools.py:171-175 | The chosen course matches the query, and no earlier course does. When none is chosen, no course matches. |
| CourseOutline.MatchesIff | backend/search_tools.py:173 | A course matches when the lower-cased query occurs in the lower-cased title, or the title occurs in the query. |
| CourseOutline.MatchesRelatedQueries | backend/search_tools.py:172-173 | A query that is a case-insensitive prefix of the title matches the course. A course without a title (`''`) matches every query. |
| CourseOutline.RelatedQuerySelects | backend/search_tools.py:171-175 | Such a course (prefix query or no title) is the one selected when no earlier course matches. |
| CourseOutline.FindCourse | backend/search_tools.py:167-175 | The loop stops at the first matching course and returns its index. It returns nothing only if no course matches. |
| CourseOutline.OutlineHeader | backend/search_tools.py:189-206 | The outline starts with the title line. The link line follows only when the link is truthy, and then the instructor line only when the instructor is truthy. Without a link, line 1 is the instructor line or else the lesson count. The header ends with the lesson count over all lessons, an empty line and the `**Course Outline:**` heading. |
| CourseOutline.GapNoteWhenGap | backend/search_tools.py:208-219 | The gap note appears if and only if some integer lies strictly between two present lesson numbers and is not itself present. |
| CourseOutline.GapNoteLists | backend/search_tools.py:216-219 | When present, the note is one line listing exactly the missing numbers in ascending order, followed by an empty line. |
| CourseOutline.NumbersPresent | backend/search_tools.py:210 | The numbers the gap check uses are exactly the lesson numbers present, with missing and `None` numbers excluded. |
| CourseOutline.OutlineListsLessons | backend/search_tools.py:221-236 | After the header and gap note, the outline lists each lesson once: in non-decreasing key order, stable for equal keys. With no lessons it shows "- No lessons found". |
| CourseOutline.OutlineSourcesCount | backend/search_tools.py:238-263 | The course citation comes first, then one citation per lesson with a truthy link, so the list has one entry more than the linked lessons. Every lesson citation has a url. |
| CourseOutline.LinkedCitationsCount | backend/search_tools.py:252-261 | The lesson citations number the linked lessons, and each carries a truthy url. |
| CourseOutline.CountLinkedSort | backend/search_tools.py:250 | Sorting does not change how many lessons are linked. |
| CourseOutline.ListLessons | backend/search_tools.py:226-234 | The loop produces one line per lesson, in the given order. A line ends with a markdown link exactly when the lesson's link is truthy. |
| CourseOutline.CiteLinkedLessons | backend/search_tools.py:252-261 | The loop cites exactly the lessons with a truthy link, in order, and every citation carries its url. |
| CourseOutline.IntroToPythonExample | backend/search_tools.py:152-265 | For the query "python", the course "Intro to Python" (lesson 0 linked, lesson 1 not) is found. Its outline lists lesson 0, then lesson 1, and the only citations are the course (no url) and lesson 0 (with its link). |
| CourseOutline.CourseOutlineTool.constructor | backend/search_tools.py:131-133 | The tool keeps the given store and starts with no citations. |
| CourseOutline.CourseOutlineTool.Execute | backend/search_tools.py:152-184 | A catalogue failure, a miss (which lists the available titles) or a failed sort gives the corresponding text and leaves `last_sources` unchanged. A match returns the formatted outline and stores its citations. |
| CourseOutline.CourseOutlineTool.FormatCourseOutline | backend/search_tools.py:186-265 | Returns the outline, or the TypeError message when there are two or more lessons and at least one has an explicit `None` number. Only on success are the citations stored. |
| Registry.DefinitionsNamed | backend/search_tools.py:274-280 | Each tool's definition is well formed and carries the tool's name, and the two tool names differ. |
| Registry.FirstNonEmptyIsFirst | backend/search_tools.py:297-315 | The earliest non-empty citation list is chosen. The result is empty exactly when every list is. |
| Registry.ToolManager.constructor | backend/search_tools.py:271-272 | The registry starts with no tools, which satisfies `Valid`. |
| Registry.ToolManager.RegisterTool | backend/search_tools.py:274-280 | A nameless definition is rejected and nothing changes. Otherwise the tool is stored under its name: it replaces a same-named tool in place or is appended to the order. `Valid` is kept. |
| Registry.ToolManager.GetToolDefinitions | backend/search_tools.py:283-285 | Returns one definition per registered tool, in insertion order, with no name twice. |
| Registry.ToolManager.ExecuteTool | backend/search_tools.py:287-292 | An unknown name returns `Tool '<name>' not found` and nothing changes. Otherwise the named tool's outcome text is returned. Only that tool's `last_sources` may change, and the registry itself does not. |
| Registry.ToolManager.GetLastSources | backend/search_tools.py:294-315 | Returns the `last_sources` of the first tool in insertion order whose list is non-empty, or `[]` exactly when all are empty. Nothing changes. |
| Registry.ToolManager.ResetSources | backend/search_tools.py:317-321 | Every tool's `last_sources` becomes empty, so the next `get_last_sources` returns `[]`. The registry does not change. |

## Left out

- The vector store (`backend/vector_store.py` is not part of this model). Its search, its catalogue fetch and its lesson-link lookup are parameters. `is_empty()` is taken to mean "no documents", and a failing catalogue fetch is its exception message.
- Text.Lower: only ASCII letters are lower-cased. Python's Unicode case mapping is not modelled.
- CourseOutline.CourseOutlineTool.FormatCourseOutline: Python's TypeError message names the operands in the order of the comparison that fails. For example, a `None`-numbered lesson followed by a numbered one gives `'int' and 'NoneType'`, and two `None` numbers give `NoneType` on both sides. The model uses the `'NoneType' and 'int'` message for every failed sort. It also assumes that any two or more lessons with a `None` number fail, which holds because every element takes part in a comparison.
- Exceptions other than a failed catalogue fetch and a failed sort inside `execute` are not modelled. For example, `lower()` raises on a course whose title is an explicit `None`. Dictionary values are typed here, so such inputs cannot be written.
- Hit metadata with an explicit `None` course title, or a non-integer lesson number, cannot be expressed. Lesson links are strings or absent.
- The `if not matching_course` test treats an empty course dictionary as "not found". A matched course is always a record here, so that case is not modelled.
- Registry.ToolManager.ExecuteTool: requires that the keyword arguments fit the tool. A mismatched call raises a Python TypeError, which is not modelled.
- Registry.ToolManager.RegisterTool: the rejection path is modelled, but no tool of this model has a nameless definition, so that path is never taken.
- `get_last_sources` probes with `hasattr` and `isinstance`, and turns legacy string sources into `{text, url: None}`. Here every tool has `last_sources` and every entry is a citation record, so those branches do not arise.
- The abstract `Tool` base class is a datatype over the two concrete tools.
- The tests and the maintenance scripts of the repository are not modelled.
- Concurrency: the tools are used from one request at a time, and no interleaving is modelled.
