/** The values the tools receive from the vector store. The store itself (its
    search, its catalogue and its lesson-link lookup) is an external collaborator:
    here it is a value whose answers are fixed functions of their arguments. */
module VectorStore {
  import opened Wrappers

  /** Metadata of one search hit: its `course_title` and `lesson_number` keys,
      each of which may be missing. */
  datatype HitMeta = HitMeta(courseTitle: Option<string>, lessonNumber: Option<int>)

  /** What `search` returns: documents with parallel metadata, or an error text. */
  datatype SearchResults = SearchResults(documents: seq<string>, metadata: seq<HitMeta>, error: Option<string>)

  /** A lesson's `lesson_number` key: missing, present but `None`, or a number. */
  datatype LessonNumber = Absent | Null | Number(n: int)

  /** One lesson of a course's metadata; `title` is the fallback key read when
      `lesson_title` is missing. */
  datatype Lesson = Lesson(number: LessonNumber, lessonTitle: Option<string>, title: Option<string>, link: Option<string>)

  /** One course of `get_all_courses_metadata()`. */
  datatype Course = Course(title: Option<string>, courseLink: Option<string>, instructor: Option<string>, lessons: seq<Lesson>)

  /** The store as the tools see it: `search(query, course_name, lesson_number)`,
      the catalogue (or the message of the exception fetching it raised) and
      `get_lesson_link(course_title, lesson_number)`. */
  datatype Store = Store(
    search: (string, Option<string>, Option<int>) -> SearchResults,
    courses: Result<seq<Course>, string>,
    lessonLink: (string, int) -> Option<string>)
}
