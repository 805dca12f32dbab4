/** `CourseSearchTool`: runs the store's search and turns its answer into text for
    the language model, leaving one citation per hit in `last_sources`. */
module CourseSearch {
  import opened Wrappers
  import opened Text
  import opened VectorStore
  import opened Tools

  /** The name the tool is registered under. */
  const ToolName := "search_course_content"

  const Description := "Search course materials with smart course name matching and lesson filtering"

  function Schema(): InputSchema {
    InputSchema(
      [ Property("query", "string", "What to search for in the course content"),
        Property("course_name", "string", "Course title (partial matches work, e.g. 'MCP', 'Introduction')"),
        Property("lesson_number", "integer", "Specific lesson number to search within (e.g. 1, 2, 3)") ],
      ["query"])
  }

  /** The constant schema the tool advertises. */
  function Definition(): ToolDefinition {
    ToolDefinition(ToolName, Description, Schema())
  }

  lemma DefinitionWellFormed()
    ensures WellFormed(Definition())
    ensures Definition().name == ToolName
    ensures Definition().inputSchema.required == ["query"]
  {
    assert Definition().inputSchema.properties[0].name == "query";
  }

  // ----- the answer when the search found nothing -----

  function CourseClause(courseName: Option<string>): string {
    if Truthy(courseName) then " in course '" + courseName.value + "'" else ""
  }

  function LessonClause(lessonNumber: Option<int>): string {
    if lessonNumber.Some? && lessonNumber.value != 0 then " in lesson " + IntToString(lessonNumber.value) else ""
  }

  /** The message for an empty result: the filter information (the course clause
      and then the lesson clause) between a fixed prefix and a full stop. Each
      filter is mentioned only when truthy, so a lesson filter of 0 is not. */
  function NoContentMessage(courseName: Option<string>, lessonNumber: Option<int>): string {
    "No relevant content found" + (CourseClause(courseName) + LessonClause(lessonNumber)) + "."
  }

  /** A lesson filter of 0 is treated exactly like no lesson filter, and with no
      truthy filter the message is the bare sentence. */
  lemma NoContentShape(courseName: Option<string>, lessonNumber: Option<int>)
    ensures NoContentMessage(courseName, Some(0)) == NoContentMessage(courseName, None)
    ensures !Truthy(courseName) && (lessonNumber.None? || lessonNumber.value == 0) ==>
      NoContentMessage(courseName, lessonNumber) == "No relevant content found."
  {
  }

  /** Every truthy filter appears verbatim in the message. */
  lemma NoContentMentionsFilters(courseName: Option<string>, lessonNumber: Option<int>)
    ensures Truthy(courseName) ==>
      Contains(NoContentMessage(courseName, lessonNumber), " in course '" + courseName.value + "'")
    ensures lessonNumber.Some? && lessonNumber.value != 0 ==>
      Contains(NoContentMessage(courseName, lessonNumber), " in lesson " + IntToString(lessonNumber.value))
  {
    var course, lesson := CourseClause(courseName), LessonClause(lessonNumber);
    assert "No relevant content found" + (course + lesson) == "No relevant content found" + course + lesson;
    var prefix := "No relevant content found";
    var msg := NoContentMessage(courseName, lessonNumber);
    assert msg == prefix + course + (lesson + ".");
    assert msg == (prefix + course) + lesson + ".";
    if Truthy(courseName) {
      OccursInMiddle(prefix, course, lesson + ".");
      ContainsIff(msg, course);
    }
    if lessonNumber.Some? && lessonNumber.value != 0 {
      OccursInMiddle(prefix + course, lesson, ".");
      ContainsIff(msg, lesson);
    }
  }

  // ----- formatting the hits -----

  /** `zip(documents, metadata)` stops at the shorter list. */
  function ZipLength(r: SearchResults): nat {
    if |r.documents| <= |r.metadata| then |r.documents| else |r.metadata|
  }

  /** The course title of a hit, `'unknown'` when missing. */
  function Title(m: HitMeta): string {
    m.courseTitle.GetOr("unknown")
  }

  function LessonSuffix(m: HitMeta): string {
    if m.lessonNumber.Some? then " - Lesson " + IntToString(m.lessonNumber.value) else ""
  }

  /** The context header put above a hit's text. */
  function Header(m: HitMeta): string {
    "[" + Title(m) + LessonSuffix(m) + "]"
  }

  /** The citation label of a hit. */
  function CitationText(m: HitMeta): string {
    Title(m) + LessonSuffix(m)
  }

  /** A link is looked up only for a hit with a lesson number and a known course. */
  predicate WantsLink(m: HitMeta) {
    m.lessonNumber.Some? && Title(m) != "unknown"
  }

  /** One call `get_lesson_link(course_title, lesson_number)` made to the store. */
  datatype LinkQuery = LinkQuery(courseTitle: string, lessonNumber: int)

  function QueryFor(m: HitMeta): LinkQuery
    requires WantsLink(m)
  {
    LinkQuery(Title(m), m.lessonNumber.value)
  }

  function Citation(m: HitMeta, link: (string, int) -> Option<string>): Source {
    Source(CitationText(m), if WantsLink(m) then link(Title(m), m.lessonNumber.value) else None)
  }

  /** The text block of each hit, in order. */
  function Blocks(r: SearchResults): seq<string> {
    seq(ZipLength(r), i requires 0 <= i < ZipLength(r) => Header(r.metadata[i]) + "\n" + r.documents[i])
  }

  /** The citation of each hit, in order. */
  function Citations(r: SearchResults, link: (string, int) -> Option<string>): seq<Source> {
    seq(ZipLength(r), i requires 0 <= i < ZipLength(r) => Citation(r.metadata[i], link))
  }

  /** The link lookups made while formatting hits with metadata `metas`, in order. */
  function Lookups(metas: seq<HitMeta>): seq<LinkQuery> {
    if metas == [] then []
    else
      var m := metas[|metas| - 1];
      Lookups(metas[..|metas| - 1]) + (if WantsLink(m) then [QueryFor(m)] else [])
  }

  /** What `execute` answers and stores, given the store's search result. */
  function SearchOutcome(r: SearchResults, courseName: Option<string>, lessonNumber: Option<int>,
                         link: (string, int) -> Option<string>): Outcome
  {
    if Truthy(r.error) then Outcome(r.error.value, None)
    else if |r.documents| == 0 then Outcome(NoContentMessage(courseName, lessonNumber), None)
    else Outcome(Join("\n\n", Blocks(r)), Some(Citations(r, link)))
  }

  /** The three paths of `execute`: an error is passed through verbatim and an empty
      result gets the synthesised message, both leaving `last_sources` alone; any
      other result replaces `last_sources` by one citation per block. */
  lemma SearchOutcomePaths(r: SearchResults, courseName: Option<string>, lessonNumber: Option<int>,
                           link: (string, int) -> Option<string>)
    ensures var o := SearchOutcome(r, courseName, lessonNumber, link);
      (o.sources.None? <==> Truthy(r.error) || r.documents == []) &&
      (Truthy(r.error) ==> o.text == r.error.value) &&
      (!Truthy(r.error) && r.documents == [] ==> o.text == NoContentMessage(courseName, lessonNumber)) &&
      (o.sources.Some? ==>
         o.text == Join("\n\n", Blocks(r)) && |o.sources.value| == |Blocks(r)| == ZipLength(r))
  {
  }

  /** Block i is the bracketed label of citation i, a newline and document i; the
      citation's url is the store's link exactly when a link is wanted. */
  lemma BlocksMatchCitations(r: SearchResults, link: (string, int) -> Option<string>)
    ensures |Blocks(r)| == |Citations(r, link)| == ZipLength(r)
    ensures ZipLength(r) <= |r.documents| && ZipLength(r) <= |r.metadata|
    ensures ZipLength(r) == |r.documents| || ZipLength(r) == |r.metadata|
    ensures forall i :: 0 <= i < ZipLength(r) ==>
      Blocks(r)[i] == "[" + Citations(r, link)[i].text + "]\n" + r.documents[i]
    ensures forall i :: 0 <= i < ZipLength(r) ==>
      Citations(r, link)[i].url ==
        (if WantsLink(r.metadata[i]) then link(Title(r.metadata[i]), r.metadata[i].lessonNumber.value) else None)
  {
  }

  /** The answer holds every block, each at its own position in the joined text. */
  lemma SearchTextHoldsBlocks(r: SearchResults)
    ensures forall i :: 0 <= i < |Blocks(r)| ==> Contains(Join("\n\n", Blocks(r)), Blocks(r)[i])
  {
    var blocks := Blocks(r);
    if blocks != [] {
      JoinLayout("\n\n", blocks);
      forall i | 0 <= i < |blocks| ensures Contains(Join("\n\n", blocks), blocks[i]) {
        ContainsIff(Join("\n\n", blocks), blocks[i]);
      }
    }
  }

  /** A lookup is made for exactly the hits that want a link, at most one per hit. */
  lemma {:induction false} LookupsExactlyWanted(metas: seq<HitMeta>)
    ensures |Lookups(metas)| <= |metas|
    ensures forall q :: q in Lookups(metas) <==>
      exists i :: 0 <= i < |metas| && WantsLink(metas[i]) && q == QueryFor(metas[i])
  {
    if metas != [] {
      var init := metas[..|metas| - 1];
      var m := metas[|metas| - 1];
      LookupsExactlyWanted(init);
      forall q
        ensures q in Lookups(metas) <==>
          exists i :: 0 <= i < |metas| && WantsLink(metas[i]) && q == QueryFor(metas[i])
      {
        if q in Lookups(metas) {
          if q in Lookups(init) {
            var i :| 0 <= i < |init| && WantsLink(init[i]) && q == QueryFor(init[i]);
            assert metas[i] == init[i];
          } else {
            assert WantsLink(m) && q == QueryFor(metas[|metas| - 1]);
          }
        }
        if exists i :: 0 <= i < |metas| && WantsLink(metas[i]) && q == QueryFor(metas[i]) {
          var i :| 0 <= i < |metas| && WantsLink(metas[i]) && q == QueryFor(metas[i]);
          if i < |init| {
            assert init[i] == metas[i];
          }
        }
      }
    }
  }

  /** The tool; `last_sources` is the state the registry later reads and resets. */
  class CourseSearchTool {
    const store: Store
    var lastSources: seq<Source>

    constructor (store: Store)
      ensures this.store == store && lastSources == []
    {
      this.store := store;
      lastSources := [];
    }

    /** What `execute(query, course_name, lesson_number)` answers and stores. */
    function Run(query: string, courseName: Option<string>, lessonNumber: Option<int>): Outcome {
      SearchOutcome(store.search(query, courseName, lessonNumber), courseName, lessonNumber, store.lessonLink)
    }

    /** The link lookups `execute(query, course_name, lesson_number)` makes. */
    function RunLookups(query: string, courseName: Option<string>, lessonNumber: Option<int>): seq<LinkQuery> {
      var r := store.search(query, courseName, lessonNumber);
      if Truthy(r.error) || |r.documents| == 0 then [] else Lookups(r.metadata[..ZipLength(r)])
    }

    /** `execute(query, course_name, lesson_number)`; `lookups` lists the calls to
        `get_lesson_link` it made. */
    method Execute(query: string, courseName: Option<string>, lessonNumber: Option<int>)
      returns (text: string, lookups: seq<LinkQuery>)
      modifies this
      ensures text == Run(query, courseName, lessonNumber).text
      ensures lastSources == Run(query, courseName, lessonNumber).After(old(lastSources))
      ensures lookups == RunLookups(query, courseName, lessonNumber)
    {
      var results := store.search(query, courseName, lessonNumber);
      if Truthy(results.error) {
        text, lookups := results.error.value, [];
        return;
      }
      if |results.documents| == 0 {
        var filterInfo := FilterInfo(courseName, lessonNumber);
        text, lookups := "No relevant content found" + filterInfo + ".", [];
        return;
      }
      text, lookups := FormatResults(results);
    }

    /** The `filter_info` suffix of the empty-result message: built by appending
        the course clause and then the lesson clause, each only when truthy. */
    static method FilterInfo(courseName: Option<string>, lessonNumber: Option<int>) returns (info: string)
      ensures info == CourseClause(courseName) + LessonClause(lessonNumber)
    {
      info := "";
      if Truthy(courseName) {
        info := info + " in course '" + courseName.value + "'";
      }
      if lessonNumber.Some? && lessonNumber.value != 0 {
        info := info + " in lesson " + IntToString(lessonNumber.value);
      }
    }

    /** The body of the loop in `_format_results` for one hit: its context header,
        its citation, and the link lookup it makes, if any. */
    method DescribeHit(meta: HitMeta) returns (header: string, source: Source, queried: seq<LinkQuery>)
      ensures header == Header(meta) && source.text == CitationText(meta)
      ensures source == Citation(meta, store.lessonLink)
      ensures queried == if WantsLink(meta) then [QueryFor(meta)] else []
    {
      var courseTitle := meta.courseTitle.GetOr("unknown");
      var lessonNum := meta.lessonNumber;

      header := "[" + courseTitle;
      if lessonNum.Some? {
        header := header + " - Lesson " + IntToString(lessonNum.value);
      }
      header := header + "]";

      var sourceText := courseTitle;
      if lessonNum.Some? {
        sourceText := sourceText + " - Lesson " + IntToString(lessonNum.value);
      }

      var lessonLink: Option<string> := None;
      queried := [];
      if lessonNum.Some? && courseTitle != "unknown" {
        lessonLink := store.lessonLink(courseTitle, lessonNum.value);
        queried := [LinkQuery(courseTitle, lessonNum.value)];
      }
      source := Source(sourceText, lessonLink);
    }

    /** `_format_results`: one block and one citation per hit, in order; the
        citations replace `last_sources`. */
    method FormatResults(results: SearchResults) returns (text: string, lookups: seq<LinkQuery>)
      modifies this
      ensures text == Join("\n\n", Blocks(results))
      ensures lastSources == Citations(results, store.lessonLink)
      ensures lookups == Lookups(results.metadata[..ZipLength(results)])
    {
      var formatted: seq<string> := [];
      var sources: seq<Source> := [];
      lookups := [];
      var n := ZipLength(results);
      var i := 0;
      while i < n
        invariant 0 <= i <= n
        invariant formatted == Blocks(results)[..i]
        invariant sources == Citations(results, store.lessonLink)[..i]
        invariant lookups == Lookups(results.metadata[..i])
      {
        var doc, meta := results.documents[i], results.metadata[i];
        var header, source, queried := DescribeHit(meta);
        lookups := lookups + queried;
        assert results.metadata[..i + 1] == results.metadata[..i] + [meta];
        assert Blocks(results)[..i + 1] == Blocks(results)[..i] + [Header(meta) + "\n" + doc];
        assert Citations(results, store.lessonLink)[..i + 1]
            == Citations(results, store.lessonLink)[..i] + [Citation(meta, store.lessonLink)];
        sources := sources + [source];
        formatted := formatted + [header + "\n" + doc];
        i := i + 1;
      }
      assert formatted == Blocks(results);
      assert sources == Citations(results, store.lessonLink);
      lastSources := sources;
      text := Join("\n\n", formatted);
    }
  }
}
