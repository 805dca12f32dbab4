/** `ToolManager`: the registry that advertises the tools to the language model,
    dispatches calls by name and exposes the citations of the last call. */
module Registry {
  import opened Wrappers
  import opened Tools
  import CourseSearch
  import CourseOutline

  /** A registered tool: one of the two tool classes. */
  datatype Tool = Search(search: CourseSearch.CourseSearchTool) | Outline(outline: CourseOutline.CourseOutlineTool) {

    /** The object whose `last_sources` this tool keeps. */
    function Object(): object {
      match this
      case Search(s) => s
      case Outline(o) => o
    }

    /** The name in the tool's definition. */
    function Name(): string {
      match this
      case Search(_) => CourseSearch.ToolName
      case Outline(_) => CourseOutline.ToolName
    }

    /** `get_tool_definition()`. */
    function Definition(): ToolDefinition {
      match this
      case Search(_) => CourseSearch.Definition()
      case Outline(_) => CourseOutline.Definition()
    }

    /** The tool's current `last_sources`. */
    function Sources(): seq<Source>
      reads Object()
    {
      match this
      case Search(s) => s.lastSources
      case Outline(o) => o.lastSources
    }
  }

  /** The keyword arguments of one tool call. */
  datatype Args =
    | SearchArgs(query: string, courseName: Option<string>, lessonNumber: Option<int>)
    | OutlineArgs(courseTitle: string)

  /** The arguments fit the tool's `execute` signature. */
  predicate Accepts(t: Tool, args: Args) {
    (t.Search? && args.SearchArgs?) || (t.Outline? && args.OutlineArgs?)
  }

  /** What calling `t.execute(**args)` answers and stores. */
  function Run(t: Tool, args: Args): Outcome
    requires Accepts(t, args)
  {
    match t
    case Search(s) => s.Run(args.query, args.courseName, args.lessonNumber)
    case Outline(o) => CourseOutline.OutlineRun(o.store.courses, args.courseTitle)
  }

  /** The message of the ValueError for a definition without a name. */
  const MissingNameMessage := "Tool must have a 'name' in its definition"

  /** `register_tool` either stores the tool or raises. */
  datatype Registration = Registered | Rejected(message: string)

  /** Each tool's definition is well formed and carries its name, and the two
      names differ. */
  lemma DefinitionsNamed(t: Tool)
    ensures WellFormed(t.Definition()) && t.Definition().name == t.Name()
    ensures CourseSearch.ToolName != CourseOutline.ToolName
  {
    CourseSearch.DefinitionWellFormed();
    CourseOutline.DefinitionWellFormed();
  }

  /** The first non-empty list, or `[]` when all are empty. */
  function FirstNonEmpty(lists: seq<seq<Source>>): seq<Source> {
    if lists == [] then [] else if lists[0] != [] then lists[0] else FirstNonEmpty(lists[1..])
  }

  /** `FirstNonEmpty` picks the earliest non-empty list, and is empty exactly when
      every list is. */
  lemma {:induction false} FirstNonEmptyIsFirst(lists: seq<seq<Source>>)
    ensures FirstNonEmpty(lists) == [] <==> forall i :: 0 <= i < |lists| ==> lists[i] == []
    ensures FirstNonEmpty(lists) != [] ==>
      exists i :: 0 <= i < |lists| && FirstNonEmpty(lists) == lists[i] &&
        forall j :: 0 <= j < i ==> lists[j] == []
  {
    if lists != [] && lists[0] == [] {
      FirstNonEmptyIsFirst(lists[1..]);
      if FirstNonEmpty(lists) != [] {
        var i :| 0 <= i < |lists[1..]| && FirstNonEmpty(lists[1..]) == lists[1..][i] &&
          forall j :: 0 <= j < i ==> lists[1..][j] == [];
        assert lists[i + 1] == lists[1..][i];
        forall j | 0 <= j < i + 1 ensures lists[j] == [] {
          if j > 0 {
            assert lists[j] == lists[1..][j - 1];
          }
        }
      }
      forall i | 0 <= i < |lists[1..]| ensures lists[1..][i] == lists[i + 1] {
      }
    }
  }

  class ToolManager {
    /** `self.tools`, split into its entries and its insertion order. */
    var tools: map<string, Tool>
    var order: seq<string>

    /** The order lists each key once; every tool sits under its own name. */
    ghost predicate Valid()
      reads this
    {
      (forall i, j :: 0 <= i < j < |order| ==> order[i] != order[j]) &&
      (forall n :: n in tools <==> n in order) &&
      (forall n :: n in tools ==> tools[n].Name() == n)
    }

    /** The tool objects the registry holds. */
    function Objects(): set<object>
      reads this
    {
      set n | n in tools :: tools[n].Object()
    }

    /** Each tool's `last_sources`, in insertion order. */
    function SourceLists(): seq<seq<Source>>
      requires Valid()
      reads this, Objects()
    {
      seq(|order|, i requires 0 <= i < |order| && Valid() reads this, Objects() => tools[order[i]].Sources())
    }

    constructor ()
      ensures Valid() && tools == map[] && order == []
    {
      tools := map[];
      order := [];
    }

    /** `register_tool`: a nameless definition is rejected and nothing changes;
        otherwise the tool is stored under its name, replacing an earlier tool of
        that name in place or being appended to the order. */
    method RegisterTool(tool: Tool) returns (r: Registration)
      requires Valid()
      modifies this
      ensures Valid()
      ensures var name := tool.Definition().name;
        if name == "" then
          r == Rejected(MissingNameMessage) && tools == old(tools) && order == old(order)
        else
          r == Registered && tools == old(tools)[name := tool] &&
          order == (if name in old(tools) then old(order) else old(order) + [name])
    {
      DefinitionsNamed(tool);
      var name := tool.Definition().name;
      assert name == tool.Name();
      if name == "" {
        return Rejected(MissingNameMessage);
      }
      if name !in tools {
        order := order + [name];
      }
      tools := tools[name := tool];
      r := Registered;
    }

    /** `get_tool_definitions`: one definition per registered name, in insertion
        order, with no name twice. */
    method GetToolDefinitions() returns (defs: seq<ToolDefinition>)
      requires Valid()
      ensures |defs| == |order|
      ensures forall i :: 0 <= i < |order| ==> defs[i] == tools[order[i]].Definition()
      ensures forall i, j :: 0 <= i < j < |defs| ==> defs[i].name != defs[j].name
    {
      defs := [];
      var i := 0;
      while i < |order|
        invariant 0 <= i <= |order|
        invariant |defs| == i
        invariant forall k :: 0 <= k < i ==> defs[k] == tools[order[k]].Definition()
      {
        var d := tools[order[i]].Definition();
        defs := defs + [d];
        i := i + 1;
      }
      forall i, j | 0 <= i < j < |defs| ensures defs[i].name != defs[j].name {
        DefinitionsNamed(tools[order[i]]);
        DefinitionsNamed(tools[order[j]]);
      }
    }

    /** `execute_tool`: an unknown name gets a message and nothing changes; a known
        one runs that tool, which alone may change its `last_sources`. */
    method ExecuteTool(name: string, args: Args) returns (result: string)
      requires Valid()
      requires name in tools ==> Accepts(tools[name], args)
      modifies Objects()
      ensures tools == old(tools) && order == old(order)
      ensures name !in tools ==> result == "Tool '" + name + "' not found"
      ensures name in tools ==> result == Run(tools[name], args).text
      ensures forall n :: n in tools ==>
        tools[n].Sources() ==
          (if n == name then Run(tools[n], args).After(old(tools[n].Sources())) else old(tools[n].Sources()))
    {
      if name !in tools {
        return "Tool '" + name + "' not found";
      }
      var tool := tools[name];
      assert forall n :: n in tools && n != name ==> tools[n].Object() != tool.Object() by {
        forall n | n in tools && n != name ensures tools[n].Object() != tool.Object() {
          assert tools[n].Name() == n && tool.Name() == name;
        }
      }
      match tool
      case Search(s) =>
        var lookups;
        result, lookups := s.Execute(args.query, args.courseName, args.lessonNumber);
      case Outline(o) =>
        result := o.Execute(args.courseTitle);
    }

    /** `get_last_sources`: the `last_sources` of the first tool, in insertion
        order, that has any, or `[]`; it changes nothing. */
    method GetLastSources() returns (sources: seq<Source>)
      requires Valid()
      ensures sources == FirstNonEmpty(SourceLists())
      ensures sources == [] <==> forall n :: n in tools ==> tools[n].Sources() == []
      ensures sources != [] ==>
        exists i :: 0 <= i < |order| && sources == tools[order[i]].Sources() &&
          forall j :: 0 <= j < i ==> tools[order[j]].Sources() == []
    {
      ghost var lists := SourceLists();
      FirstNonEmptyIsFirst(lists);
      var i := 0;
      while i < |order|
        invariant 0 <= i <= |order|
        invariant FirstNonEmpty(lists[i..]) == FirstNonEmpty(lists)
        invariant forall j :: 0 <= j < i ==> tools[order[j]].Sources() == []
      {
        assert lists[i..][0] == lists[i] && lists[i..][1..] == lists[i + 1..];
        var current := tools[order[i]].Sources();
        if current != [] {
          return current;
        }
        i := i + 1;
      }
      return [];
    }

    /** `reset_sources`: every tool's `last_sources` becomes empty. */
    method ResetSources()
      requires Valid()
      modifies Objects()
      ensures tools == old(tools) && order == old(order)
      ensures forall n :: n in tools ==> tools[n].Sources() == []
      ensures FirstNonEmpty(SourceLists()) == []
    {
      var i := 0;
      while i < |order|
        invariant 0 <= i <= |order|
        invariant forall k :: 0 <= k < i ==> tools[order[k]].Sources() == []
      {
        var t := tools[order[i]];
        if t.Search? {
          t.search.lastSources := [];
        } else {
          t.outline.lastSources := [];
        }
        i := i + 1;
      }
      FirstNonEmptyIsFirst(SourceLists());
    }
  }
}
