/** What every tool shares: the citation records it leaves behind, the outcome of
    one execution and the schema it advertises to the language model. */
module Tools {
  import opened Wrappers

  /** A citation `{"text": ..., "url": ...}` shown to the user next to an answer. */
  datatype Source = Source(text: string, url: Option<string>)

  /** The result of one `execute`: the text returned to the language model, and the
      citation list the tool stores in `last_sources`, or `None` when the call
      leaves `last_sources` as it was. */
  datatype Outcome = Outcome(text: string, sources: Option<seq<Source>>) {

    /** The tool's `last_sources` after the call, given the list before it. */
    function After(previous: seq<Source>): seq<Source> {
      if sources.Some? then sources.value else previous
    }
  }

  /** One entry of `input_schema.properties`. */
  datatype Property = Property(name: string, kind: string, description: string)

  /** `{"type": "object", "properties": ..., "required": [...]}`. */
  datatype InputSchema = InputSchema(properties: seq<Property>, required: seq<string>)

  /** The dictionary `get_tool_definition()` returns. */
  datatype ToolDefinition = ToolDefinition(name: string, description: string, inputSchema: InputSchema)

  /** Every required parameter is one of the declared properties. */
  predicate WellFormed(d: ToolDefinition) {
    d.name != "" &&
    forall r :: r in d.inputSchema.required ==>
      exists k :: 0 <= k < |d.inputSchema.properties| && d.inputSchema.properties[k].name == r
  }
}
