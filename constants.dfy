/**
 * The static tables of the assistant: context-window sizes per model, the
 * models that accept tool calls, the file extensions the assistant reads as
 * text, and the literal function schemas of the built-in tools.
 */
module Constants {
  import opened Json

  /** Context-window size, in tokens, of every supported chat model. */
  const Models: map<string, int> := map[
    "gpt-3.5-turbo" := 4096,
    "gpt-3.5-turbo-1106" := 16385,
    "gpt-3.5-turbo-0125" := 16385,
    "gpt-3.5-turbo-16k" := 16384,
    "gpt-3.5-turbo-16k-0301" := 16384,
    "gpt-3.5-turbo-16k-0613" := 16384,
    "gpt-3.5-turbo-instruct" := 8192,
    "gpt-4" := 8192,
    "gpt-4-32k" := 32768,
    "gpt-4-turbo" := 128000,
    "gpt-4-turbo-preview" := 128000,
    "gpt-4-1106-preview" := 128000,
    "gpt-4-0125-preview" := 128000,
    "gpt-4-vision-preview" := 128000,
    "gpt-4-turbo-2024-04-09" := 128000,
    "gpt-4o" := 128000,
    "gpt-4o-2024-05-13" := 128000,
    "gpt-4o-mini" := 128000,
    "gpt-4o-mini-2024-07-18" := 128000
  ]

  /** Models that accept the `tools` request parameter. */
  const SupportsTools: seq<string> := [
    "gpt-3.5-turbo-1106",
    "gpt-3.5-turbo-0125",
    "gpt-4-turbo",
    "gpt-4-turbo-preview",
    "gpt-4-0125-preview",
    "gpt-4-1106-preview",
    "gpt-4o",
    "gpt-4o-2024-05-13",
    "gpt-4o-mini",
    "gpt-4o-mini-2024-07-18"
  ]

  /** Attachment extensions read as text; the list has repeated entries. */
  const ReadExtensions: seq<string> := [
    ".txt", ".py", ".json", ".yml", ".yaml", ".xml", ".html", ".ini", ".css",
    ".toml", ".md", ".ini", ".conf", ".config", ".cfg", ".go", ".java", ".c",
    ".php", ".swift", ".vb", ".xhtml", ".rss", ".css", ".asp", ".js", ".ts",
    ".cs", ".c++", ".cpp", ".cbp", ".h", ".cc", ".ps1", ".bat", ".batch",
    ".shell", ".env", ".sh", ".bat", ".pde", ".spec", ".sql"
  ]

  /** A parameter description `{"type": t, "description": d}`. */
  function Param(t: string, d: string): Json
  {
    JObject(map["type" := JString(t), "description" := JString(d)])
  }

  /** A parameter description restricted to an enumeration of strings. */
  function EnumParam(t: string, values: seq<string>, d: string): Json
  {
    JObject(map[
      "type" := JString(t),
      "enum" := JArray(seq(|values|, i requires 0 <= i < |values| => JString(values[i]))),
      "description" := JString(d)])
  }

  const GenerateImage: Schema := map[
    "name" := JString("generate_image"),
    "description" := JString("Use this to generate an image from a text prompt."),
    "parameters" := JObject(map[
      "type" := JString("object"),
      "properties" := JObject(map[
        "prompt" := Param("string", "A sentence or phrase that describes what you want to visualize, must be less than 1000 characters"),
        "quality" := EnumParam("string", ["standard", "hd"], "The quality of the image, defaults to standard"),
        "style" := EnumParam("string", ["natural", "vivid"], "Vivid leans toward more hyper-real and dramatic images. Natural creates more natural, less hyper-real looking images. Defaults to 'vivid'"),
        "size" := EnumParam("string", ["1024x1024", "1792x1024", "1024x1792"], "The size of the image, defaults to 1024x1024")
      ]),
      "required" := JArray([JString("prompt")])
    ])
  ]

  const SearchInternet: Schema := map[
    "name" := JString("search_internet"),
    "description" := JString("Use this to search the internet for information."),
    "parameters" := JObject(map[
      "type" := JString("object"),
      "properties" := JObject(map[
        "search_query" := Param("string", "a sentence or phrase that describes what you are looking for"),
        "amount" := Param("integer", "Max amount of search results to fetch. Defaults to 10")
      ]),
      "required" := JArray([JString("search_query")])
    ])
  ]

  const CreateMemory: Schema := map[
    "name" := JString("create_memory"),
    "description" := JString("Use this to remember information that you normally wouldnt have access to. Useful when someone corrects you, tells you something new, or tells you to remember something. Use the search_memories function first to ensure no duplicates are created."),
    "parameters" := JObject(map[
      "type" := JString("object"),
      "properties" := JObject(map[
        "memory_name" := Param("string", "A short name to describe the memory, perferrably less than 50 characters or 3 words tops"),
        "memory_text" := Param("string", "The information to remember, write as if you are informing yourself of the thing to remember, Make sure to include the context of the conversation as well as the answer or important information to be retained")
      ]),
      "required" := JArray([JString("memory_name"), JString("memory_text")])
    ])
  ]

  const SearchMemories: Schema := map[
    "name" := JString("search_memories"),
    "description" := JString("Use this to find information about something, always use this if you are unsure about the answer to a question."),
    "parameters" := JObject(map[
      "type" := JString("object"),
      "properties" := JObject(map[
        "search_query" := Param("string", "a sentence or phrase that describes what you are looking for, this should be as specific as possible, it will be tokenized to find the best match with related embeddings."),
        "amount" := Param("integer", "Max amount of memories to fetch. Defaults to 2")
      ]),
      "required" := JArray([JString("search_query")])
    ])
  ]

  const EditMemory: Schema := map[
    "name" := JString("edit_memory"),
    "description" := JString("Use this to edit existing memories, useful for correcting inaccurate memories after making them. Use search_memories first if the memory you need to edit is not in the conversation."),
    "parameters" := JObject(map[
      "type" := JString("object"),
      "properties" := JObject(map[
        "memory_name" := Param("string", "The name of the memory entry, case sensitive"),
        "memory_text" := Param("string", "The new text that will replace the current content of the memory, this should reflect the old memory with the corrections")
      ]),
      "required" := JArray([JString("memory_name"), JString("memory_text")])
    ])
  ]

  const ListMemories: Schema := map[
    "name" := JString("list_memories"),
    "description" := JString("Get a list of all your available memories"),
    "parameters" := JObject(map[
      "type" := JString("object"),
      "properties" := JObject(map[])
    ])
  ]

  /** Every element of a JSON array is a string naming a key of `props`. */
  predicate NamesKeysOf(items: seq<Json>, props: map<string, Json>)
  {
    forall i :: 0 <= i < |items| ==> items[i].JString? && items[i].s in props
  }

  /**
   * The shape a tool schema must have for the model vendor: a string name,
   * a string description, and an object `parameters` of type "object" with
   * an object of `properties`; an optional `required` array lists only
   * names among those properties.
   */
  predicate IsToolSchema(s: Schema)
  {
    && HasString(s, "name")
    && HasString(s, "description")
    && HasObject(s, "parameters")
    && var p := s["parameters"].fields;
       && "type" in p && p["type"] == JString("object")
       && HasObject(p, "properties")
       && ("required" in p ==> p["required"].JArray? && NamesKeysOf(p["required"].items, p["properties"].fields))
  }

  /** The `name` of a well-formed tool schema. */
  function ToolName(s: Schema): string
    requires IsToolSchema(s)
  {
    s["name"].s
  }

  /** True when every entry of `exts` begins with a dot. */
  predicate AllDotted(exts: seq<string>)
  {
    forall i :: 0 <= i < |exts| ==> |exts[i]| > 0 && exts[i][0] == '.'
  }

  lemma ModelsHavePositiveWindows()
    ensures forall m :: m in Models ==> Models[m] > 0
  {
  }

  lemma ToolModelsAreKnown()
    ensures forall i :: 0 <= i < |SupportsTools| ==> SupportsTools[i] in Models
  {
  }

  lemma ReadExtensionsAreDotted()
    ensures AllDotted(ReadExtensions)
  {
  }

  lemma ReadExtensionsRepeat()
    ensures ReadExtensions[7] == ReadExtensions[11] == ".ini"
    ensures ReadExtensions[8] == ReadExtensions[23] == ".css"
    ensures ReadExtensions[34] == ReadExtensions[39] == ".bat"
  {
  }

  lemma GenerateImageWellFormed()
    ensures IsToolSchema(GenerateImage) && ToolName(GenerateImage) == "generate_image"
  {
  }

  lemma SearchInternetWellFormed()
    ensures IsToolSchema(SearchInternet) && ToolName(SearchInternet) == "search_internet"
  {
  }

  lemma CreateMemoryWellFormed()
    ensures IsToolSchema(CreateMemory) && ToolName(CreateMemory) == "create_memory"
  {
  }

  lemma SearchMemoriesWellFormed()
    ensures IsToolSchema(SearchMemories) && ToolName(SearchMemories) == "search_memories"
  {
  }

  lemma EditMemoryWellFormed()
    ensures IsToolSchema(EditMemory) && ToolName(EditMemory) == "edit_memory"
  {
  }

  lemma ListMemoriesTakesNoArguments()
    ensures IsToolSchema(ListMemories) && ToolName(ListMemories) == "list_memories"
    ensures ListMemories["parameters"].fields["properties"] == JObject(map[])
    ensures "required" !in ListMemories["parameters"].fields
  {
  }
}
