/** The entities that composition, caching and layering exchange. */
module Models {
  import opened Wrappers

  type byte = b: int | 0 <= b < 256
  type Bytes = seq<byte>

  datatype Answer =
    | StringAnswer(text: string)
    | StringArrayAnswer(items: seq<string>)
    | BoolAnswer(flag: bool)
  {
    /** Same enum variant, whatever the payload. */
    predicate SameKind(other: Answer) {
      StringAnswer? == other.StringAnswer? && BoolAnswer? == other.BoolAnswer?
    }
  }

  type Answers = map<string, Answer>
  type States = map<string, string>

  datatype Json =
    | JsonNull
    | JsonBool(flag: bool)
    | JsonNumber(repr: string)
    | JsonString(text: string)
    | JsonArray(items: seq<Json>)
    | JsonObject(fields: seq<(string, Json)>)

  /** Docker images of a published template; group and dev templates have none. */
  datatype Images = Images(blobReference: string, blobTag: string, templateReference: string, templateTag: string)

  datatype Artifact = Artifact(id: string, version: int, dockerReference: string, dockerTag: string)

  datatype DependencyRef = DependencyRef(id: string, presetAnswers: map<string, Json>)

  datatype ResolverInstance = ResolverInstance(id: string, dockerRef: string, dockerTag: string,
                                               config: Json, filePatterns: seq<string>)

  datatype Template = Template(id: string, version: int, properties: Option<Images>,
                               plugins: seq<Artifact>, processors: seq<Artifact>,
                               templates: seq<DependencyRef>, resolvers: seq<ResolverInstance>)

  /** A dependency with the preset answers its parents declare for it. */
  datatype ResolvedDependency = ResolvedDependency(template: Template, presetAnswers: Answers)

  type FilePath = string

  /** An in-memory file system: relative path to contents. */
  type Vfs = map<FilePath, Bytes>
}
