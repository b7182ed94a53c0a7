/** The parts of a webpack compilation that the manifest plugin reads, as
    plain data, and the three values it imports from `next-server/constants`. */
module Graph {
  import opened Wrappers

  /** A chunk: `chunk.name` and `chunk.files` may each be absent. */
  datatype Chunk = Chunk(name: Option<string>, files: Option<seq<string>>)

  /** An entry point of `compilation.entrypoints`, with its chunks in order. */
  datatype EntryPoint = EntryPoint(name: string, chunks: seq<Chunk>)

  /** `compilation.chunks`, the keys of `compilation.assets` in the order
      `Object.keys` gives them, and the values of `compilation.entrypoints` in
      insertion order. */
  datatype Compilation = Compilation(chunks: seq<Chunk>, assetKeys: seq<string>, entryPoints: seq<EntryPoint>)

  /** `ROUTE_NAME_REGEX.exec(name)`, reduced to its first capture group (None
      when there is no match or the group did not take part),
      `IS_BUNDLED_PAGE_REGEX.exec(file)` reduced to whether it matched, and
      `CLIENT_STATIC_FILES_RUNTIME_MAIN`. */
  datatype Constants = Constants(routeOf: string -> Option<string>, isBundledPage: string -> bool, mainName: string)
}
