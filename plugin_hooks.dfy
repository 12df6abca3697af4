/** What the plugin hooks hand back to the plugin container. */
module PluginHooks {
  import opened Wrappers

  /** The source map MagicString generates; its contents are not modelled. */
  datatype SourceMap = GeneratedMap

  /** `{ code, map }` (the map as `sourceMap`) as returned by a `load` or `transform` hook. */
  datatype SourceDescription = SourceDescription(code: string, sourceMap: Option<SourceMap>)
}
