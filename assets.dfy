/** The asset plugin's `load` (src/node/plugins/assets.ts): an svg request is answered with a
    JavaScript module whose default export is the asset's path. */
module AssetPlugin {
  import opened Wrappers
  import opened Strings
  import opened Utils
  import opened PluginHooks

  /** `load(id)`: for an svg request, the module `export default "<path>"` where the path
      is the id without query, hash or import marker; nothing otherwise. The file itself is
      not read. */
  function Load(id: string): (r: Option<SourceDescription>)
    ensures r.Some? <==> EndsWith(RemoveImportQuery(CleanUrl(id)), SvgSuffix)
    ensures r.Some? ==> r.value.sourceMap == None
  {
    var cleanedId := RemoveImportQuery(CleanUrl(id));
    if EndsWith(cleanedId, SvgSuffix)
    then Some(SourceDescription("export default \"" + cleanedId + "\"", None))
    else None
  }

  /** The exported path is the id's longest prefix without '?' or '#'. */
  lemma LoadExportsCleanPath(id: string)
    requires Load(id).Some?
    ensures var path := CleanUrl(id);
            && Load(id).value.code == "export default \"" + path + "\""
            && id[..|path|] == path && '?' !in path && '#' !in path
            && EndsWith(path, SvgSuffix)
  {
    RemoveImportQueryAfterClean(id);
  }

  /** A query or a hash on the request does not change the module: "/src/logo.svg?import"
      and "/src/logo.svg" load the same thing. */
  lemma LoadIgnoresSuffix(url: string, sep: char, rest: string)
    requires IsUrlSuffixStart(sep)
    ensures Load(url + [sep] + rest) == Load(url)
  {
    CleanUrlIgnoresSuffix(url, sep, rest);
  }
}
