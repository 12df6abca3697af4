/** The module graph as the import rewrite sees it. The graph's own source is not part of
    this model: a node is looked up by id, and `updateModuleInfo` records the import set it is
    handed (how the graph turns that set into edges is not modelled). */
module ModuleGraphs {
  import opened Wrappers

  /** The fields of a module node the import rewrite reads. */
  datatype ModuleNode = ModuleNode(url: string, lastHMRTimestamp: int)

  class ModuleGraph {
    var idToModule: map<string, ModuleNode>
    var importsOf: map<string, set<string>>

    constructor (nodes: map<string, ModuleNode>)
      ensures idToModule == nodes && importsOf == map[]
    {
      idToModule := nodes;
      importsOf := map[];
    }

    /** `getModuleById(id)`. */
    function GetModuleById(id: string): (r: Option<ModuleNode>)
      reads this
      ensures r.Some? <==> id in idToModule
      ensures r.Some? ==> r.value == idToModule[id]
    {
      if id in idToModule then Some(idToModule[id]) else None
    }

    /** `updateModuleInfo(module, importedModules)`. */
    method UpdateModuleInfo(id: string, importedModules: set<string>)
      requires id in idToModule
      modifies this
      ensures idToModule == old(idToModule)
      ensures importsOf == old(importsOf)[id := importedModules]
    {
      importsOf := importsOf[id := importedModules];
    }
  }
}
