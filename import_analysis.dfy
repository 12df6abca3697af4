/** The import-rewrite transform (`importAnalysisPlugin().transform`,
    src/node/plugins/importAnalysis.ts): every static import specifier of a JavaScript module
    is rewritten to a url the browser can request, the module's imports are handed to the
    module graph, and application modules get the HMR client prelude. */
module ImportAnalysis {
  import opened Wrappers
  import opened Strings
  import opened PosixPath
  import opened Constants
  import opened Utils
  import opened Json
  import opened ResolvePlugin
  import opened MagicStrings
  import opened ModuleGraphs
  import opened PluginHooks

  /** One entry of the lexer's output: the specifier's range [s, e) in the code and its
      text `n`, absent where the lexer could not read one. */
  datatype ImportSpecifier = ImportSpecifier(s: nat, e: nat, n: Option<string>)

  /** `this.resolve(id, importer)`: the plugin container's resolution of a specifier. */
  type Resolver = (string, string) -> ResolveOutcome

  /** `if (!modSource) continue;` skips an undefined or empty specifier. */
  predicate HasSource(imp: ImportSpecifier)
  {
    imp.n.Some? && imp.n.value != ""
  }

  /** What the lexer promises: ranges inside the code, in ascending order, disjoint, and
      non-empty around a specifier that has a text. */
  predicate WellFormed(code: string, imports: seq<ImportSpecifier>)
  {
    (forall k :: 0 <= k < |imports| ==> imports[k].s <= imports[k].e <= |code|) &&
    (forall k :: 0 <= k < |imports| && HasSource(imports[k]) ==> imports[k].s < imports[k].e) &&
    (forall j, k :: 0 <= j < k < |imports| ==> imports[j].e <= imports[k].s)
  }

  /** The transform only handles JavaScript requests that are not the server's own. */
  predicate Handles(cfg: Config, id: string)
  {
    IsJSRequest(cfg, id) && !IsInternalRequest(cfg, id)
  }

  const NodeModules := "node_modules"

  /** The cache-busting query for a module the graph knows with a positive HMR timestamp. */
  function TimestampQuery(nodes: map<string, ModuleNode>, cleanedId: string): string
  {
    if cleanedId in nodes && nodes[cleanedId].lastHMRTimestamp > 0
    then "?t=" + DecimalString(nodes[cleanedId].lastHMRTimestamp)
    else ""
  }

  /** The transform's inner `resolve`: the url a relative or absolute specifier is rewritten
      to, `NotResolved` when the container resolves nothing, or the container's exception. */
  function ResolveImport(root: string, nodes: map<string, ModuleNode>, resolver: Resolver,
                         spec: string, importer: string): ResolveOutcome
  {
    match resolver(spec, importer)
    case Thrown(err) => Thrown(err)
    case NotResolved => NotResolved
    case Resolved(resolvedId) =>
      Resolved("/" + GetShortName(resolvedId, root) + TimestampQuery(nodes, CleanUrl(resolvedId)))
  }

  /** What the loop does with one specifier: leave it, overwrite it (recording an edge or
      not), or stop on an exception. */
  datatype Action = Keep | Rewrite(url: string, edge: Option<string>) | Abort(error: ResolveError)

  function Classify(cfg: Config, root: string, nodes: map<string, ModuleNode>, resolver: Resolver,
                    id: string, imp: ImportSpecifier): Action
  {
    if !HasSource(imp) then Keep
    else
      var spec := imp.n.value;
      if EndsWith(spec, SvgSuffix) then
        Rewrite(Join([DirName(id), spec]) + ImportQuery, None)
      else if cfg.bareImport(spec) then
        var bundlePath := Join([root, cfg.preBundleDir, spec + ".js"]);
        Rewrite(bundlePath, Some(bundlePath))
      else if StartsWith(spec, ".") || StartsWith(spec, "/") then
        match ResolveImport(root, nodes, resolver, spec, id)
        case Resolved(url) => Rewrite(url, Some(url))
        case NotResolved => Keep
        case Thrown(err) => Abort(err)
      else Keep
  }

  function EdgeSet(edge: Option<string>): set<string>
  {
    if edge.Some? then {edge.value} else {}
  }

  /** The overwrites and import set the loop has produced after a prefix of the specifiers,
      or the exception that stopped it. */
  datatype Plan = Planned(edits: seq<Edit>, edges: set<string>) | PlanAborted(error: ResolveError)

  /** One turn of the loop. */
  function PlanStep(plan: Plan, imp: ImportSpecifier, action: Action): Plan
  {
    match plan
    case PlanAborted(_) => plan
    case Planned(edits, edges) =>
      match action
      case Keep => plan
      case Abort(err) => PlanAborted(err)
      case Rewrite(url, edge) => Planned(edits + [Edit(imp.s, imp.e, url)], edges + EdgeSet(edge))
  }

  function PlanFor(cfg: Config, root: string, nodes: map<string, ModuleNode>, resolver: Resolver,
                   id: string, imports: seq<ImportSpecifier>): Plan
    decreases |imports|
  {
    if |imports| == 0 then Planned([], {})
    else
      var last := imports[|imports| - 1];
      PlanStep(PlanFor(cfg, root, nodes, resolver, id, imports[..|imports| - 1]), last,
           Classify(cfg, root, nodes, resolver, id, last))
  }

  lemma PlanForPrefix(cfg: Config, root: string, nodes: map<string, ModuleNode>, resolver: Resolver,
                      id: string, imports: seq<ImportSpecifier>, i: nat)
    requires i < |imports|
    ensures PlanFor(cfg, root, nodes, resolver, id, imports[..i + 1]) ==
            PlanStep(PlanFor(cfg, root, nodes, resolver, id, imports[..i]), imports[i],
                 Classify(cfg, root, nodes, resolver, id, imports[i]))
  {
    assert imports[..i + 1][..i] == imports[..i];
  }

  /** The two statements prepended to an application module. */
  function HmrPrelude(cfg: Config, url: string): string
  {
    "import { createHotContext as __vite__createHotContext } from \"" + cfg.clientPublicPath + "\";" +
    "import.meta.hot = __vite__createHotContext(" + Stringify(CleanUrl(url)) + ");"
  }

  /** The prelude, for modules outside node_modules only. */
  function Header(cfg: Config, id: string, moduleUrl: string): string
  {
    if Contains(id, NodeModules) then "" else HmrPrelude(cfg, moduleUrl)
  }

  /** Once the loop has thrown, later specifiers do not matter. */
  lemma {:induction false} AbortSticks(cfg: Config, root: string, nodes: map<string, ModuleNode>,
                                       resolver: Resolver, id: string, imports: seq<ImportSpecifier>,
                                       i: nat, err: ResolveError)
    requires i <= |imports|
    requires PlanFor(cfg, root, nodes, resolver, id, imports[..i]) == PlanAborted(err)
    ensures PlanFor(cfg, root, nodes, resolver, id, imports) == PlanAborted(err)
    decreases |imports| - i
  {
    if i < |imports| {
      PlanForPrefix(cfg, root, nodes, resolver, id, imports, i);
      AbortSticks(cfg, root, nodes, resolver, id, imports, i + 1, err);
    } else {
      assert imports[..i] == imports;
    }
  }

  /** The overwrite the loop issues for the specifier at `k`, if any. */
  predicate RewrittenAt(cfg: Config, root: string, nodes: map<string, ModuleNode>, resolver: Resolver,
                        id: string, imports: seq<ImportSpecifier>, k: int, ed: Edit)
    requires 0 <= k < |imports|
  {
    var action := Classify(cfg, root, nodes, resolver, id, imports[k]);
    action.Rewrite? && ed == Edit(imports[k].s, imports[k].e, action.url)
  }

  /** Whether the specifier at `k` adds `e` to the module's import set. */
  predicate RecordedAt(cfg: Config, root: string, nodes: map<string, ModuleNode>, resolver: Resolver,
                       id: string, imports: seq<ImportSpecifier>, k: int, e: string)
    requires 0 <= k < |imports|
  {
    var action := Classify(cfg, root, nodes, resolver, id, imports[k]);
    action.Rewrite? && action.edge == Some(e)
  }

  /** The last turn of a loop that completed: the loop before it completed too, the last
      specifier did not throw, and its overwrite and url (if any) were added. */
  lemma PlanLastStep(cfg: Config, root: string, nodes: map<string, ModuleNode>,
                     resolver: Resolver, id: string, imports: seq<ImportSpecifier>)
    requires |imports| > 0
    requires PlanFor(cfg, root, nodes, resolver, id, imports).Planned?
    ensures var n := |imports| - 1;
            var prev := PlanFor(cfg, root, nodes, resolver, id, imports[..n]);
            var action := Classify(cfg, root, nodes, resolver, id, imports[n]);
            && prev.Planned? && !action.Abort?
            && PlanFor(cfg, root, nodes, resolver, id, imports) ==
               if action.Rewrite?
               then Planned(prev.edits + [Edit(imports[n].s, imports[n].e, action.url)],
                            prev.edges + EdgeSet(action.edge))
               else prev
  {
  }

  /** A loop that completed threw for no specifier. */
  lemma {:induction false} PlanNeverAborts(cfg: Config, root: string, nodes: map<string, ModuleNode>,
                                           resolver: Resolver, id: string, imports: seq<ImportSpecifier>)
    requires PlanFor(cfg, root, nodes, resolver, id, imports).Planned?
    ensures forall k :: 0 <= k < |imports| ==> !Classify(cfg, root, nodes, resolver, id, imports[k]).Abort?
    decreases |imports|
  {
    if |imports| > 0 {
      var n := |imports| - 1;
      PlanLastStep(cfg, root, nodes, resolver, id, imports);
      PlanNeverAborts(cfg, root, nodes, resolver, id, imports[..n]);
      forall k | 0 <= k < n
        ensures imports[..n][k] == imports[k]
      {
      }
    }
  }

  /** A loop that threw did so at the first specifier whose resolution throws, with that
      specifier's exception. */
  lemma {:induction false} PlanAbortsAtFirst(cfg: Config, root: string, nodes: map<string, ModuleNode>,
                                             resolver: Resolver, id: string, imports: seq<ImportSpecifier>)
    requires PlanFor(cfg, root, nodes, resolver, id, imports).PlanAborted?
    ensures exists k :: && 0 <= k < |imports|
                        && Classify(cfg, root, nodes, resolver, id, imports[k])
                           == Abort(PlanFor(cfg, root, nodes, resolver, id, imports).error)
                        && forall j :: 0 <= j < k ==> !Classify(cfg, root, nodes, resolver, id, imports[j]).Abort?
    decreases |imports|
  {
    var n := |imports| - 1;
    var init := imports[..n];
    var err := PlanFor(cfg, root, nodes, resolver, id, imports).error;
    if PlanFor(cfg, root, nodes, resolver, id, init).PlanAborted? {
      PlanAbortsAtFirst(cfg, root, nodes, resolver, id, init);
      var k :| && 0 <= k < n
               && Classify(cfg, root, nodes, resolver, id, init[k]) == Abort(err)
               && forall j :: 0 <= j < k ==> !Classify(cfg, root, nodes, resolver, id, init[j]).Abort?;
      assert init[k] == imports[k];
      forall j | 0 <= j < k
        ensures !Classify(cfg, root, nodes, resolver, id, imports[j]).Abort?
      {
        assert init[j] == imports[j];
      }
    } else {
      PlanNeverAborts(cfg, root, nodes, resolver, id, init);
      forall j | 0 <= j < n
        ensures !Classify(cfg, root, nodes, resolver, id, imports[j]).Abort?
      {
        assert init[j] == imports[j];
      }
      assert Classify(cfg, root, nodes, resolver, id, imports[n]) == Abort(err);
    }
  }

  /** A loop that completed overwrote exactly the ranges of the specifiers it rewrites, each
      with its new url. */
  lemma {:induction false} PlanEdits(cfg: Config, root: string, nodes: map<string, ModuleNode>,
                                     resolver: Resolver, id: string, imports: seq<ImportSpecifier>)
    requires PlanFor(cfg, root, nodes, resolver, id, imports).Planned?
    ensures forall ed :: ed in PlanFor(cfg, root, nodes, resolver, id, imports).edits <==>
              exists k :: 0 <= k < |imports| && RewrittenAt(cfg, root, nodes, resolver, id, imports, k, ed)
    decreases |imports|
  {
    if |imports| > 0 {
      var n := |imports| - 1;
      var init, last := imports[..n], imports[n];
      var prev := PlanFor(cfg, root, nodes, resolver, id, init);
      var plan := PlanFor(cfg, root, nodes, resolver, id, imports);
      var action := Classify(cfg, root, nodes, resolver, id, last);
      PlanLastStep(cfg, root, nodes, resolver, id, imports);
      PlanEdits(cfg, root, nodes, resolver, id, init);
      forall ed | ed in plan.edits
        ensures exists k :: 0 <= k < |imports| && RewrittenAt(cfg, root, nodes, resolver, id, imports, k, ed)
      {
        if ed in prev.edits {
          var k :| 0 <= k < n && RewrittenAt(cfg, root, nodes, resolver, id, init, k, ed);
          assert init[k] == imports[k];
          assert RewrittenAt(cfg, root, nodes, resolver, id, imports, k, ed);
        } else {
          assert RewrittenAt(cfg, root, nodes, resolver, id, imports, n, ed);
        }
      }
      forall ed, k | 0 <= k < |imports| && RewrittenAt(cfg, root, nodes, resolver, id, imports, k, ed)
        ensures ed in plan.edits
      {
        if k < n {
          assert init[k] == imports[k];
          assert RewrittenAt(cfg, root, nodes, resolver, id, init, k, ed);
        } else {
          assert imports[k] == last;
        }
      }
    }
  }

  /** The import set of a loop that completed is exactly the urls recorded by the
      specifiers it rewrites. */
  lemma {:induction false} PlanEdges(cfg: Config, root: string, nodes: map<string, ModuleNode>,
                                     resolver: Resolver, id: string, imports: seq<ImportSpecifier>)
    requires PlanFor(cfg, root, nodes, resolver, id, imports).Planned?
    ensures forall e :: e in PlanFor(cfg, root, nodes, resolver, id, imports).edges <==>
              exists k :: 0 <= k < |imports| && RecordedAt(cfg, root, nodes, resolver, id, imports, k, e)
    decreases |imports|
  {
    if |imports| > 0 {
      var n := |imports| - 1;
      var init, last := imports[..n], imports[n];
      var prev := PlanFor(cfg, root, nodes, resolver, id, init);
      var plan := PlanFor(cfg, root, nodes, resolver, id, imports);
      var action := Classify(cfg, root, nodes, resolver, id, last);
      PlanLastStep(cfg, root, nodes, resolver, id, imports);
      PlanEdges(cfg, root, nodes, resolver, id, init);
      forall e | e in plan.edges
        ensures exists k :: 0 <= k < |imports| && RecordedAt(cfg, root, nodes, resolver, id, imports, k, e)
      {
        if e in prev.edges {
          var k :| 0 <= k < n && RecordedAt(cfg, root, nodes, resolver, id, init, k, e);
          assert init[k] == imports[k];
          assert RecordedAt(cfg, root, nodes, resolver, id, imports, k, e);
        } else {
          assert RecordedAt(cfg, root, nodes, resolver, id, imports, n, e);
        }
      }
      forall e, k | 0 <= k < |imports| && RecordedAt(cfg, root, nodes, resolver, id, imports, k, e)
        ensures e in plan.edges
      {
        if k < n {
          assert init[k] == imports[k];
          assert RecordedAt(cfg, root, nodes, resolver, id, init, k, e);
        } else {
          assert imports[k] == last;
        }
      }
    }
  }

  /** The cache-busting query is present exactly for a known module with a positive
      timestamp, and then it is "?t=" followed by that timestamp in decimal. */
  lemma TimestampQueryReadable(nodes: map<string, ModuleNode>, cleanedId: string)
    ensures var q := TimestampQuery(nodes, cleanedId);
            && (q == "" <==> !(cleanedId in nodes && nodes[cleanedId].lastHMRTimestamp > 0))
            && (q != "" ==>
                  && StartsWith(q, "?t=")
                  && (forall k :: 3 <= k < |q| ==> IsDigit(q[k]))
                  && ParseDecimal(q[3..]) == nodes[cleanedId].lastHMRTimestamp)
  {
    if cleanedId in nodes && nodes[cleanedId].lastHMRTimestamp > 0 {
      var ts := nodes[cleanedId].lastHMRTimestamp;
      var q := TimestampQuery(nodes, cleanedId);
      assert q[3..] == DecimalString(ts);
      DecimalRoundTrip(ts);
    }
  }

  /** A specifier the container resolves to a file under the root is rewritten to that
      file's path from the root, with the cache-busting query of the module it names, and
      the same url is recorded as an import. */
  lemma ResolvedImportRewrite(cfg: Config, rootSegments: seq<string>, nodes: map<string, ModuleNode>,
                              resolver: Resolver, id: string, imp: ImportSpecifier, rest: seq<string>)
    requires AllPlain(rootSegments) && AllPlain(rest) && |rest| > 0
    requires HasSource(imp)
    requires var spec := imp.n.value;
             && !EndsWith(spec, SvgSuffix) && !cfg.bareImport(spec)
             && (StartsWith(spec, ".") || StartsWith(spec, "/"))
             && resolver(spec, id) == Resolved("/" + Glue(rootSegments) + "/" + Glue(rest))
    ensures var resolved := "/" + Glue(rootSegments) + "/" + Glue(rest);
            var url := "/" + Glue(rest) + TimestampQuery(nodes, CleanUrl(resolved));
            Classify(cfg, "/" + Glue(rootSegments), nodes, resolver, id, imp) == Rewrite(url, Some(url))
  {
    ShortNameUnderRoot(rootSegments, rest);
  }

  /** A static asset imported as "./<rel>" from "<dir>/<file>" is rewritten to
      "<dir>/<rel>?import", and recorded as no import. */
  lemma AssetImportRewrite(cfg: Config, root: string, nodes: map<string, ModuleNode>, resolver: Resolver,
                           dir: seq<string>, file: string, imp: ImportSpecifier, rel: seq<string>)
    requires AllPlain(dir) && |dir| > 0 && Plain(file) && AllPlain(rel) && |rel| > 0
    requires imp.n == Some("./" + Glue(rel)) && EndsWith(Glue(rel), SvgSuffix)
    ensures Classify(cfg, root, nodes, resolver, "/" + Glue(dir) + "/" + file, imp) ==
            Rewrite("/" + Glue(dir) + "/" + Glue(rel) + "?import", None)
  {
    var spec := "./" + Glue(rel);
    assert spec[|spec| - |SvgSuffix|..] == Glue(rel)[|Glue(rel)| - |SvgSuffix|..];
    DirNameOfFile(dir, file);
    JoinDotRelative(dir, rel);
  }

  /** A package import "<pkg>" is rewritten to "<root>/<pre-bundle dir>/<pkg>.js", and the
      same path is recorded as an import. */
  lemma PackageImportRewrite(cfg: Config, rootSegments: seq<string>, nodes: map<string, ModuleNode>,
                             resolver: Resolver, id: string, imp: ImportSpecifier,
                             bundleSegments: seq<string>, fileSegments: seq<string>)
    requires AllPlain(rootSegments) && AllPlain(bundleSegments) && AllPlain(fileSegments)
    requires |rootSegments| > 0 && |bundleSegments| > 0 && |fileSegments| > 0
    requires cfg.preBundleDir == Glue(bundleSegments)
    requires HasSource(imp) && cfg.bareImport(imp.n.value) && !EndsWith(imp.n.value, SvgSuffix)
    requires imp.n.value + ".js" == Glue(fileSegments)
    ensures var path := "/" + Glue(rootSegments) + "/" + cfg.preBundleDir + "/" + imp.n.value + ".js";
            Classify(cfg, "/" + Glue(rootSegments), nodes, resolver, id, imp) == Rewrite(path, Some(path))
  {
    JoinAbsolute3(rootSegments, bundleSegments, fileSegments);
    var r, b, f := "/" + Glue(rootSegments), cfg.preBundleDir, imp.n.value;
    assert r + "/" + b + "/" + (f + ".js") == r + "/" + b + "/" + f + ".js";
  }

  /** The HMR prelude imports the client from its public path and names the module by its
      url without query or hash, as a string literal that reads back as exactly that url. */
  lemma PreludeNamesModule(cfg: Config, url: string)
    ensures exists literal ::
              && HmrPrelude(cfg, url) ==
                 "import { createHotContext as __vite__createHotContext } from \"" + cfg.clientPublicPath + "\";" +
                 "import.meta.hot = __vite__createHotContext(" + literal + ");"
              && ParseString(literal) == Some(CleanUrl(url))
  {
    StringifyRoundTrip(CleanUrl(url));
    var literal := Stringify(CleanUrl(url));
    assert HmrPrelude(cfg, url) ==
           "import { createHotContext as __vite__createHotContext } from \"" + cfg.clientPublicPath + "\";" +
           "import.meta.hot = __vite__createHotContext(" + literal + ");";
  }

  /** The inner `resolve` passes the container's exception and its empty answer through
      unchanged, and turns a resolved id into a url from the server root carrying the
      module's timestamp query. */
  lemma ResolveImportOutcome(root: string, nodes: map<string, ModuleNode>, resolver: Resolver,
                             spec: string, importer: string)
    ensures var r := resolver(spec, importer);
            var out := ResolveImport(root, nodes, resolver, spec, importer);
            && (out.Thrown? <==> r.Thrown?)
            && (out.Thrown? ==> out.error == r.error)
            && (out.NotResolved? <==> r.NotResolved?)
            && (out.Resolved? ==> StartsWith(out.id, "/") &&
                                  EndsWith(out.id, TimestampQuery(nodes, CleanUrl(r.id))))
  {
    var r := resolver(spec, importer);
    if r.Resolved? {
      var short := "/" + GetShortName(r.id, root);
      var q := TimestampQuery(nodes, CleanUrl(r.id));
      var u := short + q;
      assert u[..1] == "/";
      assert u[|u| - |q|..] == q;
    }
  }

  /** How one specifier is sorted: an svg asset is the only rewrite that records nothing, a
      recorded import is the url written, only a relative or absolute specifier that is not
      an asset or a package can throw, and a specifier without text is left alone. */
  lemma ClassifyKinds(cfg: Config, root: string, nodes: map<string, ModuleNode>, resolver: Resolver,
                      id: string, imp: ImportSpecifier)
    ensures var a := Classify(cfg, root, nodes, resolver, id, imp);
            && (!HasSource(imp) ==> a == Keep)
            && (HasSource(imp) ==>
                  var spec := imp.n.value;
                  && (a.Rewrite? && a.edge.None? <==> EndsWith(spec, SvgSuffix))
                  && (a.Abort? ==> && !EndsWith(spec, SvgSuffix) && !cfg.bareImport(spec)
                                   && (StartsWith(spec, ".") || StartsWith(spec, "/"))
                                   && resolver(spec, id).Thrown?))
            && (a.Rewrite? && a.edge.Some? ==> a.edge.value == a.url)
  {
  }

  /** Only application code gets the prelude, and then all of it. */
  lemma HeaderForApplicationCode(cfg: Config, id: string, url: string)
    ensures Header(cfg, id, url) == "" <==> Contains(id, NodeModules)
    ensures !Contains(id, NodeModules) ==> Header(cfg, id, url) == HmrPrelude(cfg, url)
  {
  }

  /** The body of the loop for one specifier: an svg asset, a package or a relative or
      absolute path is overwritten in the buffer (a path only when the container resolves
      it), and the resolution's exception is passed on. */
  method RewriteOne(cfg: Config, root: string, nodes: map<string, ModuleNode>, resolver: Resolver,
                    ms: MagicString, id: string, imp: ImportSpecifier)
    returns (action: Action)
    requires ms.Valid() && Frontier(ms.edits, 0) <= imp.s <= imp.e <= |ms.original|
    requires HasSource(imp) ==> imp.s < imp.e
    modifies ms
    ensures action == Classify(cfg, root, nodes, resolver, id, imp)
    ensures ms.Valid() && ms.intro == old(ms.intro)
    ensures action.Rewrite? ==> ms.edits == old(ms.edits) + [Edit(imp.s, imp.e, action.url)]
    ensures !action.Rewrite? ==> ms.edits == old(ms.edits)
  {
    if !HasSource(imp) {
      return Keep;
    }
    var modSource := imp.n.value;

    // a static asset: its path beside the importer, marked as an import
    if EndsWith(modSource, SvgSuffix) {
      var resolvedUrl := Join([DirName(id), modSource]);
      ms.Overwrite(imp.s, imp.e, resolvedUrl + ImportQuery);
      return Rewrite(resolvedUrl + ImportQuery, None);
    }

    if cfg.bareImport(modSource) {
      // a package: its pre-bundled file under the project root
      var bundlePath := Join([root, cfg.preBundleDir, modSource + ".js"]);
      ms.Overwrite(imp.s, imp.e, bundlePath);
      return Rewrite(bundlePath, Some(bundlePath));
    } else if StartsWith(modSource, ".") || StartsWith(modSource, "/") {
      var resolved := ResolveImport(root, nodes, resolver, modSource, id);
      match resolved {
        case Thrown(err) =>
          return Abort(err);
        case NotResolved =>
          return Keep;
        case Resolved(url) =>
          ms.Overwrite(imp.s, imp.e, url);
          return Rewrite(url, Some(url));
      }
    }
    return Keep;
  }

  /** The loop over the lexer's specifiers: each one is overwritten in the buffer as the
      plan says, and the loop stops at the first resolution that throws. */
  method RewriteImports(cfg: Config, root: string, nodes: map<string, ModuleNode>, resolver: Resolver,
                        ms: MagicString, id: string, imports: seq<ImportSpecifier>)
    returns (plan: Plan)
    requires WellFormed(ms.original, imports)
    requires ms.Valid() && ms.intro == "" && ms.edits == []
    modifies ms
    ensures plan == PlanFor(cfg, root, nodes, resolver, id, imports)
    ensures ms.Valid() && ms.intro == ""
    ensures plan.Planned? ==> ms.edits == plan.edits
  {
    var importedModules: set<string> := {};
    ghost var bound: nat := 0;
    for i := 0 to |imports|
      invariant ms.Valid() && ms.intro == ""
      invariant Frontier(ms.edits, 0) <= bound
      invariant i < |imports| ==> bound <= imports[i].s
      invariant PlanFor(cfg, root, nodes, resolver, id, imports[..i]) == Planned(ms.edits, importedModules)
    {
      PlanForPrefix(cfg, root, nodes, resolver, id, imports, i);
      WellFormedAt(ms.original, imports, i);
      var action := RewriteOne(cfg, root, nodes, resolver, ms, id, imports[i]);
      bound := imports[i].e;
      match action {
        case Abort(err) =>
          AbortSticks(cfg, root, nodes, resolver, id, imports, i + 1, err);
          return PlanAborted(err);
        case Keep =>
        case Rewrite(_, edge) =>
          importedModules := importedModules + EdgeSet(edge);
      }
    }
    assert imports[..|imports|] == imports;
    return Planned(ms.edits, importedModules);
  }

  lemma WellFormedPrefix(code: string, imports: seq<ImportSpecifier>, n: nat)
    requires WellFormed(code, imports) && n <= |imports|
    ensures WellFormed(code, imports[..n])
  {
    assert forall k :: 0 <= k < n ==> imports[..n][k] == imports[k];
  }

  /** A specifier lies inside the code, after the ones before it, and ends before the ones
      after it begin. */
  lemma WellFormedAt(code: string, imports: seq<ImportSpecifier>, i: nat)
    requires WellFormed(code, imports) && i < |imports|
    ensures imports[i].s <= imports[i].e <= |code|
    ensures HasSource(imports[i]) ==> imports[i].s < imports[i].e
    ensures i + 1 < |imports| ==> imports[i].e <= imports[i + 1].s
  {
  }

  /** The overwrites the loop plans come in ascending, disjoint order inside the code, as
      the buffer demands: each specifier's range follows the ones before it. */
  lemma {:induction false} PlanOrdered(cfg: Config, root: string, nodes: map<string, ModuleNode>,
                                       resolver: Resolver, id: string, code: string,
                                       imports: seq<ImportSpecifier>)
    requires WellFormed(code, imports)
    ensures var plan := PlanFor(cfg, root, nodes, resolver, id, imports);
            plan.Planned? ==>
              && OrderedFrom(plan.edits, 0, |code|)
              && (|imports| > 0 ==> Frontier(plan.edits, 0) <= imports[|imports| - 1].e)
  {
    var plan := PlanFor(cfg, root, nodes, resolver, id, imports);
    if |imports| > 0 && plan.Planned? {
      var n := |imports| - 1;
      var prefix := imports[..n];
      WellFormedPrefix(code, imports, n);
      PlanOrdered(cfg, root, nodes, resolver, id, code, prefix);
      PlanLastStep(cfg, root, nodes, resolver, id, imports);
      var prev := PlanFor(cfg, root, nodes, resolver, id, prefix);
      WellFormedAt(code, imports, n);
      if n > 0 {
        WellFormedAt(code, imports, n - 1);
        assert prefix[n - 1] == imports[n - 1];
      }
      var action := Classify(cfg, root, nodes, resolver, id, imports[n]);
      if action.Rewrite? {
        OrderedAppend(prev.edits, Edit(imports[n].s, imports[n].e, action.url), 0, |code|);
      }
    }
  }

  /** What the transform returns: `null` for a request it does not handle, the exception of
      the first resolution that throws, or the prelude and the rewritten code. */
  function TransformResult(cfg: Config, root: string, nodes: map<string, ModuleNode>, resolver: Resolver,
                           code: string, id: string, imports: seq<ImportSpecifier>): TransformOutcome
    requires WellFormed(code, imports)
    requires Handles(cfg, id) ==> id in nodes
  {
    if !Handles(cfg, id) then Skipped
    else
      match PlanFor(cfg, root, nodes, resolver, id, imports)
      case PlanAborted(err) => Threw(err)
      case Planned(edits, _) =>
        PlanOrdered(cfg, root, nodes, resolver, id, code, imports);
        Transformed(SourceDescription(Header(cfg, id, nodes[id].url) + Render(code, edits, 0),
                                      Some(GeneratedMap)))
  }

  /** The three outcomes of the transform: `null` exactly for the requests it does not
      handle, an exception exactly when a resolution threw (the first one's), and otherwise
      a module whose code begins with the header and which carries a generated map. */
  lemma TransformResultCases(cfg: Config, root: string, nodes: map<string, ModuleNode>,
                             resolver: Resolver, code: string, id: string,
                             imports: seq<ImportSpecifier>)
    requires WellFormed(code, imports)
    requires Handles(cfg, id) ==> id in nodes
    ensures var out := TransformResult(cfg, root, nodes, resolver, code, id, imports);
            var plan := PlanFor(cfg, root, nodes, resolver, id, imports);
            && (out.Skipped? <==> !Handles(cfg, id))
            && (out.Threw? <==> Handles(cfg, id) && plan.PlanAborted?)
            && (out.Threw? ==> out.error == plan.error)
            && (out.Threw? <==>
                  && Handles(cfg, id)
                  && exists k :: 0 <= k < |imports| && Classify(cfg, root, nodes, resolver, id, imports[k]).Abort?)
            && (out.Threw? ==>
                  exists k :: && 0 <= k < |imports|
                              && Classify(cfg, root, nodes, resolver, id, imports[k]) == Abort(out.error)
                              && forall j :: 0 <= j < k ==> !Classify(cfg, root, nodes, resolver, id, imports[j]).Abort?)
            && (out.Transformed? ==> && out.result.sourceMap == Some(GeneratedMap)
                                     && StartsWith(out.result.code, Header(cfg, id, nodes[id].url)))
  {
    var out := TransformResult(cfg, root, nodes, resolver, code, id, imports);
    if PlanFor(cfg, root, nodes, resolver, id, imports).PlanAborted? {
      PlanAbortsAtFirst(cfg, root, nodes, resolver, id, imports);
    } else {
      PlanNeverAborts(cfg, root, nodes, resolver, id, imports);
    }
    if out.Transformed? {
      var h := Header(cfg, id, nodes[id].url);
      var plan := PlanFor(cfg, root, nodes, resolver, id, imports);
      PlanOrdered(cfg, root, nodes, resolver, id, code, imports);
      var body := Render(code, plan.edits, 0);
      assert (h + body)[..|h|] == h;
    }
  }

  /** A handled module without import specifiers keeps its code, after the header. */
  lemma NoImportsKeepsCode(cfg: Config, root: string, nodes: map<string, ModuleNode>,
                           resolver: Resolver, code: string, id: string)
    requires Handles(cfg, id) && id in nodes
    ensures TransformResult(cfg, root, nodes, resolver, code, id, []) ==
            Transformed(SourceDescription(Header(cfg, id, nodes[id].url) + code, Some(GeneratedMap)))
  {
    assert code[0..] == code;
  }

  method Transform(cfg: Config, root: string, graph: ModuleGraph, resolver: Resolver,
                   code: string, id: string, imports: seq<ImportSpecifier>)
    returns (out: TransformOutcome)
    requires WellFormed(code, imports)
    requires Handles(cfg, id) ==> id in graph.idToModule  // `getModuleById(id)!`
    modifies graph
    ensures graph.idToModule == old(graph.idToModule)
    ensures out == TransformResult(cfg, root, graph.idToModule, resolver, code, id, imports)
    ensures out.Transformed? ==>
              var plan := PlanFor(cfg, root, graph.idToModule, resolver, id, imports);
              && plan.Planned?
              && OrderedFrom(plan.edits, 0, |code|)
              && graph.importsOf == old(graph.importsOf)[id := plan.edges]
    ensures !out.Transformed? ==> graph.importsOf == old(graph.importsOf)
  {
    if !IsJSRequest(cfg, id) || IsInternalRequest(cfg, id) {
      return Skipped;
    }
    var ms := new MagicString(code);
    var curModule := graph.GetModuleById(id).value;
    var plan := RewriteImports(cfg, root, graph.idToModule, resolver, ms, id, imports);
    if plan.PlanAborted? {
      return Threw(plan.error);
    }
    assert OrderedFrom(plan.edits, 0, |code|);

    // only application code gets the HMR client
    if !Contains(id, NodeModules) {
      ms.Prepend(HmrPrelude(cfg, curModule.url));
    }
    assert ms.intro == Header(cfg, id, curModule.url) && ms.edits == plan.edits;
    graph.UpdateModuleInfo(id, plan.edges);
    var text := ms.ToString();
    return Transformed(SourceDescription(text, Some(GeneratedMap)));
  }

  /** Transforming unchanged code for the same module again gives the same result and the
      same import set: the graph's set for the module is replaced, never extended. */
  method TransformTwice(cfg: Config, root: string, graph: ModuleGraph, resolver: Resolver,
                        code: string, id: string, imports: seq<ImportSpecifier>)
    returns (first: TransformOutcome, second: TransformOutcome)
    requires WellFormed(code, imports)
    requires Handles(cfg, id) ==> id in graph.idToModule
    modifies graph
    ensures first == second
    ensures graph.idToModule == old(graph.idToModule)
    ensures first == TransformResult(cfg, root, graph.idToModule, resolver, code, id, imports)
    ensures first.Transformed? ==>
              var plan := PlanFor(cfg, root, graph.idToModule, resolver, id, imports);
              plan.Planned? && graph.importsOf == old(graph.importsOf)[id := plan.edges]
    ensures !first.Transformed? ==> graph.importsOf == old(graph.importsOf)
  {
    first := Transform(cfg, root, graph, resolver, code, id, imports);
    second := Transform(cfg, root, graph, resolver, code, id, imports);
  }

  /** `null`, `{ code, map }`, or the exception of a resolution. */
  datatype TransformOutcome = Skipped | Transformed(result: SourceDescription) | Threw(error: ResolveError)
}
