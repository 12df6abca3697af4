/** The path resolver plugin (`resolvePlugin().resolveId`, src/node/plugins/resolve.ts): maps a
    specifier and its importer to a file that exists. */
module ResolvePlugin {
  import opened Wrappers
  import opened Strings
  import opened PosixPath

  datatype ResolveError =
    | MissingImporter                                   // a relative specifier without an importer
    | ModuleNotFound(request: string, basedir: string)  // `resolve.sync` threw

  /** What `resolveId` gives back: `{ id }`, `null`, or an exception. */
  datatype ResolveOutcome = Resolved(id: string) | NotResolved | Thrown(error: ResolveError)

  /** The disk as the resolver sees it: the paths `pathExists` accepts, and Node's
      `resolve.sync(request, { basedir })`, `None` where it throws. */
  datatype FileSystem = FileSystem(files: set<string>, sync: (string, string) -> Option<string>)

  /** `resolve.sync` succeeds on the request and the file it names exists. */
  predicate Hit(fs: FileSystem, request: string, basedir: string)
  {
    fs.sync(request, basedir).Some? && fs.sync(request, basedir).value in fs.files
  }

  /** Extension `k` is the first whose candidate `id + extensions[k]` is a hit. */
  predicate IsFirstHit(fs: FileSystem, id: string, extensions: seq<string>, basedir: string, k: int)
  {
    0 <= k < |extensions| && Hit(fs, id + extensions[k], basedir) &&
    forall j :: 0 <= j < k ==> !Hit(fs, id + extensions[j], basedir)
  }

  /** JavaScript's `!importer`: undefined or the empty string. */
  predicate LacksImporter(importer: Option<string>)
  {
    importer.None? || importer.value == ""
  }

  /** `path.extname(id).length > 1`. */
  predicate HasExtension(id: string)
  {
    |ExtName(id)| > 1
  }

  predicate IsRelative(id: string)
  {
    !IsAbsolute(id) && StartsWith(id, ".")
  }

  method ResolveId(fs: FileSystem, root: string, extensions: seq<string>, id: string, importer: Option<string>)
    returns (r: ResolveOutcome)
    // 1. an absolute path: taken as it is, else under the root, else nothing
    ensures IsAbsolute(id) ==>
              r == if id in fs.files then Resolved(id)
                   else if Join([root, id]) in fs.files then Resolved(Join([root, id]))
                   else NotResolved
    // 2. a relative specifier cannot be resolved without an importer: that is an error
    ensures IsRelative(id) && LacksImporter(importer) ==> r == Thrown(MissingImporter)
    // 2.1 with an extension: one `resolve.sync`, whose failure propagates
    ensures IsRelative(id) && !LacksImporter(importer) && HasExtension(id) ==>
              var basedir := DirName(importer.value);
              r == match fs.sync(id, basedir)
                   case None => Thrown(ModuleNotFound(id, basedir))
                   case Some(p) => if p in fs.files then Resolved(p) else NotResolved
    // 2.2 without one: the first extension whose candidate resolves to an existing file
    ensures IsRelative(id) && !LacksImporter(importer) && !HasExtension(id) ==>
              var basedir := DirName(importer.value);
              && !r.Thrown?
              && (r.Resolved? ==> exists k :: IsFirstHit(fs, id, extensions, basedir, k) &&
                                              r.id == fs.sync(id + extensions[k], basedir).value)
              && (r == NotResolved <==> forall k :: 0 <= k < |extensions| ==> !Hit(fs, id + extensions[k], basedir))
    // 3. anything else, such as a bare package name, is left to other plugins
    ensures !IsAbsolute(id) && !StartsWith(id, ".") ==> r == NotResolved
  {
    if IsAbsolute(id) {
      if id in fs.files {
        return Resolved(id);
      }
      // a url such as /src/main.tsx names a file under the project root
      var rooted := Join([root, id]);
      if rooted in fs.files {
        return Resolved(rooted);
      }
    } else if StartsWith(id, ".") {
      if LacksImporter(importer) {
        return Thrown(MissingImporter);
      }
      var basedir := DirName(importer.value);
      if HasExtension(id) {
        var resolvedId := fs.sync(id, basedir);
        if resolvedId.None? {
          return Thrown(ModuleNotFound(id, basedir));
        }
        if resolvedId.value in fs.files {
          return Resolved(resolvedId.value);
        }
      } else {
        for k := 0 to |extensions|
          invariant forall j :: 0 <= j < k ==> !Hit(fs, id + extensions[j], basedir)
        {
          var withExtension := id + extensions[k];
          var resolvedId := fs.sync(withExtension, basedir);
          if resolvedId.None? {
            continue;  // the exception is caught and the next extension tried
          }
          if resolvedId.value in fs.files {
            assert IsFirstHit(fs, id, extensions, basedir, k);
            return Resolved(resolvedId.value);
          }
        }
      }
    }
    return NotResolved;
  }
}
