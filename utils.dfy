/** The url and path helpers of the dev server (src/node/utils.ts). */
module Utils {
  import opened Strings
  import opened PosixPath
  import opened Constants

  /** True of the characters at which `cleanUrl` cuts a url. */
  predicate IsUrlSuffixStart(c: char)
  {
    c == '?' || c == '#'
  }

  /** `cleanUrl`: drops the hash (`/#.*$/s`) and then the query (`/\?.*$/s`). The result is
      the longest prefix of the url holding neither '?' nor '#'. */
  function CleanUrl(url: string): (r: string)
    ensures |r| <= |url| && r == url[..|r|]
    ensures '?' !in r && '#' !in r
    ensures |r| < |url| ==> IsUrlSuffixStart(url[|r|])
  {
    CutAt(CutAt(url, '#'), '?')
  }

  lemma CleanUrlIdempotent(url: string)
    ensures CleanUrl(CleanUrl(url)) == CleanUrl(url)
  {
  }

  /** Appending a query or a hash to a url does not change its cleaned form. */
  lemma CleanUrlIgnoresSuffix(url: string, sep: char, rest: string)
    requires IsUrlSuffixStart(sep)
    ensures CleanUrl(url + [sep] + rest) == CleanUrl(url)
  {
    var tail := [sep] + rest;
    assert url + [sep] + rest == url + tail;
    if '#' in url {
      CutAtAppendIn(url, tail, '#');
    } else {
      CutAtAppendOut(url, tail, '#');
      CutAtAbsent(url, '#');
      var t := CutAt(tail, '#');
      assert |t| > 0 ==> t[0] == '?';
      if '?' in url {
        CutAtAppendIn(url, t, '?');
      } else {
        CutAtAppendOut(url, t, '?');
        if |t| > 0 {
          CutAtFirst(t, '?');
        }
        CutAtAbsent(url, '?');
      }
    }
  }

  /** `isJSRequest`: the cleaned id matches JS_TYPES_RE, or it has no extension and is not a
      directory url. */
  predicate IsJSRequest(cfg: Config, id: string)
  {
    var cleaned := CleanUrl(id);
    cfg.jsTypes(cleaned) || (ExtName(cleaned) == "" && !EndsWith(cleaned, "/"))
  }

  /** `isCSSRequest`. */
  predicate IsCSSRequest(id: string)
  {
    EndsWith(CleanUrl(id), ".css")
  }

  /** Both request classifiers look through a query or a hash. */
  lemma RequestKindIgnoresSuffix(cfg: Config, url: string, sep: char, rest: string)
    requires IsUrlSuffixStart(sep)
    ensures IsJSRequest(cfg, url + [sep] + rest) == IsJSRequest(cfg, url)
    ensures IsCSSRequest(url + [sep] + rest) == IsCSSRequest(url)
  {
    CleanUrlIgnoresSuffix(url, sep, rest);
  }

  /** A url whose path has no '.' and is not a directory is a JavaScript request, whatever
      JS_TYPES_RE says: the extension-less branch of `isJSRequest`. */
  lemma ExtensionlessIsJS(cfg: Config, id: string)
    requires '.' !in CleanUrl(id) && !EndsWith(CleanUrl(id), "/")
    ensures IsJSRequest(cfg, id)
  {
    NoDotNoExtension(CleanUrl(id));
  }

  /** A directory url is a JavaScript request only when JS_TYPES_RE accepts it. */
  lemma DirectoryNeedsJSType(cfg: Config, id: string)
    requires EndsWith(CleanUrl(id), "/")
    ensures IsJSRequest(cfg, id) <==> cfg.jsTypes(CleanUrl(id))
  {
  }

  /** A path followed by an optional query or hash is a CSS request iff the path ends in
      `.css`. */
  lemma CssRequestOfPath(path: string, suffix: string)
    requires '?' !in path && '#' !in path
    requires suffix == [] || IsUrlSuffixStart(suffix[0])
    ensures IsCSSRequest(path + suffix) <==> EndsWith(path, ".css")
  {
    CutAtAbsent(path, '#');
    CutAtAbsent(path, '?');
    if suffix == [] {
      assert path + suffix == path;
    } else {
      assert path + suffix == path + [suffix[0]] + suffix[1..];
      CleanUrlIgnoresSuffix(path, suffix[0], suffix[1..]);
    }
  }

  /** The one kind of static asset the server serves as a module. */
  const SvgSuffix := ".svg"

  const ImportQuery := "?import"

  /** `isImportRequest`. */
  predicate IsImportRequest(url: string)
  {
    EndsWith(url, ImportQuery)
  }

  /** `removeImportQuery`: removes one trailing "?import" and nothing else. */
  function RemoveImportQuery(url: string): (r: string)
    ensures IsImportRequest(url) ==> r + ImportQuery == url
    ensures !IsImportRequest(url) ==> r == url
  {
    if IsImportRequest(url) then url[..|url| - |ImportQuery|] else url
  }

  /** Marking a url as an import makes it an import request, and removing the mark gives
      the url back. */
  lemma ImportQueryRoundTrip(url: string)
    ensures IsImportRequest(url + ImportQuery)
    ensures RemoveImportQuery(url + ImportQuery) == url
  {
    var u := url + ImportQuery;
    assert u[|u| - |ImportQuery|..] == ImportQuery;
    assert u[..|u| - |ImportQuery|] == url;
  }

  /** A cleaned url is never an import request. */
  lemma CleanUrlIsNotImportRequest(url: string)
    ensures !IsImportRequest(CleanUrl(url))
  {
    SuffixCharsOccur(CleanUrl(url), ImportQuery);
    assert ImportQuery[0] == '?';
  }

  /** A url already cleaned has no import query left to remove. */
  lemma RemoveImportQueryAfterClean(url: string)
    ensures RemoveImportQuery(CleanUrl(url)) == CleanUrl(url)
  {
    var c := CleanUrl(url);
    SuffixCharsOccur(c, ImportQuery);
    assert ImportQuery[0] == '?';
  }

  /** `getShortName`: the path relative to `root` for a file under `root + "/"`, otherwise the
      file itself. */
  function GetShortName(file: string, root: string): (r: string)
    ensures !StartsWith(file, root + "/") ==> r == file
  {
    if StartsWith(file, root + "/") then Relative(root, file) else file
  }

  /** For a normalised root and a normalised path below it, the short name is the part of the
      path after `root + "/"`. */
  lemma {:induction false} ShortNameUnderRoot(rootSegments: seq<string>, rest: seq<string>)
    requires AllPlain(rootSegments) && AllPlain(rest) && |rest| > 0
    ensures var root := "/" + Glue(rootSegments);
            GetShortName(root + "/" + Glue(rest), root) == Glue(rest)
  {
    var root := "/" + Glue(rootSegments);
    var file := root + "/" + Glue(rest);
    assert file[..|root + "/"|] == root + "/";
    ResolvedAbsolute(rootSegments);
    ResolvedUnder(rootSegments, rest);
    var f, t := rootSegments, rootSegments + rest;
    var k := CommonPrefixLength(f, t);
    assert t[..|f|] == f;
    assert k == |f|;
    assert Repeat("..", 0) + t[k..] == rest;
  }

  const ReactRefreshPath := "/@react-refresh"

  /** `isInternalRequest`: exact membership in [CLIENT_PUBLIC_PATH, "/@react-refresh"]. */
  predicate IsInternalRequest(cfg: Config, url: string)
  {
    url in [cfg.clientPublicPath, ReactRefreshPath]
  }

  /** An internal url with a query appended is no longer internal. */
  lemma QueriedUrlIsNotInternal(cfg: Config, url: string, query: string)
    requires '?' !in cfg.clientPublicPath
    ensures !IsInternalRequest(cfg, url + "?" + query)
  {
    var u := url + "?" + query;
    assert u[|url|] == '?';
    assert '?' !in ReactRefreshPath;
  }
}
