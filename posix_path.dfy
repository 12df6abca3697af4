/** The part of Node's `path` module (POSIX flavour) the dev server relies on: `join`,
    `normalize`, `dirname`, `extname`, `isAbsolute` and `relative`, written out segment by
    segment after Node's own algorithms. */
module PosixPath {
  import opened Strings

  /** Splits at every '/', keeping empty segments: "/a//b" gives ["", "a", "", "b"]. */
  function Split(p: string): (segs: seq<string>)
    ensures |segs| > 0
    decreases |p|
  {
    var i := FirstIndexOf(p, '/');
    if i == |p| then [p] else [p[..i]] + Split(p[i + 1..])
  }

  /** Puts segments back together with '/' between them. */
  function Glue(segs: seq<string>): string
  {
    if |segs| == 0 then ""
    else if |segs| == 1 then segs[0]
    else segs[0] + "/" + Glue(segs[1..])
  }

  /** With no '/' in `a`, the first '/' of `a + "/" + b` is the one joining them. */
  lemma SlashAfterWhole(a: string, b: string)
    requires FirstIndexOf(a, '/') == |a|
    ensures FirstIndexOf(a + "/" + b, '/') == |a|
    ensures (a + "/" + b)[..|a|] == a && (a + "/" + b)[|a| + 1..] == b
  {
    var sb := "/" + b;
    assert a + "/" + b == a + sb;
    assert '/' !in a;
    FirstIndexOfAppend(a, sb, '/');
    assert FirstIndexOf(sb, '/') == 0;
    ConcatSlices(a, sb, |a|);
    assert a[..|a|] == a;
  }

  /** Otherwise the first '/' of `a` comes first. */
  lemma SlashAfterFirst(a: string, b: string, i: nat)
    requires FirstIndexOf(a, '/') == i < |a|
    ensures FirstIndexOf(a + "/" + b, '/') == i
    ensures (a + "/" + b)[..i] == a[..i] && (a + "/" + b)[i + 1..] == a[i + 1..] + "/" + b
  {
    var sb := "/" + b;
    assert a + "/" + b == a + sb;
    assert a[i] == '/';
    FirstIndexOfAppend(a, sb, '/');
    ConcatSlices(a, sb, i + 1);
    assert (a + sb)[..i] == (a + sb)[..i + 1][..i];
    assert a[..i] == a[..i + 1][..i];
    assert a[i + 1..] + sb == a[i + 1..] + "/" + b;
  }

  lemma SplitWhole(p: string)
    requires FirstIndexOf(p, '/') == |p|
    ensures Split(p) == [p]
  {
  }

  lemma SplitFirst(p: string, i: nat)
    requires FirstIndexOf(p, '/') == i < |p|
    ensures Split(p) == [p[..i]] + Split(p[i + 1..])
  {
  }

  lemma {:induction false} SplitConcat(a: string, b: string)
    ensures Split(a + "/" + b) == Split(a) + Split(b)
    decreases |a|
  {
    var i := FirstIndexOf(a, '/');
    var p := a + "/" + b;
    if i < |a| {
      var rest := a[i + 1..];
      SlashAfterFirst(a, b, i);
      SplitFirst(p, i);
      SplitFirst(a, i);
      SplitConcat(rest, b);
      calc {
        Split(p);
        [a[..i]] + Split(rest + "/" + b);
        [a[..i]] + (Split(rest) + Split(b));
        { SeqAssoc([a[..i]], Split(rest), Split(b)); }
        ([a[..i]] + Split(rest)) + Split(b);
        Split(a) + Split(b);
      }
    } else {
      SlashAfterWhole(a, b);
      SplitFirst(p, i);
      SplitWhole(a);
    }
  }

  lemma SeqAssoc(x: seq<string>, y: seq<string>, z: seq<string>)
    ensures x + (y + z) == (x + y) + z
  {
  }

  lemma {:induction false} SplitGlue(segs: seq<string>)
    requires |segs| > 0
    requires forall k :: 0 <= k < |segs| ==> '/' !in segs[k]
    ensures Split(Glue(segs)) == segs
    decreases |segs|
  {
    if |segs| == 1 {
      assert FirstIndexOf(segs[0], '/') == |segs[0]|;
    } else {
      SplitConcat(segs[0], Glue(segs[1..]));
      SplitGlue([segs[0]]);
      SplitGlue(segs[1..]);
      assert segs == [segs[0]] + segs[1..];
    }
  }

  /** A segment that normalisation keeps as it is. */
  predicate Plain(seg: string)
  {
    seg != "" && seg != "." && seg != ".." && '/' !in seg
  }

  predicate AllPlain(segs: seq<string>)
  {
    forall k :: 0 <= k < |segs| ==> Plain(segs[k])
  }

  /** One step of Node's `normalizeString`: "" and "." vanish, ".." removes the last kept
      segment (or is kept itself when there is none and the path may climb above its start). */
  function NormalizeStep(acc: seq<string>, seg: string, absolute: bool): seq<string>
  {
    if seg == "" || seg == "." then acc
    else if seg == ".." then
      if |acc| > 0 && acc[|acc| - 1] != ".." then acc[..|acc| - 1]
      else if absolute then acc
      else acc + [".."]
    else acc + [seg]
  }

  function NormalizeFrom(acc: seq<string>, segs: seq<string>, absolute: bool): seq<string>
    decreases |segs|
  {
    if |segs| == 0 then acc else NormalizeFrom(NormalizeStep(acc, segs[0], absolute), segs[1..], absolute)
  }

  function NormalizeSegments(segs: seq<string>, absolute: bool): seq<string>
  {
    NormalizeFrom([], segs, absolute)
  }

  lemma {:induction false} NormalizeFromAppend(acc: seq<string>, a: seq<string>, b: seq<string>, absolute: bool)
    ensures NormalizeFrom(acc, a + b, absolute) == NormalizeFrom(NormalizeFrom(acc, a, absolute), b, absolute)
    decreases |a|
  {
    if |a| > 0 {
      assert (a + b)[1..] == a[1..] + b;
      NormalizeFromAppend(NormalizeStep(acc, a[0], absolute), a[1..], b, absolute);
    } else {
      assert a + b == b;
    }
  }

  lemma {:induction false} NormalizeFromPlain(acc: seq<string>, segs: seq<string>, absolute: bool)
    requires AllPlain(segs)
    ensures NormalizeFrom(acc, segs, absolute) == acc + segs
    decreases |segs|
  {
    if |segs| > 0 {
      NormalizeFromPlain(acc + [segs[0]], segs[1..], absolute);
      assert acc + [segs[0]] + segs[1..] == acc + segs;
    }
  }

  predicate IsAbsolute(p: string)
  {
    |p| > 0 && p[0] == '/'
  }

  /** `path.normalize`. */
  function Normalize(p: string): string
  {
    if |p| == 0 then "."
    else
      var absolute := p[0] == '/';
      var trailing := p[|p| - 1] == '/';
      var body := Glue(NormalizeSegments(Split(p), absolute));
      var body' := if body == "" && !absolute then "." else body;
      var body'' := if body' != "" && trailing then body' + "/" else body';
      if absolute then "/" + body'' else body''
  }

  function NonEmpty(parts: seq<string>): (r: seq<string>)
    ensures forall k :: 0 <= k < |r| ==> r[k] != ""
  {
    if |parts| == 0 then []
    else (if parts[0] == "" then [] else [parts[0]]) + NonEmpty(parts[1..])
  }

  /** `path.join(...parts)`: the non-empty parts glued with '/', then normalised. */
  function Join(parts: seq<string>): string
  {
    var kept := NonEmpty(parts);
    if |kept| == 0 then "." else Normalize(Glue(kept))
  }

  /** Position of the '/' that ends the directory part, scanning down from `i`, trailing
      slashes skipped; -1 when there is none at an index of 1 or more. */
  function DirEnd(p: string, i: int, matchedSlash: bool): (e: int)
    requires 0 <= i < |p|
    ensures -1 <= e <= i
    decreases i + 1
  {
    if i < 1 then -1
    else if p[i] == '/' then (if !matchedSlash then i else DirEnd(p, i - 1, matchedSlash))
    else DirEnd(p, i - 1, false)
  }

  /** `path.dirname`. */
  function DirName(p: string): string
  {
    if |p| == 0 then "."
    else
      var hasRoot := p[0] == '/';
      var e := DirEnd(p, |p| - 1, true);
      if e == -1 then (if hasRoot then "/" else ".")
      else if hasRoot && e == 1 then "//"
      else p[..e]
  }

  function TrimTrailingSlashes(p: string): (r: string)
    ensures |r| <= |p| && r == p[..|r|]
  {
    if |p| > 0 && p[|p| - 1] == '/' then TrimTrailingSlashes(p[..|p| - 1]) else p
  }

  /** Index of the last `c` in `s`, or -1. */
  function LastIndexOf(s: string, c: char): (r: int)
    ensures -1 <= r < |s|
    ensures r >= 0 ==> s[r] == c
    ensures forall k :: r < k < |s| ==> s[k] != c
  {
    if |s| == 0 then -1
    else if s[|s| - 1] == c then |s| - 1
    else LastIndexOf(s[..|s| - 1], c)
  }

  /** The last path segment, trailing slashes ignored. */
  function BaseSegment(p: string): (b: string)
    ensures '/' !in b
  {
    var q := TrimTrailingSlashes(p);
    SplitLastIsSuffix(q);
    Split(q)[|Split(q)| - 1]
  }

  /** The last segment of a split is the part of the string after its last '/'. */
  lemma {:induction false} SplitLastIsSuffix(q: string)
    ensures var b := Split(q)[|Split(q)| - 1];
            && EndsWith(q, b) && '/' !in b
            && (|b| < |q| ==> q[|q| - |b| - 1] == '/')
    decreases |q|
  {
    var i := FirstIndexOf(q, '/');
    if i < |q| {
      var rest := q[i + 1..];
      SplitFirst(q, i);
      SplitLastIsSuffix(rest);
      var b := Split(rest)[|Split(rest)| - 1];
      assert Split(q)[|Split(q)| - 1] == b;
      EndsWithTail(q, i, b);
    } else {
      SplitWhole(q);
      assert q[|q| - |q|..] == q;
    }
  }

  /** A suffix of the part after position `i` is a suffix of the whole, and the character
      before it is either `q[i]` or the one before it in that part. */
  lemma EndsWithTail(q: string, i: nat, b: string)
    requires i < |q| && EndsWith(q[i + 1..], b)
    ensures EndsWith(q, b)
    ensures var rest := q[i + 1..];
            |b| < |rest| ==> q[|q| - |b| - 1] == rest[|rest| - |b| - 1]
    ensures |b| == |q| - i - 1 ==> q[|q| - |b| - 1] == q[i]
  {
    var rest := q[i + 1..];
    assert q[|q| - |b|..] == rest[|rest| - |b|..];
  }

  /** `path.extname`: from the last '.' of the last segment to its end; empty when that
      segment has no '.', starts with its only counted '.', or is "..". */
  function ExtName(p: string): string
  {
    var b := BaseSegment(p);
    var d := LastIndexOf(b, '.');
    if d <= 0 || b == ".." then "" else b[d..]
  }

  /** A path with no '.' anywhere has no extension. */
  lemma NoDotNoExtension(p: string)
    requires '.' !in p
    ensures ExtName(p) == ""
  {
    var q := TrimTrailingSlashes(p);
    SplitLastIsSuffix(q);
    var b := BaseSegment(p);
    SuffixCharsOccur(q, b);
    assert '.' !in b by {
      forall k | 0 <= k < |b| ensures b[k] != '.' {
        assert b[k] in q;
      }
    }
  }

  /** A path ending in a bare '.' has an extension of at most that '.', which the resolver
      does not count as an extension. */
  lemma TrailingDotIsNoExtension(p: string)
    requires |p| > 0 && p[|p| - 1] == '.'
    ensures |ExtName(p)| <= 1
  {
    assert TrimTrailingSlashes(p) == p;
    SplitLastIsSuffix(p);
    var b := BaseSegment(p);
    assert b == Split(p)[|Split(p)| - 1];
    assert |b| > 0;
    assert b[|b| - 1] == p[|p| - |b|..][|b| - 1] == p[|p| - 1];
    assert LastIndexOf(b, '.') == |b| - 1;
  }

  function Repeat(s: string, n: nat): (r: seq<string>)
    ensures |r| == n
  {
    if n == 0 then [] else [s] + Repeat(s, n - 1)
  }

  function CommonPrefixLength(a: seq<string>, b: seq<string>): (n: nat)
    ensures n <= |a| && n <= |b|
    ensures a[..n] == b[..n]
    ensures n < |a| && n < |b| ==> a[n] != b[n]
  {
    if |a| == 0 || |b| == 0 || a[0] != b[0] then 0
    else 1 + CommonPrefixLength(a[1..], b[1..])
  }

  /** The segments of `path.resolve(p)`; a relative `p` is taken from "/". */
  function ResolvedSegments(p: string): seq<string>
  {
    NormalizeSegments(Split(p), true)
  }

  /** `path.posix.relative(from, to)`: up from `from` to the common ancestor, then down to `to`. */
  function Relative(from: string, to: string): string
  {
    var f := ResolvedSegments(from);
    var t := ResolvedSegments(to);
    if f == t then ""
    else
      var k := CommonPrefixLength(f, t);
      Glue(Repeat("..", |f| - k) + t[k..])
  }

  /** The segments of a path "/" + Glue(segs) made of plain segments are those segments. */
  lemma {:induction false} ResolvedAbsolute(segs: seq<string>)
    requires AllPlain(segs)
    ensures ResolvedSegments("/" + Glue(segs)) == segs
  {
    var g := Glue(segs);
    SplitConcat("", g);
    assert "" + "/" + g == "/" + g;
    assert Split("") == [""];
    if |segs| == 0 {
      assert Split(g) == [""];
    } else {
      SplitGlue(segs);
    }
    NormalizeFromAppend([], [""], Split(g), true);
    NormalizeFromPlain([], segs, true);
  }

  /** Appending plain segments under a directory of plain segments appends them to its
      resolved segments. */
  lemma {:induction false} ResolvedUnder(dir: seq<string>, rest: seq<string>)
    requires AllPlain(dir) && AllPlain(rest) && |rest| > 0
    ensures ResolvedSegments("/" + Glue(dir) + "/" + Glue(rest)) == dir + rest
  {
    var d := "/" + Glue(dir);
    SplitConcat(d, Glue(rest));
    SplitGlue(rest);
    ResolvedAbsolute(dir);
    NormalizeFromAppend([], Split(d), rest, true);
    NormalizeFromPlain(dir, rest, true);
  }

  /** Segments normalisation either drops ("" and ".") or keeps as they are. */
  predicate Tame(seg: string)
  {
    seg == "" || seg == "." || Plain(seg)
  }

  function KeptSegments(segs: seq<string>): (r: seq<string>)
    ensures AllPlain(r)
  {
    if |segs| == 0 then []
    else (if Plain(segs[0]) then [segs[0]] else []) + KeptSegments(segs[1..])
  }

  lemma {:induction false} NormalizeFromTame(acc: seq<string>, segs: seq<string>, absolute: bool)
    requires forall k :: 0 <= k < |segs| ==> Tame(segs[k])
    ensures NormalizeFrom(acc, segs, absolute) == acc + KeptSegments(segs)
    decreases |segs|
  {
    if |segs| > 0 {
      var seg, rest := segs[0], segs[1..];
      assert Tame(seg);
      var next := NormalizeStep(acc, seg, absolute);
      assert next == acc + (if Plain(seg) then [seg] else []);
      assert forall k :: 0 <= k < |rest| ==> Tame(rest[k]) by {
        assert forall k :: 0 <= k < |rest| ==> rest[k] == segs[k + 1];
      }
      NormalizeFromTame(next, rest, absolute);
      calc {
        NormalizeFrom(acc, segs, absolute);
        NormalizeFrom(next, rest, absolute);
        next + KeptSegments(rest);
        { SeqAssoc(acc, if Plain(seg) then [seg] else [], KeptSegments(rest)); }
        acc + ((if Plain(seg) then [seg] else []) + KeptSegments(rest));
        acc + KeptSegments(segs);
      }
    }
  }

  lemma {:induction false} GlueAppend(a: seq<string>, b: seq<string>)
    requires |a| > 0 && |b| > 0
    ensures Glue(a + b) == Glue(a) + "/" + Glue(b)
    decreases |a|
  {
    if |a| == 1 {
      assert (a + b)[1..] == b;
    } else {
      assert (a + b)[1..] == a[1..] + b;
      GlueAppend(a[1..], b);
    }
  }

  /** Glued segments end with the last segment. */
  lemma {:induction false} GlueEnds(segs: seq<string>)
    requires |segs| > 0
    ensures EndsWith(Glue(segs), segs[|segs| - 1])
    decreases |segs|
  {
    if |segs| > 1 {
      GlueEnds(segs[1..]);
      var g := Glue(segs);
      var last := segs[|segs| - 1];
      assert g[|g| - |last|..] == Glue(segs[1..])[|Glue(segs[1..])| - |last|..];
    }
  }

  /** Normalising an absolute path without a trailing '/' whose segments normalise to a
      non-empty list gives '/' and those segments. */
  lemma NormalizeAbsoluteBody(p: string, kept: seq<string>)
    requires |p| > 0 && p[0] == '/' && p[|p| - 1] != '/'
    requires NormalizeSegments(Split(p), true) == kept
    requires Glue(kept) != ""
    ensures Normalize(p) == "/" + Glue(kept)
  {
  }

  /** An absolute path splits into an empty segment followed by its glued segments. */
  lemma SplitAbsolute(segs: seq<string>)
    requires |segs| > 0 && forall k :: 0 <= k < |segs| ==> '/' !in segs[k]
    ensures Split("/" + Glue(segs)) == [""] + segs
  {
    var g := Glue(segs);
    SplitConcat("", g);
    assert "" + "/" + g == "/" + g;
    SplitGlue(segs);
    assert FirstIndexOf("", '/') == 0;
  }

  /** An absolute path whose segments are plain, "" or ".", and that ends in a plain
      segment, normalises to its plain segments. */
  lemma NormalizeAbsoluteTame(segs: seq<string>)
    requires forall k :: 0 <= k < |segs| ==> Tame(segs[k])
    requires |segs| > 0 && Plain(segs[|segs| - 1])
    ensures Normalize("/" + Glue(segs)) == "/" + Glue(KeptSegments(segs))
  {
    var g := Glue(segs);
    var p := "/" + g;
    SplitAbsolute(segs);
    NormalizeFromAppend([], [""], segs, true);
    assert NormalizeFrom([], [""], true) == [];
    NormalizeFromTame([], segs, true);
    assert NormalizeSegments(Split(p), true) == KeptSegments(segs);
    GlueEnds(segs);
    var last := segs[|segs| - 1];
    assert p[|p| - 1] == g[|g| - 1] == last[|last| - 1];
    var kept := KeptSegments(segs);
    KeptKeepsLast(segs);
    GlueEnds(kept);
    NormalizeAbsoluteBody(p, kept);
  }

  lemma {:induction false} KeptKeepsLast(segs: seq<string>)
    requires |segs| > 0 && Plain(segs[|segs| - 1])
    ensures |KeptSegments(segs)| > 0
    ensures KeptSegments(segs)[|KeptSegments(segs)| - 1] == segs[|segs| - 1]
    decreases |segs|
  {
    if |segs| > 1 {
      KeptKeepsLast(segs[1..]);
    }
  }

  /** With its trailing run of non-'/' characters scanned, `DirEnd` stops at the '/'. */
  lemma {:induction false} DirEndScan(p: string, i: int, e: int)
    requires 1 <= e <= i < |p| && p[e] == '/'
    requires forall j :: e < j <= i ==> p[j] != '/'
    ensures DirEnd(p, i, false) == e
    decreases i
  {
    if i > e {
      DirEndScan(p, i - 1, e);
    }
  }

  /** The directory of a plain file name below an absolute directory other than "/" is
      that directory. */
  lemma DirNameOfPath(d: string, file: string)
    requires |d| >= 2 && d[0] == '/' && Plain(file)
    ensures DirName(d + "/" + file) == d
  {
    var p := d + "/" + file;
    SlashThenSegment(d, file);
    assert p[0] == d[0];
    DirEndScan(p, |p| - 2, |d|);
  }

  /** In `d + "/" + seg` with no '/' in `seg`, the '/' after `d` is the last one. */
  lemma SlashThenSegment(d: string, seg: string)
    requires '/' !in seg
    ensures var p := d + "/" + seg;
            && |p| == |d| + 1 + |seg| && p[..|d|] == d && p[|d|] == '/'
            && forall j :: |d| < j < |p| ==> p[j] != '/'
  {
    var p := d + "/" + seg;
    forall j | |d| < j < |p|
      ensures p[j] != '/'
    {
      assert p[j] == seg[j - |d| - 1];
    }
    assert p[..|d|] == d;
  }

  /** The directory of a file in a normalised absolute directory is that directory. */
  lemma DirNameOfFile(dir: seq<string>, file: string)
    requires AllPlain(dir) && |dir| > 0 && Plain(file)
    ensures DirName("/" + Glue(dir) + "/" + file) == "/" + Glue(dir)
  {
    GlueNonEmpty(dir);
    DirNameOfPath("/" + Glue(dir), file);
  }

  lemma {:induction false} NonEmptyKeepsAll(parts: seq<string>)
    requires forall k :: 0 <= k < |parts| ==> parts[k] != ""
    ensures NonEmpty(parts) == parts
    decreases |parts|
  {
    if |parts| > 0 {
      NonEmptyKeepsAll(parts[1..]);
      assert [parts[0]] + parts[1..] == parts;
    }
  }

  /** `join` of non-empty parts normalises them glued with '/'. */
  lemma JoinNonEmpty(parts: seq<string>)
    requires |parts| > 0 && forall k :: 0 <= k < |parts| ==> parts[k] != ""
    ensures Join(parts) == Normalize(Glue(parts))
  {
    NonEmptyKeepsAll(parts);
  }

  lemma {:induction false} KeptPlain(segs: seq<string>)
    requires AllPlain(segs)
    ensures KeptSegments(segs) == segs
    decreases |segs|
  {
    if |segs| > 0 {
      KeptPlain(segs[1..]);
      assert [segs[0]] + segs[1..] == segs;
    }
  }

  lemma {:induction false} KeptAppend(a: seq<string>, b: seq<string>)
    ensures KeptSegments(a + b) == KeptSegments(a) + KeptSegments(b)
    decreases |a|
  {
    if |a| > 0 {
      assert (a + b)[1..] == a[1..] + b;
      KeptAppend(a[1..], b);
    } else {
      assert a + b == b;
    }
  }

  lemma AllPlainAppend(a: seq<string>, b: seq<string>)
    requires AllPlain(a) && AllPlain(b)
    ensures AllPlain(a + b)
  {
  }

  lemma Join2(x: string, y: string)
    requires x != "" && y != ""
    ensures Join([x, y]) == Normalize(x + "/" + y)
  {
    JoinNonEmpty([x, y]);
    assert [x, y][1..] == [y];
  }

  lemma Join3(x: string, y: string, z: string)
    requires x != "" && y != "" && z != ""
    ensures Join([x, y, z]) == Normalize(x + "/" + y + "/" + z)
  {
    JoinNonEmpty([x, y, z]);
    assert [x, y, z][1..] == [y, z];
    assert [y, z][1..] == [z];
    assert Glue([y, z]) == y + "/" + z;
    assert Glue([x, y, z]) == x + "/" + (y + "/" + z);
    assert x + "/" + (y + "/" + z) == x + "/" + y + "/" + z;
  }

  lemma GlueNonEmpty(segs: seq<string>)
    requires AllPlain(segs) && |segs| > 0
    ensures Glue(segs) != ""
  {
    GlueEnds(segs);
  }

  lemma Glue3Append(a: seq<string>, b: seq<string>, c: seq<string>)
    requires |a| > 0 && |b| > 0 && |c| > 0
    ensures "/" + Glue(a) + "/" + Glue(b) + "/" + Glue(c) == "/" + Glue(a + b + c)
  {
    GlueAppend(a, b);
    GlueAppend(a + b, c);
    Slashed3(Glue(a), Glue(b), Glue(c));
  }

  lemma Slashed3(x: string, y: string, z: string)
    ensures "/" + ((x + "/" + y) + "/" + z) == "/" + x + "/" + y + "/" + z
  {
  }

  /** Joining a normalised absolute path with normalised relative parts just puts '/'
      between them. */
  lemma JoinAbsolute3(a: seq<string>, b: seq<string>, c: seq<string>)
    requires AllPlain(a) && AllPlain(b) && AllPlain(c)
    requires |a| > 0 && |b| > 0 && |c| > 0
    ensures Join(["/" + Glue(a), Glue(b), Glue(c)]) == "/" + Glue(a) + "/" + Glue(b) + "/" + Glue(c)
  {
    GlueNonEmpty(b);
    GlueNonEmpty(c);
    Join3("/" + Glue(a), Glue(b), Glue(c));
    Glue3Append(a, b, c);
    var abc := a + b + c;
    AllPlainAppend(a, b);
    AllPlainAppend(a + b, c);
    NormalizeAbsoluteTame(abc);
    KeptPlain(abc);
  }

  lemma KeptDot(dir: seq<string>, rel: seq<string>)
    requires AllPlain(dir) && AllPlain(rel)
    ensures KeptSegments(dir + (["."] + rel)) == dir + rel
  {
    KeptAppend(dir, ["."] + rel);
    KeptAppend(["."], rel);
    var dot := KeptSegments(["."]);
    assert dot == [] by {
      assert !Plain(".");
      assert ["."][1..] == [];
    }
    KeptPlain(dir);
    KeptPlain(rel);
    calc {
      KeptSegments(dir + (["."] + rel));
      KeptSegments(dir) + KeptSegments(["."] + rel);
      dir + (dot + KeptSegments(rel));
      { assert dot + KeptSegments(rel) == rel; }
      dir + rel;
    }
  }

  lemma DotSegmentsTame(dir: seq<string>, rel: seq<string>)
    requires AllPlain(dir) && AllPlain(rel) && |rel| > 0
    ensures forall k :: 0 <= k < |dir + (["."] + rel)| ==> Tame((dir + (["."] + rel))[k])
    ensures Plain((dir + (["."] + rel))[|dir + (["."] + rel)| - 1])
  {
    var segs := dir + (["."] + rel);
    forall k | 0 <= k < |segs| ensures Tame(segs[k]) {
      if k < |dir| {
        assert segs[k] == dir[k];
      } else if k > |dir| {
        assert segs[k] == rel[k - |dir| - 1];
      }
    }
    assert segs[|segs| - 1] == rel[|rel| - 1];
  }

  lemma DotSlashed(d: string, r: string)
    ensures "/" + (d + "/" + ("." + "/" + r)) == "/" + d + "/" + ("./" + r)
  {
  }

  lemma GlueDotAppend(dir: seq<string>, rel: seq<string>)
    requires |dir| > 0 && |rel| > 0
    ensures "/" + Glue(dir) + "/" + ("./" + Glue(rel)) == "/" + Glue(dir + (["."] + rel))
  {
    var dotted := ["."] + rel;
    GlueAppend(["."], rel);
    assert Glue(["."]) == ".";
    GlueAppend(dir, dotted);
    DotSlashed(Glue(dir), Glue(rel));
  }

  lemma NormalizeDotted(dir: seq<string>, rel: seq<string>)
    requires AllPlain(dir) && AllPlain(rel) && |dir| > 0 && |rel| > 0
    ensures Normalize("/" + Glue(dir + (["."] + rel))) == "/" + Glue(dir + rel)
  {
    DotSegmentsTame(dir, rel);
    NormalizeAbsoluteTame(dir + (["."] + rel));
    KeptDot(dir, rel);
  }

  lemma SlashGlueAppend(dir: seq<string>, rel: seq<string>)
    requires |dir| > 0 && |rel| > 0
    ensures "/" + Glue(dir + rel) == "/" + Glue(dir) + "/" + Glue(rel)
  {
    var gd, gr := Glue(dir), Glue(rel);
    GlueAppend(dir, rel);
    assert "/" + (gd + "/" + gr) == "/" + gd + "/" + gr;
  }

  /** Joining a normalised absolute directory with "./" and a normalised relative path puts
      the path under the directory. */
  lemma JoinDotRelative(dir: seq<string>, rel: seq<string>)
    requires AllPlain(dir) && AllPlain(rel) && |dir| > 0 && |rel| > 0
    ensures Join(["/" + Glue(dir), "./" + Glue(rel)]) == "/" + Glue(dir) + "/" + Glue(rel)
  {
    var gd, gr := Glue(dir), Glue(rel);
    Join2("/" + gd, "./" + gr);
    GlueDotAppend(dir, rel);
    NormalizeDotted(dir, rel);
    SlashGlueAppend(dir, rel);
  }
}
