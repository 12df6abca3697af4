/** The part of the MagicString text buffer the import rewrite uses: overwrite a range of the
    original text, prepend a header, render the result. */
module MagicStrings {

  /** `overwrite(start, end, content)`: the original text [start, end) is replaced. */
  datatype Edit = Edit(start: nat, end: nat, content: string)

  /** Non-empty ranges at or after `from` and inside a text of length `n`, in ascending
      order and disjoint. */
  predicate OrderedFrom(edits: seq<Edit>, from: nat, n: nat)
    decreases |edits|
  {
    |edits| == 0 ||
    (from <= edits[0].start < edits[0].end <= n && OrderedFrom(edits[1..], edits[0].end, n))
  }

  /** Where the next overwrite may start. */
  function Frontier(edits: seq<Edit>, from: nat): nat
  {
    if |edits| == 0 then from else edits[|edits| - 1].end
  }

  lemma {:induction false} OrderedAppend(edits: seq<Edit>, e: Edit, from: nat, n: nat)
    ensures OrderedFrom(edits + [e], from, n) <==>
            OrderedFrom(edits, from, n) && Frontier(edits, from) <= e.start < e.end <= n
    decreases |edits|
  {
    if |edits| > 0 {
      assert (edits + [e])[1..] == edits[1..] + [e];
      OrderedAppend(edits[1..], e, edits[0].end, n);
    }
  }

  lemma {:induction false} FrontierBeyondFirst(edits: seq<Edit>, from: nat, n: nat)
    requires OrderedFrom(edits, from, n) && |edits| > 0
    ensures edits[0].end <= Frontier(edits, from)
    decreases |edits|
  {
    if |edits| > 1 {
      FrontierBeyondFirst(edits[1..], edits[0].end, n);
    }
  }

  /** All ranges end by the frontier, so a bound that large is enough. */
  lemma {:induction false} OrderedWithin(edits: seq<Edit>, from: nat, n: nat, m: nat)
    requires OrderedFrom(edits, from, n)
    requires Frontier(edits, from) <= m
    ensures OrderedFrom(edits, from, m)
    decreases |edits|
  {
    if |edits| > 0 {
      OrderedWithin(edits[1..], edits[0].end, n, m);
    }
  }

  /** The rendered text from position `from` on: untouched stretches of the original
      alternate with the contents of the edits. */
  function Render(original: string, edits: seq<Edit>, from: nat): string
    requires from <= |original|
    requires OrderedFrom(edits, from, |original|)
    decreases |edits|
  {
    if |edits| == 0 then original[from..]
    else original[from..edits[0].start] + edits[0].content + Render(original, edits[1..], edits[0].end)
  }

  /** One overwrite on its own: everything before `start` and from `end` on is kept. */
  function Splice(text: string, e: Edit): (r: string)
    requires e.start <= e.end <= |text|
    ensures |r| == |text| - (e.end - e.start) + |e.content|
    ensures r[..e.start] == text[..e.start]
    ensures r[e.start + |e.content|..] == text[e.end..]
  {
    text[..e.start] + e.content + text[e.end..]
  }

  /** An independent reading of a list of overwrites: splice them in one at a time, the
      last first, so that the earlier ranges still refer to unchanged text. */
  function Apply(text: string, edits: seq<Edit>): string
    requires OrderedFrom(edits, 0, |text|)
    decreases |edits|
  {
    if |edits| == 0 then text
    else
      var init, last := edits[..|edits| - 1], edits[|edits| - 1];
      assert init + [last] == edits;
      OrderedAppend(init, last, 0, |text|);
      OrderedWithin(init, 0, |text|, |Splice(text, last)|);
      Apply(Splice(text, last), init)
  }

  lemma {:induction false} RenderSplice(original: string, init: seq<Edit>, last: Edit, from: nat)
    requires from <= |original|
    requires OrderedFrom(init, from, |original|)
    requires Frontier(init, from) <= last.start < last.end <= |original|
    ensures OrderedFrom(init + [last], from, |original|)
    ensures OrderedFrom(init, from, |Splice(original, last)|)
    ensures Render(Splice(original, last), init, from) == Render(original, init + [last], from)
    decreases |init|
  {
    OrderedAppend(init, last, from, |original|);
    var spliced := Splice(original, last);
    OrderedWithin(init, from, |original|, |spliced|);
    if |init| == 0 {
      assert init + [last] == [last];
      assert spliced[from..] == original[from..last.start] + last.content + original[last.end..];
    } else {
      assert (init + [last])[1..] == init[1..] + [last];
      FrontierBeyondFirst(init, from, |original|);
      SplicePrefix(original, last, from, init[0].start);
      RenderSplice(original, init[1..], last, init[0].end);
    }
  }

  /** A splice keeps every stretch of text before its range. */
  lemma SplicePrefix(text: string, e: Edit, i: nat, j: nat)
    requires e.start <= e.end <= |text|
    requires i <= j <= e.start
    ensures Splice(text, e)[i..j] == text[i..j]
  {
    var r := Splice(text, e);
    forall k | i <= k < j
      ensures r[k] == text[k]
    {
      assert r[k] == r[..e.start][k];
      assert text[k] == text[..e.start][k];
    }
  }

  /** Rendering the buffer is the same as splicing the overwrites in one by one: every edit
      replaces exactly its own range and all other text is kept. */
  lemma {:induction false} RenderIsApply(original: string, edits: seq<Edit>)
    requires OrderedFrom(edits, 0, |original|)
    ensures Render(original, edits, 0) == Apply(original, edits)
    decreases |edits|
  {
    if |edits| > 0 {
      var init, last := edits[..|edits| - 1], edits[|edits| - 1];
      assert init + [last] == edits;
      OrderedAppend(init, last, 0, |original|);
      RenderSplice(original, init, last, 0);
      RenderIsApply(Splice(original, last), init);
    }
  }

  class MagicString {
    const original: string
    var intro: string
    var edits: seq<Edit>

    ghost predicate Valid()
      reads this
    {
      OrderedFrom(edits, 0, |original|)
    }

    constructor (code: string)
      ensures Valid() && original == code && intro == "" && edits == []
    {
      original := code;
      intro := "";
      edits := [];
    }

    /** `overwrite(start, end, content)`, for ranges issued left to right. */
    method Overwrite(start: nat, end: nat, content: string)
      requires Valid()
      requires Frontier(edits, 0) <= start < end <= |original|
      modifies this
      ensures Valid()
      ensures edits == old(edits) + [Edit(start, end, content)] && intro == old(intro)
    {
      OrderedAppend(edits, Edit(start, end, content), 0, |original|);
      edits := edits + [Edit(start, end, content)];
    }

    /** `prepend(content)`. */
    method Prepend(content: string)
      modifies this
      ensures intro == content + old(intro) && edits == old(edits)
      ensures old(Valid()) ==> Valid()
    {
      intro := content + intro;
    }

    /** `toString()`: the header, then the original with every overwrite spliced in. */
    function ToString(): (r: string)
      reads this
      requires Valid()
      ensures r == intro + Apply(original, edits)
    {
      RenderIsApply(original, edits);
      intro + Render(original, edits, 0)
    }
  }
}
