/**
 Rendering and evicting display units (script.js:573-634, 637-707).

 Only a unit's `rendered` flag is modelled: every operation guards on it,
 ignores an index outside the table, and touches no other unit. A block's
 markup is modelled by its paragraph layout: the block's index range cut
 after every index tagged `Paragraph`, with the empty trailing paragraph
 dropped.
 */
module Render {
  import opened Config
  import opened Seqs
  import opened Partition

  /** Same units except, possibly, their `rendered` flags. */
  predicate SameShape(a: seq<Unit>, b: seq<Unit>)
  {
    && |a| == |b|
    && forall j :: 0 <= j < |a| ==> a[j].start == b[j].start && a[j].count == b[j].count
  }

  /** Flags differ at most at index `k`. */
  predicate OthersUnchanged(a: seq<Unit>, b: seq<Unit>, k: int)
    requires |a| == |b|
  {
    forall j :: 0 <= j < |a| && j != k ==> a[j] == b[j]
  }

  lemma SameShapeKeepsTiling(a: seq<Unit>, b: seq<Unit>, from: nat, to: nat)
    requires SameShape(a, b)
    requires TilesFrom(a, from, to)
    ensures TilesFrom(b, from, to)
  {
    TilesIffContiguous(a, from, to);
    TilesIffContiguous(b, from, to);
  }

  /** Lookup reads only positions and counts, never the `rendered` flags. */
  lemma {:induction false} FindSameShape(a: seq<Unit>, b: seq<Unit>, i: int)
    requires SameShape(a, b)
    ensures FindUnit(a, i) == FindUnit(b, i)
    decreases |a|
  {
    if a != [] {
      assert SameShape(a[1..], b[1..]) by {
        forall j | 0 <= j < |a| - 1
          ensures a[1..][j].start == b[1..][j].start && a[1..][j].count == b[1..][j].count
        {
          assert a[1..][j] == a[j + 1] && b[1..][j] == b[j + 1];
        }
      }
      FindSameShape(a[1..], b[1..], i);
      assert Covers(a[0], i) == Covers(b[0], i);
    }
  }

  function SetRendered(units: seq<Unit>, k: nat, on: bool): seq<Unit>
    requires k < |units|
  {
    units[k := units[k].(rendered := on)]
  }

  /** `renderBlock(k)`, flag part: a missing or already rendered block is left
      alone; otherwise exactly block `k` becomes rendered. */
  function RenderBlock(units: seq<Unit>, k: int): (r: seq<Unit>)
    ensures SameShape(units, r)
    ensures OthersUnchanged(units, r, k)
    ensures 0 <= k < |units| ==> r[k].rendered
    ensures !(0 <= k < |units|) || units[k].rendered ==> r == units
  {
    if 0 <= k < |units| && !units[k].rendered then SetRendered(units, k, true) else units
  }

  /** `renderChapter(k)`, flag part: like RenderBlock, except that when the
      chapter source fails (`loaded` is false) the chapter shows an error and
      stays unrendered. */
  function RenderChapter(units: seq<Unit>, k: int, loaded: bool): (r: seq<Unit>)
    ensures SameShape(units, r)
    ensures OthersUnchanged(units, r, k)
    ensures 0 <= k < |units| ==> r[k].rendered == (units[k].rendered || loaded)
    ensures !(0 <= k < |units|) || units[k].rendered || !loaded ==> r == units
  {
    if 0 <= k < |units| && !units[k].rendered && loaded then SetRendered(units, k, true) else units
  }

  /** `unrenderBlock(k)` and `unrenderChapter(k)`: a missing or unrendered unit
      is left alone; otherwise exactly unit `k` becomes unrendered. */
  function Unrender(units: seq<Unit>, k: int): (r: seq<Unit>)
    ensures SameShape(units, r)
    ensures OthersUnchanged(units, r, k)
    ensures 0 <= k < |units| ==> !r[k].rendered
    ensures !(0 <= k < |units|) || !units[k].rendered ==> r == units
  {
    if 0 <= k < |units| && units[k].rendered then SetRendered(units, k, false) else units
  }

  /** Rendering twice is rendering once; so is unrendering. */
  lemma RenderIdempotent(units: seq<Unit>, k: int)
    ensures RenderBlock(RenderBlock(units, k), k) == RenderBlock(units, k)
    ensures Unrender(Unrender(units, k), k) == Unrender(units, k)
  {
  }

  /** Render, unrender, render ends in the same table as a single render. */
  lemma RenderUnrenderRender(units: seq<Unit>, k: int)
    ensures RenderBlock(Unrender(RenderBlock(units, k), k), k) == RenderBlock(units, k)
  {
    if 0 <= k < |units| {
      var r := RenderBlock(units, k);
      var r2 := RenderBlock(Unrender(r, k), k);
      assert |r2| == |r|;
      forall j | 0 <= j < |r| ensures r2[j] == r[j] {
      }
    }
  }

  /** Unrender, render, unrender ends in the same table as a single unrender. */
  lemma UnrenderRenderUnrender(units: seq<Unit>, k: int)
    ensures Unrender(RenderBlock(Unrender(units, k), k), k) == Unrender(units, k)
  {
    if 0 <= k < |units| {
      var r := Unrender(units, k);
      var r2 := Unrender(RenderBlock(r, k), k);
      forall j | 0 <= j < |r| ensures r2[j] == r[j] {
      }
    }
  }

  // ---------------------------------------------------------------------
  // Block layout
  // ---------------------------------------------------------------------

  predicate IsBreak(pauses: map<nat, Pause>, i: nat)
  {
    Lookup(pauses, i) == Some(Paragraph)
  }

  /** The indices lo, lo+1, ..., hi-1. */
  function Range(lo: nat, hi: nat): (r: seq<nat>)
    requires lo <= hi
    ensures |r| == hi - lo
    ensures forall j :: 0 <= j < |r| ==> r[j] == lo + j
  {
    seq(hi - lo, j requires 0 <= j < hi - lo => lo + j)
  }

  lemma RangeCons(lo: nat, hi: nat)
    requires lo < hi
    ensures Range(lo, hi) == [lo] + Range(lo + 1, hi)
  {
    assert forall j :: 0 <= j < hi - lo ==> Range(lo, hi)[j] == ([lo] + Range(lo + 1, hi))[j];
  }

  /** `ps` lays out the indices [lo, hi) as paragraphs: concatenated they
      give the range in order, no paragraph is empty, every paragraph but the
      last ends at a break, and no break occurs inside a paragraph. */
  predicate LaysOut(ps: seq<seq<nat>>, lo: nat, hi: nat, pauses: map<nat, Pause>)
    requires lo <= hi
  {
    && Flatten(ps) == Range(lo, hi)
    && (forall k :: 0 <= k < |ps| ==> ps[k] != [])
    && (forall k :: 0 <= k < |ps| - 1 ==> IsBreak(pauses, ps[k][|ps[k]| - 1]))
    && (forall k, j :: 0 <= k < |ps| && 0 <= j < |ps[k]| - 1 ==> !IsBreak(pauses, ps[k][j]))
  }

  /** Index `lo` opens a paragraph of its own when it is a break or the last
      index. */
  lemma LaysOutAlone(lo: nat, hi: nat, rest: seq<seq<nat>>, pauses: map<nat, Pause>)
    requires lo < hi
    requires LaysOut(rest, lo + 1, hi, pauses)
    requires IsBreak(pauses, lo) || rest == []
    ensures LaysOut([[lo]] + rest, lo, hi, pauses)
  {
    var ps := [[lo]] + rest;
    FlattenCons([lo], rest);
    RangeCons(lo, hi);
    assert forall k :: 1 <= k < |ps| ==> ps[k] == rest[k - 1];
  }

  /** Otherwise index `lo` joins the paragraph that follows it. */
  lemma LaysOutJoined(lo: nat, hi: nat, rest: seq<seq<nat>>, pauses: map<nat, Pause>)
    requires lo < hi
    requires LaysOut(rest, lo + 1, hi, pauses)
    requires !IsBreak(pauses, lo) && rest != []
    ensures LaysOut([[lo] + rest[0]] + rest[1..], lo, hi, pauses)
  {
    var ps := [[lo] + rest[0]] + rest[1..];
    FlattenCons([lo] + rest[0], rest[1..]);
    assert rest == [rest[0]] + rest[1..];
    FlattenCons(rest[0], rest[1..]);
    RangeCons(lo, hi);
    assert forall k :: 1 <= k < |ps| ==> ps[k] == rest[k];
    forall j | 0 <= j < |ps[0]| - 1
      ensures !IsBreak(pauses, ps[0][j])
    {
      if j > 0 {
        assert ps[0][j] == rest[0][j - 1];
      }
    }
  }

  /** The paragraphs of the indices [lo, hi): a paragraph closes after each
      index tagged `Paragraph`, and the empty paragraph a final break would
      leave is dropped. */
  function Layout(lo: nat, hi: nat, pauses: map<nat, Pause>): (ps: seq<seq<nat>>)
    requires lo <= hi
    ensures LaysOut(ps, lo, hi, pauses)
    decreases hi - lo
  {
    if lo == hi then []
    else
      var rest := Layout(lo + 1, hi, pauses);
      if IsBreak(pauses, lo) || rest == [] then
        LaysOutAlone(lo, hi, rest, pauses);
        [[lo]] + rest
      else
        LaysOutJoined(lo, hi, rest, pauses);
        [[lo] + rest[0]] + rest[1..]
  }

  /** The index range a rendered block shows: `for (i = start; i < end; i++)`
      with end = min(start + count, len). The indices shown are exactly those
      the block covers that exist in the stream. */
  function BlockRange(u: Unit, len: nat): (r: (nat, nat))
    ensures r.0 <= r.1
    ensures forall i: int :: r.0 <= i < r.1 <==> Covers(u, i) && i < len
  {
    var end := Min(u.start + u.count, len);
    (u.start, if end < u.start then u.start else end)
  }

  /** `renderBlock(k)`: the new table and, when the block was actually
      rendered, its paragraphs: the block's range in order, cut after each
      index tagged `Paragraph`. */
  function RenderBlockView(units: seq<Unit>, k: int, len: nat, pauses: map<nat, Pause>)
    : (r: (seq<Unit>, Option<seq<seq<nat>>>))
    ensures r.0 == RenderBlock(units, k)
    ensures r.1.Some? <==> 0 <= k < |units| && !units[k].rendered
    ensures r.1.Some? ==>
              LaysOut(r.1.value, BlockRange(units[k], len).0, BlockRange(units[k], len).1, pauses)
  {
    if 0 <= k < |units| && !units[k].rendered then
      var (lo, hi) := BlockRange(units[k], len);
      (RenderBlock(units, k), Some(Layout(lo, hi, pauses)))
    else (units, None)
  }
}
