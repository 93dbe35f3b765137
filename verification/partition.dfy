/**
 Display units and how they cut the word stream (script.js:478-492,
 527-529, 586-588, 739-744).

 A unit covers the global word indices [start, start + count). EPUB
 chapters get one unit each, whose start is the running sum of the word
 counts of the chapters before it; other documents get fixed blocks of
 VIRTUAL_BLOCK_WORDS words, the last one shorter. Either way the units tile
 [0, total): they start at 0, each begins where the previous ends, and the
 last ends at the word count. Lookup is `findIndex` over the units.
 */
module Partition {
  import opened Config
  import opened Seqs

  datatype Unit = Unit(start: nat, count: nat, rendered: bool)

  /** Unit `u` covers global word index `i`. */
  predicate Covers(u: Unit, i: int)
  {
    u.start <= i < u.start + u.count
  }

  /** `units` tile [from, to), in order. */
  predicate TilesFrom(units: seq<Unit>, from: nat, to: nat)
    decreases |units|
  {
    if units == [] then from == to
    else units[0].start == from && TilesFrom(units[1..], from + units[0].count, to)
  }

  /** `units` tile the whole stream [0, total). */
  predicate Tiles(units: seq<Unit>, total: nat)
  {
    TilesFrom(units, 0, total)
  }

  /** The word counts of the units. */
  function Counts(units: seq<Unit>): (cs: seq<nat>)
    ensures |cs| == |units|
    ensures forall k :: 0 <= k < |units| ==> cs[k] == units[k].count
  {
    seq(|units|, k requires 0 <= k < |units| => units[k].count)
  }

  /** The pointwise shape of a tiling: first start, contiguity of
      neighbours, last end. */
  predicate Contiguous(units: seq<Unit>, from: nat, to: nat)
  {
    && (units == [] ==> from == to)
    && (units != [] ==> units[0].start == from && units[|units| - 1].start + units[|units| - 1].count == to)
    && (forall k :: 0 <= k < |units| - 1 ==> units[k].start + units[k].count == units[k + 1].start)
  }

  /** The recursive and the pointwise descriptions of a tiling agree. */
  lemma {:induction false} TilesIffContiguous(units: seq<Unit>, from: nat, to: nat)
    ensures TilesFrom(units, from, to) <==> Contiguous(units, from, to)
    decreases |units|
  {
    if units != [] {
      var tail := units[1..];
      TilesIffContiguous(tail, from + units[0].count, to);
      assert forall k :: 0 <= k < |tail| ==> tail[k] == units[k + 1];
      if |units| > 1 {
        assert Contiguous(units, from, to) ==> Contiguous(tail, from + units[0].count, to) by {
          if Contiguous(units, from, to) {
            assert units[0].start + units[0].count == units[1].start;
            forall k | 0 <= k < |tail| - 1
              ensures tail[k].start + tail[k].count == tail[k + 1].start
            {
              assert tail[k] == units[k + 1] && tail[k + 1] == units[k + 2];
            }
          }
        }
        assert Contiguous(tail, from + units[0].count, to) && units[0].start == from
               ==> Contiguous(units, from, to) by {
          if Contiguous(tail, from + units[0].count, to) && units[0].start == from {
            forall k | 0 <= k < |units| - 1
              ensures units[k].start + units[k].count == units[k + 1].start
            {
              if k > 0 {
                assert tail[k - 1] == units[k] && tail[k] == units[k + 1];
              }
            }
          }
        }
      }
    }
  }

  /** A tiling accounts for every word exactly once: the counts sum to the
      length of the tiled range. */
  lemma {:induction false} TilesSum(units: seq<Unit>, from: nat, to: nat)
    requires TilesFrom(units, from, to)
    ensures from <= to
    ensures Sum(Counts(units)) == to - from
    decreases |units|
  {
    if units != [] {
      var init := units[..|units| - 1];
      var last := units[|units| - 1];
      TilesIffContiguous(units, from, to);
      if |units| == 1 {
        assert Counts(units)[..0] == [];
      } else {
        assert Contiguous(init, from, last.start) by {
          assert forall k :: 0 <= k < |init| ==> init[k] == units[k];
        }
        TilesIffContiguous(init, from, last.start);
        TilesSum(init, from, last.start);
        assert Counts(units)[..|units| - 1] == Counts(init);
      }
    }
  }

  /** In a tiling every unit lies inside the range, and a unit ends no later
      than any later unit starts. */
  lemma {:induction false} TilesOrdered(units: seq<Unit>, from: nat, to: nat)
    requires TilesFrom(units, from, to)
    ensures forall j :: 0 <= j < |units| ==> from <= units[j].start && units[j].start + units[j].count <= to
    ensures forall j, k :: 0 <= j < k < |units| ==> units[j].start + units[j].count <= units[k].start
    decreases |units|
  {
    if units != [] {
      var tail := units[1..];
      TilesOrdered(tail, from + units[0].count, to);
      TilesSum(tail, from + units[0].count, to);
      assert forall k :: 0 <= k < |tail| ==> tail[k] == units[k + 1];
      forall j, k | 0 <= j < k < |units|
        ensures units[j].start + units[j].count <= units[k].start
      {
        assert units[k] == tail[k - 1];
        if j > 0 {
          assert units[j] == tail[j - 1];
        }
      }
    }
  }

  /** In a tiling, a unit covers `i` only if `i` is in range, and at most one
      unit covers it. */
  lemma TilesDisjoint(units: seq<Unit>, total: nat, i: int, j: nat, k: nat)
    requires Tiles(units, total)
    requires j < |units| && k < |units|
    requires Covers(units[j], i) && Covers(units[k], i)
    ensures j == k
    ensures 0 <= i < total
  {
    TilesOrdered(units, 0, total);
  }

  /** In a tiling every index in range is covered by some unit. */
  lemma {:induction false} TilesCover(units: seq<Unit>, from: nat, to: nat, i: int)
    requires TilesFrom(units, from, to)
    requires from <= i < to
    ensures exists j :: 0 <= j < |units| && Covers(units[j], i)
    decreases |units|
  {
    if i >= from + units[0].count {
      TilesCover(units[1..], from + units[0].count, to, i);
      var j :| 0 <= j < |units[1..]| && Covers(units[1..][j], i);
      assert units[j + 1] == units[1..][j];
    } else {
      assert Covers(units[0], i);
    }
  }

  // ---------------------------------------------------------------------
  // Lookup: findChapterIndexForWord / findBlockIndexForWord
  // ---------------------------------------------------------------------

  /** `units.findIndex(u => i >= u.start && i < u.start + u.count)`: the first
      unit covering `i`, or -1. */
  function FindUnit(units: seq<Unit>, i: int): (r: int)
    ensures -1 <= r < |units|
    ensures r >= 0 ==> Covers(units[r], i) && forall j :: 0 <= j < r ==> !Covers(units[j], i)
    ensures r == -1 <==> forall j :: 0 <= j < |units| ==> !Covers(units[j], i)
  {
    if units == [] then -1
    else if Covers(units[0], i) then 0
    else
      var r := FindUnit(units[1..], i);
      assert forall j :: 0 <= j < |units| - 1 ==> units[1..][j] == units[j + 1];
      if r == -1 then -1 else r + 1
  }

  /** On a tiling, lookup finds a unit exactly for the indices of the stream,
      and the unit it finds is the only one covering the index. */
  lemma FindInTiling(units: seq<Unit>, total: nat, i: int)
    requires Tiles(units, total)
    ensures FindUnit(units, i) >= 0 <==> 0 <= i < total
    ensures FindUnit(units, i) >= 0 ==>
              forall j :: 0 <= j < |units| ==> (Covers(units[j], i) <==> j == FindUnit(units, i))
  {
    var r := FindUnit(units, i);
    if 0 <= i < total {
      TilesCover(units, 0, total, i);
    }
    if r >= 0 {
      forall j | 0 <= j < |units| && Covers(units[j], i)
        ensures j == r
      {
        TilesDisjoint(units, total, i, j, r);
      }
      TilesDisjoint(units, total, i, r, r);
    }
  }

  // ---------------------------------------------------------------------
  // Blocks
  // ---------------------------------------------------------------------

  function Min(a: int, b: int): int
  {
    if a <= b then a else b
  }

  /** Number of blocks of a stream of `total` words: total / 1500, rounded up. */
  function NumBlocks(total: nat): nat
  {
    (total + VIRTUAL_BLOCK_WORDS - 1) / VIRTUAL_BLOCK_WORDS
  }

  /** The block table, declaratively: block `k` starts at k * 1500 and holds
      min(1500, total - k * 1500) words; all start unrendered. */
  function Blocks(total: nat): (blocks: seq<Unit>)
    ensures |blocks| == NumBlocks(total)
  {
    seq(NumBlocks(total), k requires 0 <= k < NumBlocks(total) =>
      Unit(k * VIRTUAL_BLOCK_WORDS, Min(VIRTUAL_BLOCK_WORDS, total - k * VIRTUAL_BLOCK_WORDS), false))
  }

  /** The loop that builds the block table (script.js:739-744). */
  method BuildBlocks(total: nat) returns (blocks: seq<Unit>)
    ensures blocks == Blocks(total)
  {
    blocks := [];
    var start := 0;
    while start < total
      invariant start == |blocks| * VIRTUAL_BLOCK_WORDS
      invariant |blocks| <= NumBlocks(total)
      invariant start < total ==> |blocks| < NumBlocks(total)
      invariant start >= total ==> |blocks| == NumBlocks(total)
      invariant blocks == Blocks(total)[..|blocks|]
      decreases total - start
    {
      var count := Min(VIRTUAL_BLOCK_WORDS, total - start);
      blocks := blocks + [Unit(start, count, false)];
      start := start + VIRTUAL_BLOCK_WORDS;
    }
  }

  /** Blocks tile the stream; every block is non-empty and holds at most 1500
      words, all but the last exactly 1500; all start unrendered. */
  lemma BlocksTile(total: nat)
    ensures Tiles(Blocks(total), total)
    ensures forall k :: 0 <= k < |Blocks(total)| ==>
              0 < Blocks(total)[k].count <= VIRTUAL_BLOCK_WORDS && !Blocks(total)[k].rendered
    ensures forall k :: 0 <= k < |Blocks(total)| - 1 ==> Blocks(total)[k].count == VIRTUAL_BLOCK_WORDS
  {
    var b := Blocks(total);
    var n := |b|;
    if n > 0 {
      assert (n - 1) * VIRTUAL_BLOCK_WORDS < total <= n * VIRTUAL_BLOCK_WORDS;
      assert b[n - 1].start + b[n - 1].count == total;
    }
    assert Contiguous(b, 0, total);
    TilesIffContiguous(b, 0, total);
  }

  /** A 3400-word stream gives blocks at 0, 1500, 3000 of 1500, 1500, 400 words. */
  lemma Blocks3400()
    ensures Blocks(3400) == [Unit(0, 1500, false), Unit(1500, 1500, false), Unit(3000, 400, false)]
  {
  }

  /** For blocks, lookup is division by the block size. */
  lemma FindBlock(total: nat, i: int)
    requires 0 <= i < total
    ensures FindUnit(Blocks(total), i) == i / VIRTUAL_BLOCK_WORDS
  {
    BlocksTile(total);
    var k := i / VIRTUAL_BLOCK_WORDS;
    assert k < NumBlocks(total);
    assert Covers(Blocks(total)[k], i);
    FindInTiling(Blocks(total), total, i);
  }

  // ---------------------------------------------------------------------
  // Chapters
  // ---------------------------------------------------------------------

  /** The chapter table, declaratively: chapter `k` starts at the sum of the
      word counts before it; all start unrendered. */
  function Chapters(counts: seq<nat>): (chapters: seq<Unit>)
    ensures |chapters| == |counts|
  {
    seq(|counts|, k requires 0 <= k < |counts| => Unit(Sum(counts[..k]), counts[k], false))
  }

  /** The loop that builds the chapter table with a running word index
      (script.js:478-492), given each chapter's word count. */
  method BuildChapters(counts: seq<nat>) returns (chapters: seq<Unit>)
    ensures chapters == Chapters(counts)
  {
    chapters := [];
    var cumulative := 0;
    var k := 0;
    while k < |counts|
      invariant k <= |counts|
      invariant |chapters| == k
      invariant cumulative == Sum(counts[..k])
      invariant chapters == Chapters(counts)[..k]
    {
      chapters := chapters + [Unit(cumulative, counts[k], false)];
      SumStep(counts, k);
      cumulative := cumulative + counts[k];
      k := k + 1;
    }
    assert counts[..k] == counts;
  }

  /** Chapters tile [0, sum of counts) and keep each chapter's count. */
  lemma ChaptersTile(counts: seq<nat>)
    ensures Tiles(Chapters(counts), Sum(counts))
    ensures Counts(Chapters(counts)) == counts
  {
    var c := Chapters(counts);
    forall k | 0 <= k < |c| - 1
      ensures c[k].start + c[k].count == c[k + 1].start
    {
      SumStep(counts, k);
    }
    if |c| > 0 {
      SumStep(counts, |c| - 1);
      assert counts[..|c|] == counts;
    }
    assert Contiguous(c, 0, Sum(counts));
    TilesIffContiguous(c, 0, Sum(counts));
  }
}
