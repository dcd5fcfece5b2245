/**
 * `estimate_ai_lines`: how many of a file's lines are AI generated, from its TYPE and
 * its method, struct and trait entries.
 */
module Estimator {
  import opened HeaderParser

  /** A partial entry counts only when both of its bounds are non-zero. */
  predicate Counted(e: Entry) {
    e.coverage.Partial? && e.coverage.start != 0 && e.coverage.end != 0
  }

  /** The sum of `end - start + 1` over the counted partial entries; it may be negative. */
  function PartialLines(items: seq<Entry>): int
    decreases |items|
  {
    if items == [] then 0
    else
      var e := items[|items| - 1];
      PartialLines(items[..|items| - 1]) + (if Counted(e) then e.coverage.end - e.coverage.start + 1 else 0)
  }

  /** The number of whole entries. */
  function WholeItems(items: seq<Entry>): (n: nat)
    ensures n <= |items|
    decreases |items|
  {
    if items == [] then 0
    else WholeItems(items[..|items| - 1]) + (if items[|items| - 1].coverage.Whole? then 1 else 0)
  }

  function Min(a: int, b: int): int {
    if a <= b then a else b
  }

  /**
   * The estimate for a file of `total` lines: all of them for WHOLE; for ABOVE_50 and
   * DOWN_50 the line ranges of the partial entries plus 20 lines per whole entry, at most
   * `total`, when the ranges add up to something positive, and otherwise three quarters
   * or a quarter of the file; nothing for any other type.
   */
  function Estimate(total: nat, kind: string, items: seq<Entry>): (r: int)
    ensures 0 <= r <= total
  {
    if kind == "WHOLE" then total
    else if kind != "ABOVE_50" && kind != "DOWN_50" then 0
    else
      var partial := PartialLines(items);
      if partial > 0 then Min(partial + 20 * WholeItems(items), total)
      else if kind == "ABOVE_50" then (3 * total) / 4
      else total / 4
  }

  /** `estimate_ai_lines`, with its loop over the entries of the three lists. */
  method EstimateAiLines(total: nat, kind: string, methods: seq<Entry>, structs: seq<Entry>, traits: seq<Entry>)
    returns (r: int)
    ensures r == Estimate(total, kind, methods + structs + traits)
  {
    var base: int;
    if kind == "WHOLE" {
      return total;
    } else if kind == "ABOVE_50" {
      base := (3 * total) / 4;
    } else if kind == "DOWN_50" {
      base := total / 4;
    } else {
      return 0;
    }
    var items := methods + structs + traits;
    var partialLines, wholeItems := 0, 0;
    var i := 0;
    while i < |items|
      invariant 0 <= i <= |items|
      invariant partialLines == PartialLines(items[..i]) && wholeItems == WholeItems(items[..i])
    {
      var item := items[i];
      assert items[..i + 1][..i] == items[..i];
      if item.coverage.Partial? && item.coverage.start != 0 && item.coverage.end != 0 {
        partialLines := partialLines + (item.coverage.end - item.coverage.start + 1);
      } else if item.coverage.Whole? {
        wholeItems := wholeItems + 1;
      }
      i := i + 1;
    }
    assert items[..i] == items;
    if partialLines > 0 {
      return Min(partialLines + wholeItems * 20, total);
    }
    return base;
  }

  /** WHOLE takes the whole file, whatever the entries say. */
  lemma WholeTakesAll(total: nat, items: seq<Entry>)
    ensures Estimate(total, "WHOLE", items) == total
  {
  }

  /** A type other than the three estimates to nothing, whatever the entries say. */
  lemma UnknownTypeIsZero(total: nat, kind: string, items: seq<Entry>)
    requires kind != "WHOLE" && kind != "ABOVE_50" && kind != "DOWN_50"
    ensures Estimate(total, kind, items) == 0
  {
  }

  /** Without a positive sum of ranges, ABOVE_50 gives three quarters and DOWN_50 a quarter. */
  lemma FallbackShares(total: nat, items: seq<Entry>)
    requires PartialLines(items) <= 0
    ensures Estimate(total, "ABOVE_50", items) == (3 * total) / 4
    ensures Estimate(total, "DOWN_50", items) == total / 4
    ensures 4 * Estimate(total, "DOWN_50", items) <= total
    ensures Estimate(total, "DOWN_50", items) <= Estimate(total, "ABOVE_50", items)
  {
  }

  /** A 200-line ABOVE_50 file without partial entries is estimated at 150 lines. */
  lemma Above50Example()
    ensures Estimate(200, "ABOVE_50", []) == 150
  {
  }

  /** A positive sum of ranges replaces the fallback, and may be capped at the file size. */
  lemma RangesReplaceShare(total: nat, kind: string, items: seq<Entry>)
    requires kind == "ABOVE_50" || kind == "DOWN_50"
    requires PartialLines(items) > 0
    ensures Estimate(total, kind, items) == Min(PartialLines(items) + 20 * WholeItems(items), total)
    ensures Estimate(total, kind, items) >= 1 || total == 0
  {
  }

  /** A partial entry with a zero bound is skipped: it changes neither sum nor count. */
  lemma {:induction false} ZeroBoundSkipped(items: seq<Entry>, e: Entry)
    requires e.coverage.Partial? && (e.coverage.start == 0 || e.coverage.end == 0)
    ensures PartialLines(items + [e]) == PartialLines(items)
    ensures WholeItems(items + [e]) == WholeItems(items)
  {
    assert (items + [e])[..|items|] == items;
  }

  /** Both sums are additive over a concatenation, so the three lists may come in any order. */
  lemma {:induction false} SumsAppend(a: seq<Entry>, b: seq<Entry>)
    ensures PartialLines(a + b) == PartialLines(a) + PartialLines(b)
    ensures WholeItems(a + b) == WholeItems(a) + WholeItems(b)
    decreases |b|
  {
    if b == [] {
      assert a + b == a;
    } else {
      var init := b[..|b| - 1];
      assert (a + b)[..|a + b| - 1] == a + init;
      SumsAppend(a, init);
    }
  }

  /** The estimate does not depend on the order of the three lists. */
  lemma ListOrderIrrelevant(total: nat, kind: string, methods: seq<Entry>, structs: seq<Entry>, traits: seq<Entry>)
    ensures Estimate(total, kind, methods + structs + traits) == Estimate(total, kind, traits + structs + methods)
  {
    SumsAppend(methods, structs);
    SumsAppend(methods + structs, traits);
    SumsAppend(traits, structs);
    SumsAppend(traits + structs, methods);
  }
}
