/**
 The total price of an order: the item prices reduced with `+` from 0, left to
 right, exactly as the stream `map(getPrice).reduce(0f, Float::sum)` does.
 */
module Pricing {
  import opened Models

  /** The left fold ((0 + p0) + p1) + ... over the item prices. */
  function TotalPrice(items: seq<Publication>): (total: Price)
    ensures (forall i :: 0 <= i < |items| ==> items[i].price >= 0) ==> total >= 0
  {
    if |items| == 0 then 0
    else TotalPrice(items[..|items| - 1]) + items[|items| - 1].price
  }

  /** The reduction as a loop over the items, in list order. */
  method ComputeTotal(items: seq<Publication>) returns (total: Price)
    ensures total == TotalPrice(items)
  {
    total := 0;
    var i := 0;
    while i < |items|
      invariant 0 <= i <= |items|
      invariant total == TotalPrice(items[..i])
    {
      assert items[..i + 1][..i] == items[..i];
      total := total + items[i].price;
      i := i + 1;
    }
    assert items[..|items|] == items;
  }

  /** An independent reference: the sum over the items taken from the front. */
  function SumOfPrices(items: seq<Publication>): Price
  {
    if |items| == 0 then 0 else items[0].price + SumOfPrices(items[1..])
  }

  /** The total of a concatenation is the sum of the totals. */
  lemma {:induction false} TotalOfConcat(a: seq<Publication>, b: seq<Publication>)
    ensures TotalPrice(a + b) == TotalPrice(a) + TotalPrice(b)
    decreases |b|
  {
    if |b| == 0 {
      assert a + b == a;
    } else {
      var b' := b[..|b| - 1];
      assert (a + b)[..|a + b| - 1] == a + b';
      TotalOfConcat(a, b');
    }
  }

  /** On exact arithmetic the left-to-right fold is the plain sum of the prices. */
  lemma {:induction false} TotalIsSumOfPrices(items: seq<Publication>)
    ensures TotalPrice(items) == SumOfPrices(items)
  {
    if |items| > 0 {
      assert items == [items[0]] + items[1..];
      TotalOfConcat([items[0]], items[1..]);
      assert [items[0]][..0] == [];
      TotalIsSumOfPrices(items[1..]);
    }
  }

  /** Only the common `price` field counts: variant-specific fields never change the total. */
  lemma {:induction false} TotalDependsOnlyOnPrices(a: seq<Publication>, b: seq<Publication>)
    requires |a| == |b|
    requires forall i :: 0 <= i < |a| ==> a[i].price == b[i].price
    ensures TotalPrice(a) == TotalPrice(b)
  {
    if |a| > 0 {
      TotalDependsOnlyOnPrices(a[..|a| - 1], b[..|b| - 1]);
    }
  }
}
