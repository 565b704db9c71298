/**
 * The price shown for a product on the best-seller carousel: the range of its
 * variants' prices, shown as one price when every variant costs the same and as
 * "min - max" otherwise. Prices are whole amounts of the shop's currency.
 */
module PriceRange {
  import opened Wrappers

  /** One variant of a product; only its price matters here. */
  datatype Variant = Variant(price: int)

  /** The range of a product's prices. */
  datatype Range = Range(min: int, max: int, isSinglePrice: bool)

  /** What the price slot of a carousel card shows. */
  datatype PriceLabel =
    | SinglePrice(price: int)        // one formatted price
    | PriceSpan(low: int, high: int) // "low - high"
    | ZeroPrice                      // the literal "0đ"
    | ContactForPrice                // the "contact for price" text

  /** The prices of the variants, in order. */
  function Prices(variants: seq<Variant>): (prices: seq<int>)
    ensures |prices| == |variants|
    ensures forall i :: 0 <= i < |variants| ==> prices[i] == variants[i].price
  {
    if |variants| == 0 then [] else [variants[0].price] + Prices(variants[1..])
  }

  /** The smallest of some prices (`Math.min` over a spread array). */
  function MinPrice(prices: seq<int>): (m: int)
    requires |prices| > 0
    ensures m in prices
    ensures forall i :: 0 <= i < |prices| ==> m <= prices[i]
  {
    if |prices| == 1 then prices[0]
    else
      var rest := MinPrice(prices[1..]);
      if prices[0] <= rest then prices[0] else rest
  }

  /** The largest of some prices (`Math.max` over a spread array). */
  function MaxPrice(prices: seq<int>): (m: int)
    requires |prices| > 0
    ensures m in prices
    ensures forall i :: 0 <= i < |prices| ==> prices[i] <= m
  {
    if |prices| == 1 then prices[0]
    else
      var rest := MaxPrice(prices[1..]);
      if prices[0] >= rest then prices[0] else rest
  }

  /** Every variant has the same price. */
  predicate AllSamePrice(variants: seq<Variant>) {
    forall i, j :: 0 <= i < |variants| && 0 <= j < |variants| ==> variants[i].price == variants[j].price
  }

  /**
   * The price range of a product's variants, or none when the list is missing
   * or empty. The bounds are prices of actual variants and enclose every price;
   * the range is a single price exactly when all variants cost the same.
   */
  function GetPriceRange(variants: Option<seq<Variant>>): (r: Option<Range>)
    ensures r.None? <==> variants.None? || |variants.value| == 0
    ensures r.Some? ==> r.value.min <= r.value.max
    ensures r.Some? ==> exists i :: 0 <= i < |variants.value| && variants.value[i].price == r.value.min
    ensures r.Some? ==> exists i :: 0 <= i < |variants.value| && variants.value[i].price == r.value.max
    ensures r.Some? ==> forall i :: 0 <= i < |variants.value| ==> r.value.min <= variants.value[i].price <= r.value.max
    ensures r.Some? ==> (r.value.isSinglePrice <==> AllSamePrice(variants.value))
  {
    if variants.None? || |variants.value| == 0 then None
    else
      var prices := Prices(variants.value);
      var lo := MinPrice(prices);
      var hi := MaxPrice(prices);
      assert lo == hi ==> AllSamePrice(variants.value);
      assert AllSamePrice(variants.value) ==> lo == hi by {
        if AllSamePrice(variants.value) {
          var i :| 0 <= i < |prices| && prices[i] == lo;
          var j :| 0 <= j < |prices| && prices[j] == hi;
        }
      }
      Some(Range(lo, hi, lo == hi))
  }

  /** The text inside the price slot once a range has been computed. */
  function RangeLabel(range: Option<Range>): (shown: PriceLabel)
    ensures range.None? <==> shown == ZeroPrice
    ensures range.Some? && range.value.isSinglePrice ==> shown == SinglePrice(range.value.min)
    ensures range.Some? && !range.value.isSinglePrice ==> shown == PriceSpan(range.value.min, range.value.max)
  {
    match range
    case None => ZeroPrice
    case Some(r) => if r.isSinglePrice then SinglePrice(r.min) else PriceSpan(r.min, r.max)
  }

  /**
   * The price slot of a carousel card: the "contact for price" text when the
   * product has no variant, otherwise the label of its price range.
   */
  function CardPriceLabel(variants: seq<Variant>): (shown: PriceLabel)
    ensures |variants| == 0 <==> shown == ContactForPrice
    ensures shown.SinglePrice? <==> |variants| > 0 && AllSamePrice(variants)
    ensures shown.SinglePrice? ==> forall i :: 0 <= i < |variants| ==> variants[i].price == shown.price
    ensures shown.PriceSpan? ==> shown.low < shown.high
    ensures shown.PriceSpan? ==> forall i :: 0 <= i < |variants| ==> shown.low <= variants[i].price <= shown.high
  {
    if |variants| > 0 then RangeLabel(GetPriceRange(Some(variants))) else ContactForPrice
  }

  /**
   * The "0đ" branch of the card is dead: it sits under the check that the
   * variant list is non-empty, where a range always exists.
   */
  lemma ZeroPriceNeverShown(variants: seq<Variant>)
    ensures CardPriceLabel(variants) != ZeroPrice
  {
  }

  /** Two variants at 30000 and 45000 show as the span "30000 - 45000", in either order. */
  lemma TwoPricesShowSpan()
    ensures CardPriceLabel([Variant(45000), Variant(30000)]) == PriceSpan(30000, 45000)
  {
    assert Prices([Variant(45000), Variant(30000)]) == [45000, 30000];
    assert [45000, 30000][1..] == [30000];
  }
}
