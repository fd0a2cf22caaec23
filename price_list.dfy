/** The price list page: the fetched list whose first record is a header
    carrying the shop-wide discount, the discounting of every item price
    (`updatePrices`), the basic/full category filter and the switch that
    shows discounted prices with an old-price column only for a non-zero
    discount. */
module PriceList {
  import opened Wrappers
  import opened Js
  import opened Pricing
  import opened Seqs

  /** One row of a category: a service and its price in roubles, and the
      price before discounting once `updatePrices` has run. */
  datatype PriceItem = PriceItem(service: string, price: int, oldPrice: Option<int>)

  /** A record of the price file. The header record carries `Discount`;
      in the other records that field is absent, which, like `NaN`, fails
      `isNaN` and differs from 0, so both are `NaN` here. */
  datatype Record = Record(discount: Number, category: string, items: seq<PriceItem>, note: Option<string>)

  /** The four categories of the basic view, in the source's order. */
  const BasicCategories: seq<string> := [
    "Монтаж кондиционеров настенного типа",
    "Монтаж мульти сплит-систем до 9 кВт c настенными внутренними блоками",
    "Дополнительные работы (отдельно, без материалов, стоимость установки коробов, прокладки кабеля и т.п. рассчитывается как 50% от стоимости в прайс листе)",
    "Стоимость услуг сервисного обслуживания систем кондиционирования"
  ]

  /** One item discounted by a valid percentage: the old price is kept
      beside the new, rounded one. */
  function DiscountItem(it: PriceItem, p: real): PriceItem
  {
    it.(oldPrice := Some(it.price), price := Round(it.price as real * (1.0 - p / 100.0)))
  }

  function DiscountRecord(c: Record, p: real): Record
  {
    c.(items := seq(|c.items|, j requires 0 <= j < |c.items| => DiscountItem(c.items[j], p)))
  }

  /** `updatePrices(data, p)`: the data unchanged for an invalid percentage,
      otherwise every item of every record discounted. */
  function UpdatePrices(data: seq<Record>, p: Number): (r: seq<Record>)
    ensures InvalidPercent(p) ==> r == data
    ensures |r| == |data|
  {
    if InvalidPercent(p) then data
    else seq(|data|, i requires 0 <= i < |data| => DiscountRecord(data[i], p.v))
  }

  /** With a valid percentage the shape of the data is kept (records, their
      order and every field but the items' prices), each item's old price
      is its previous price and its new price is the discounted one. */
  lemma UpdatePricesItems(data: seq<Record>, p: Number, i: int, j: int)
    requires !InvalidPercent(p)
    requires 0 <= i < |data| && 0 <= j < |data[i].items|
    ensures UpdatePrices(data, p)[i].category == data[i].category
    ensures UpdatePrices(data, p)[i].note == data[i].note
    ensures UpdatePrices(data, p)[i].discount == data[i].discount
    ensures |UpdatePrices(data, p)[i].items| == |data[i].items|
    ensures UpdatePrices(data, p)[i].items[j].service == data[i].items[j].service
    ensures UpdatePrices(data, p)[i].items[j].oldPrice == Some(data[i].items[j].price)
    ensures UpdatePrices(data, p)[i].items[j].price == DiscountPrice(data[i].items[j].price, p)
  {
  }

  /** For a percentage between 0 and 100 no discounted price exceeds the
      old one, and none falls below 0 when the old one was not negative. */
  lemma UpdatePricesBounds(data: seq<Record>, p: real, i: int, j: int)
    requires 0.0 <= p <= 100.0
    requires 0 <= i < |data| && 0 <= j < |data[i].items|
    requires data[i].items[j].price >= 0
    ensures 0 <= UpdatePrices(data, Num(p))[i].items[j].price <= data[i].items[j].price
  {
    DiscountBounds(data[i].items[j].price, 0.0, p);
    DiscountZero(data[i].items[j].price);
  }

  /** A zero percentage keeps every price; it only fills in the old prices. */
  lemma ZeroPercentKeepsPrices(data: seq<Record>, i: int, j: int)
    requires 0 <= i < |data| && 0 <= j < |data[i].items|
    ensures UpdatePrices(data, Num(0.0))[i].items[j].price == data[i].items[j].price
  {
    DiscountZero(data[i].items[j].price);
  }

  /** Putting the old prices back, for undoing a discount. */
  function RestoreRecord(c: Record): Record
  {
    c.(items := seq(|c.items|, j requires 0 <= j < |c.items| =>
                      c.items[j].(price := c.items[j].oldPrice.GetOr(c.items[j].price), oldPrice := None)))
  }

  function Restore(data: seq<Record>): (r: seq<Record>)
    ensures |r| == |data|
  {
    seq(|data|, i requires 0 <= i < |data| => RestoreRecord(data[i]))
  }

  /** No item has been discounted yet. */
  predicate Undiscounted(data: seq<Record>)
  {
    forall i, j :: 0 <= i < |data| && 0 <= j < |data[i].items| ==> data[i].items[j].oldPrice.None?
  }

  /** Discounting fresh data loses nothing: the old prices give the data back. */
  lemma RestoreUpdatePrices(data: seq<Record>, p: Number)
    requires Undiscounted(data)
    ensures Restore(UpdatePrices(data, p)) == data
  {
    var u := UpdatePrices(data, p);
    forall i | 0 <= i < |data|
      ensures Restore(u)[i] == data[i]
    {
      var c := data[i];
      assert RestoreRecord(u[i]).items == c.items by {
        forall j | 0 <= j < |c.items|
          ensures RestoreRecord(u[i]).items[j] == c.items[j]
        {
          assert c.items[j].oldPrice.None?;
        }
      }
    }
  }

  /** `basicCategories.includes(category.category)`. */
  predicate IsBasic(c: Record)
  {
    c.category in BasicCategories
  }

  /** `getFilteredCategories()`: every record in the "full" view, the basic
      ones, in order, in any other view. */
  function FilteredCategories(records: seq<Record>, viewMode: string): (r: seq<Record>)
    ensures viewMode == "full" ==> r == records
    ensures viewMode != "full" ==> IsSubsequence(r, records)
    ensures viewMode != "full" ==> forall k :: 0 <= k < |r| ==> r[k].category in BasicCategories
    ensures viewMode != "full" ==>
              forall k :: 0 <= k < |records| && records[k].category in BasicCategories ==> records[k] in r
  {
    if viewMode == "full" then records else Filter(records, IsBasic)
  }

  /** The categories `renderPriceList` draws: discounted exactly when the
      discount is not 0. */
  function Rendered(categories: seq<Record>, discount: Number): (r: seq<Record>)
    ensures discount == Num(0.0) ==> r == categories
    ensures discount != Num(0.0) ==> r == UpdatePrices(categories, discount)
  {
    if discount != Num(0.0) then UpdatePrices(categories, discount) else categories
  }

  /** The old-price column appears exactly when the discount is not 0. */
  predicate ShowsOldPrice(discount: Number)
  {
    discount != Num(0.0)
  }

  /** Discounting keeps every category name, so it can be done before or
      after the basic filter with the same result. */
  lemma {:induction false} UpdatePricesCommutesWithFilter(records: seq<Record>, p: Number)
    ensures UpdatePrices(Filter(records, IsBasic), p) == Filter(UpdatePrices(records, p), IsBasic)
    decreases |records|
  {
    if records != [] && !InvalidPercent(p) {
      var x, tail := records[0], records[1..];
      assert records == [x] + tail;
      var d := DiscountRecord(x, p.v);
      UpdatePricesCons(x, tail, p);
      UpdatePricesCommutesWithFilter(tail, p);
      FilterCons(d, UpdatePrices(tail, p), IsBasic);
      FilterCons(x, tail, IsBasic);
      if IsBasic(x) {
        UpdatePricesCons(x, Filter(tail, IsBasic), p);
      }
    }
  }

  /** Discounting a list works record by record. */
  lemma UpdatePricesCons(x: Record, rest: seq<Record>, p: Number)
    requires !InvalidPercent(p)
    ensures UpdatePrices([x] + rest, p) == [DiscountRecord(x, p.v)] + UpdatePrices(rest, p)
  {
    var l, r := UpdatePrices([x] + rest, p), [DiscountRecord(x, p.v)] + UpdatePrices(rest, p);
    forall k | 0 <= k < |l|
      ensures l[k] == r[k]
    {
      if k > 0 {
        assert ([x] + rest)[k] == rest[k - 1];
      }
    }
  }

  /** The page's state: the discount, the categories and the view. */
  class PriceListPage {
    var discount: Number
    var categories: seq<Record>
    var viewMode: string

    /** Discount 0, no categories, the basic view. */
    constructor()
      ensures discount == Num(0.0) && categories == [] && viewMode == "basic"
    {
      discount := Num(0.0);
      categories := [];
      viewMode := "basic";
    }

    /** `GetPrice`: `response` is the parsed list, or `None` when the fetch
        or the parse threw. The first record's discount is taken and the
        record removed; the rest become the categories in their order. An
        empty list throws on `data[0].Discount`, and every throw is caught
        with the state left as it was. */
    method GetPrice(response: Option<seq<Record>>)
      modifies this
      ensures viewMode == old(viewMode)
      ensures response.None? || response.value == [] ==>
                discount == old(discount) && categories == old(categories)
      ensures response.Some? && response.value != [] ==>
                discount == response.value[0].discount && categories == response.value[1..]
    {
      if response.None? || response.value == [] {
        return;
      }
      var data := response.value;
      discount := data[0].discount;
      data := data[1..];
      categories := data;
    }

    /** The tab switch. */
    method SetViewMode(mode: string)
      modifies this
      ensures viewMode == mode && discount == old(discount) && categories == old(categories)
    {
      viewMode := mode;
    }

    /** What the page shows. */
    function Shown(): seq<Record>
      reads this
    {
      Rendered(FilteredCategories(categories, viewMode), discount)
    }
  }

  /** A fresh page that loaded `[header] + records` shows, in the basic view,
      the basic records discounted by the header's discount, or as they are
      when that discount is 0. */
  lemma LoadedPageShows(header: Record, records: seq<Record>)
    ensures Rendered(FilteredCategories(([header] + records)[1..], "basic"), header.discount)
              == (if header.discount == Num(0.0) then Filter(records, IsBasic)
                  else Filter(UpdatePrices(records, header.discount), IsBasic))
  {
    assert ([header] + records)[1..] == records;
    UpdatePricesCommutesWithFilter(records, header.discount);
  }
}
