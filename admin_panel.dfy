/** The admin panel's local state: the product list with per-product
    selection and discount, the "all"/"selected" bulk discount, the order
    list whose statuses the admin changes, the status badges and the
    discounted price shown beside each product. Requests are left to the
    caller: a method returns the body it would send, and the server's
    answer comes in as a parameter. */
module AdminPanel {
  import opened Wrappers
  import opened Js
  import opened Pricing

  /** A product row: `selected` marks it for the "selected" bulk discount. */
  datatype Product = Product(id: int, name: string, price: int, discount: real, selected: bool)

  /** An order row; the fields the panel changes or keys on, and the rest
      carried along. */
  datatype Order = Order(id: int, status: string, totalPrice: int, shippingAddress: string)

  /** The two targets of the bulk discount. */
  datatype Target = All | SelectedOnly

  /** `toggleSelect(id)`: the product with that id has its mark flipped and
      every other product, and the order of all, stays as it was. */
  function ToggledSelect(ps: seq<Product>, id: int): (r: seq<Product>)
    ensures |r| == |ps|
    ensures forall k :: 0 <= k < |r| ==> r[k].(selected := ps[k].selected) == ps[k]
    ensures forall k :: 0 <= k < |r| ==> r[k].selected == (if ps[k].id == id then !ps[k].selected else ps[k].selected)
  {
    seq(|ps|, k requires 0 <= k < |ps| => if ps[k].id == id then ps[k].(selected := !ps[k].selected) else ps[k])
  }

  /** Toggling the same product twice restores the list. */
  lemma ToggleSelectTwice(ps: seq<Product>, id: int)
    ensures ToggledSelect(ToggledSelect(ps, id), id) == ps
  {
    var r := ToggledSelect(ToggledSelect(ps, id), id);
    forall k | 0 <= k < |ps|
      ensures r[k] == ps[k]
    {
    }
  }

  /** `updateDiscount(id, d)`: only the product with that id gets the
      discount, rounded to hundredths. */
  function WithDiscount(ps: seq<Product>, id: int, d: real): (r: seq<Product>)
    ensures |r| == |ps|
    ensures forall k :: 0 <= k < |r| ==> r[k].(discount := ps[k].discount) == ps[k]
    ensures forall k :: 0 <= k < |r| ==> r[k].discount == (if ps[k].id == id then Fixed2(d) else ps[k].discount)
  {
    seq(|ps|, k requires 0 <= k < |ps| => if ps[k].id == id then ps[k].(discount := Fixed2(d)) else ps[k])
  }

  /** Every discount the panel sets is already a whole number of
      hundredths: setting it again, rounded, changes nothing. */
  lemma WithDiscountStable(ps: seq<Product>, id: int, d: real)
    ensures WithDiscount(WithDiscount(ps, id, d), id, Fixed2(d)) == WithDiscount(ps, id, d)
  {
    Fixed2Idempotent(d);
  }

  /** The products `applyDiscount` sends: the rounded percentage on every
      product for "all", on the marked ones only for "selected". */
  function Discounted(ps: seq<Product>, target: Target, d: real): (r: seq<Product>)
    ensures |r| == |ps|
    ensures forall k :: 0 <= k < |r| ==> r[k].(discount := ps[k].discount) == ps[k]
    ensures forall k :: 0 <= k < |r| ==>
              r[k].discount == (if target == All || ps[k].selected then Fixed2(d) else ps[k].discount)
  {
    seq(|ps|, k requires 0 <= k < |ps| =>
      if target == All || ps[k].selected then ps[k].(discount := Fixed2(d)) else ps[k])
  }

  /** With every product marked, "selected" is "all"; with none marked it
      changes nothing. */
  lemma SelectedMatchesAll(ps: seq<Product>, d: real)
    ensures (forall k :: 0 <= k < |ps| ==> ps[k].selected) ==> Discounted(ps, SelectedOnly, d) == Discounted(ps, All, d)
    ensures (forall k :: 0 <= k < |ps| ==> !ps[k].selected) ==> Discounted(ps, SelectedOnly, d) == ps
  {
    if forall k :: 0 <= k < |ps| ==> !ps[k].selected {
      var r := Discounted(ps, SelectedOnly, d);
      forall k | 0 <= k < |ps|
        ensures r[k] == ps[k]
      {
      }
    }
  }

  /** `updateOrderStatus` after an ok answer: only the order with that id
      takes the new status. */
  function WithStatus(os: seq<Order>, id: int, status: string): (r: seq<Order>)
    ensures |r| == |os|
    ensures forall k :: 0 <= k < |r| ==> r[k].(status := os[k].status) == os[k]
    ensures forall k :: 0 <= k < |r| ==> r[k].status == (if os[k].id == id then status else os[k].status)
  {
    seq(|os|, k requires 0 <= k < |os| => if os[k].id == id then os[k].(status := status) else os[k])
  }

  /** A later status change of the same order overrides an earlier one. */
  lemma WithStatusOverrides(os: seq<Order>, id: int, s1: string, s2: string)
    ensures WithStatus(WithStatus(os, id, s1), id, s2) == WithStatus(os, id, s2)
  {
    var a := WithStatus(WithStatus(os, id, s1), id, s2);
    var b := WithStatus(os, id, s2);
    forall k | 0 <= k < |os|
      ensures a[k] == b[k]
    {
    }
  }

  /** The variants of the status badge. */
  datatype Variant = Default | Secondary | Destructive | Outline | Success

  /** `getStatusBadge(status)`: the label and variant for the four known
      statuses, and the status itself with the default variant for any
      other. */
  function StatusBadge(status: string): (r: (string, Variant))
    ensures status !in {"processing", "shipped", "delivered", "cancelled"} ==> r == (status, Default)
  {
    if status == "processing" then ("В обработке", Secondary)
    else if status == "shipped" then ("Отправлен", Default)
    else if status == "delivered" then ("Доставлен", Success)
    else if status == "cancelled" then ("Отменен", Destructive)
    else (status, Default)
  }

  /** The four known statuses get four different labels, none of them the
      status's own name. */
  lemma StatusLabelsDistinct(a: string, b: string)
    requires a in {"processing", "shipped", "delivered", "cancelled"}
    requires b in {"processing", "shipped", "delivered", "cancelled"}
    ensures StatusBadge(a).0 != a
    ensures a != b ==> StatusBadge(a).0 != StatusBadge(b).0
  {
  }

  /** The price shown beside each product, `price - price * (discount / 100)`,
      unrounded. */
  function DisplayedPrice(p: Product): real
  {
    p.price as real - p.price as real * (p.discount / 100.0)
  }

  /** Rounded, the panel's price is the price the shop pages show for the
      same non-negative discount. */
  lemma DisplayedPriceRounds(p: Product)
    requires p.discount >= 0.0
    ensures Round(DisplayedPrice(p)) == DiscountPrice(p.price, Num(p.discount))
  {
    assert DisplayedPrice(p) == p.price as real * (1.0 - p.discount / 100.0);
  }

  /** The panel's product and order lists, the typed bulk percentage and
      the bulk target. */
  class Panel {
    var products: seq<Product>
    var orders: seq<Order>
    var inputDiscount: string
    var discountTarget: Target

    /** Empty lists, no percentage typed, target "all". */
    constructor()
      ensures products == [] && orders == [] && inputDiscount == "" && discountTarget == All
    {
      products := [];
      orders := [];
      inputDiscount := "";
      discountTarget := All;
    }

    method ToggleSelect(id: int)
      modifies this
      ensures products == ToggledSelect(old(products), id)
      ensures orders == old(orders) && inputDiscount == old(inputDiscount) && discountTarget == old(discountTarget)
    {
      products := ToggledSelect(products, id);
    }

    method UpdateDiscount(id: int, d: real)
      modifies this
      ensures products == WithDiscount(old(products), id, d)
      ensures orders == old(orders) && inputDiscount == old(inputDiscount) && discountTarget == old(discountTarget)
    {
      products := WithDiscount(products, id, d);
    }

    /** `applyDiscount`, up to the request: `parseFloat` reads the typed
        percentage. Text that does not read as a number changes nothing and
        sends nothing; otherwise the list is updated at once, whatever the
        server answers later, and the updated list is the request body. */
    method ApplyDiscount(parseFloat: string -> Number) returns (request: Option<seq<Product>>)
      modifies this
      ensures parseFloat(old(inputDiscount)).NaN? ==> request.None? && products == old(products)
      ensures parseFloat(old(inputDiscount)).Num? ==>
                products == Discounted(old(products), old(discountTarget), parseFloat(old(inputDiscount)).v)
                && request == Some(products)
      ensures orders == old(orders) && inputDiscount == old(inputDiscount) && discountTarget == old(discountTarget)
    {
      var numeric := parseFloat(inputDiscount);
      if numeric.NaN? {
        return None;
      }
      products := Discounted(products, discountTarget, numeric.v);
      request := Some(products);
    }

    /** `updateOrderStatus` once the server has answered: `ok` is
        `response.ok`, false also when the request threw. */
    method UpdateOrderStatus(orderId: int, newStatus: string, ok: bool)
      modifies this
      ensures ok ==> orders == WithStatus(old(orders), orderId, newStatus)
      ensures !ok ==> orders == old(orders)
      ensures products == old(products) && inputDiscount == old(inputDiscount) && discountTarget == old(discountTarget)
    {
      if ok {
        orders := WithStatus(orders, orderId, newStatus);
      }
    }
  }
}
