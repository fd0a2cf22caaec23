/** The product card of the shop grid: its discount default, its image URL
    and its discounted price, and their agreement with the product page. */
module ProductCard {
  import opened Wrappers
  import opened Js
  import opened Pricing
  import ProductDetails

  const Host := "http://localhost:3000"

  /** The fields of a product the card reads. */
  datatype CardProduct = CardProduct(id: int, price: int, image: Js, discount: NumField)

  /** `discount || 0`: a missing, null, `NaN` or zero discount is 0. The
      result is always a number. */
  function CardDiscount(d: NumField): (r: Number)
    ensures r.Num?
    ensures Coerce(d).Num? && Coerce(d).v != 0.0 && d.Given? ==> r == Coerce(d)
    ensures !(d.Given? && d.n.Num? && d.n.v != 0.0) ==> r == Num(0.0)
  {
    match d
    case Given(Num(v)) => if v != 0.0 then Num(v) else Num(0.0)
    case _ => Num(0.0)
  }

  /** `initialProduct`: the product passed in, its discount defaulted. */
  function Initial(p: CardProduct): (r: CardProduct)
    ensures r.discount.Given? && r.discount.n.Num?
    ensures r.discount == Given(CardDiscount(p.discount)) && r.(discount := p.discount) == p
  {
    p.(discount := Given(CardDiscount(p.discount)))
  }

  /** Defaulting once is defaulting twice: the card computes the same
      discount from the initial data as from the raw product. */
  lemma CardDiscountIdempotent(d: NumField)
    ensures CardDiscount(Given(CardDiscount(d))) == CardDiscount(d)
  {
  }

  /** The product the card shows: the fetched one, or the initial data when
      the request fails or answers with a non-ok status. */
  function Shown(p: CardProduct, response: Option<CardProduct>): (r: CardProduct)
    ensures response.None? ==> r == Initial(p)
    ensures response.Some? ==> r == response.value
  {
    response.GetOr(Initial(p))
  }

  /** `imageUrl`: a string image is parsed as JSON (the parameter `parse`,
      `None` when it throws, which leaves the placeholder), any other value
      is used as it is; a non-empty array gives the host followed by its
      first element as a template literal renders it, anything else the
      placeholder. */
  function ImageUrl(image: Js, parse: string -> Option<Js>, numText: real -> string): (r: string)
  {
    var images := if image.Str? then parse(image.s) else Some(image);
    match images
    case None => ProductDetails.Placeholder
    case Some(v) => if IsNonEmptyArray(v) then Host + ToText(v.elems[0], numText) else ProductDetails.Placeholder
  }

  /** The URL is the placeholder or points at the server. */
  lemma ImageUrlShape(image: Js, parse: string -> Option<Js>, numText: real -> string)
    ensures ImageUrl(image, parse, numText) == ProductDetails.Placeholder || Host <= ImageUrl(image, parse, numText)
  {
  }

  /** The image column holds a JSON list of upload paths; the card shows the
      first path on the server. */
  lemma ImageUrlOfStoredPaths(text: string, first: string, rest: seq<Js>, parse: string -> Option<Js>,
                              numText: real -> string)
    requires parse(text) == Some(Arr([Str(first)] + rest))
    ensures ImageUrl(Str(text), parse, numText) == Host + first
  {
    assert ([Str(first)] + rest)[0] == Str(first);
  }

  /** Text that is not JSON, and JSON that is not a non-empty array, give
      the placeholder. */
  lemma ImageUrlFallback(text: string, parse: string -> Option<Js>, numText: real -> string)
    requires parse(text).None? || !IsNonEmptyArray(parse(text).value)
    ensures ImageUrl(Str(text), parse, numText) == ProductDetails.Placeholder
  {
  }

  /** The price on the card. */
  function CardPrice(price: int, d: NumField): int
  {
    DiscountPrice(price, CardDiscount(d))
  }

  /** `discount > 0`: the old price and "-discount%" are shown. */
  predicate ShowsOriginal(d: NumField)
  {
    CardDiscount(d).v > 0.0
  }

  /** The card and the product page agree on every product: they show the
      same price, and the old price exactly for the same discounts, though
      the card defaults the discount to 0 and the page does not. */
  lemma CardAgreesWithPage(price: int, d: NumField)
    ensures CardPrice(price, d) == ProductDetails.DetailPrice(price, d)
    ensures ShowsOriginal(d) <==> ProductDetails.ShowsStrike(d)
  {
    DiscountZero(price);
  }
}
