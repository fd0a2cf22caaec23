/** The product page: the normalisation of the fetched record's `specs`,
    `images` and legacy `image` fields (each may arrive as JSON text, as an
    array or not at all), the images given to the carousel and to the cart,
    the edit form's defaults, and the discounted price with its
    strike-through. `JSON.parse` is the parameter `parse`, `None` when it
    throws. */
module ProductDetails {
  import opened Wrappers
  import opened Text
  import opened Js
  import opened Pricing

  const Placeholder := "/placeholder.jpg"

  /** The fields of the fetched product the page reads. */
  datatype ProductData = ProductData(
    name: Js, description: Js, fullDescription: Js, price: Js, category: Js,
    specs: Js, images: Js, image: Js)

  /** The fallback for specs text that is not JSON: cut at every comma and
      trim each piece. */
  function CommaSpecs(s: string): (r: seq<Js>)
    ensures |r| == |Split(s, ",")|
  {
    var pieces := Split(s, ",");
    seq(|pieces|, k requires 0 <= k < |pieces| => Str(Strip(pieces[k])))
  }

  /** `specs` as the query function leaves it: `[]` when the field is
      falsy, the parsed value of a string (the comma fallback when it is
      not JSON), an array as it is, and `[]` for anything else. */
  function Specs(v: Js, parse: string -> Option<Js>): (r: Js)
    ensures !Truthy(v) ==> r == Arr([])
    ensures v.Arr? ==> r == v
    ensures v.Str? && v.s != "" && parse(v.s).None? ==> r == Arr(CommaSpecs(v.s))
    ensures v.Str? && v.s != "" && parse(v.s).Some? ==> r == parse(v.s).value
    ensures Truthy(v) && !v.Str? && !v.Arr? ==> r == Arr([])
  {
    if !Truthy(v) then Arr([])
    else if v.Str? then
      match parse(v.s)
      case Some(parsed) => parsed
      case None => Arr(CommaSpecs(v.s))
    else if v.Arr? then v
    else Arr([])
  }

  /** Specs written as comma-separated text that is not JSON come back as
      the list they were written from, when no spec holds a comma or
      surrounding whitespace. */
  lemma CommaSpecsRoundTrip(specs: seq<string>, parse: string -> Option<Js>)
    requires |specs| >= 1 && Join(specs, ",") != ""
    requires forall k :: 0 <= k < |specs| ==> ',' !in specs[k] && Strip(specs[k]) == specs[k]
    requires parse(Join(specs, ",")).None?
    ensures Specs(Str(Join(specs, ",")), parse) == Arr(seq(|specs|, k requires 0 <= k < |specs| => Str(specs[k])))
  {
    var text := Join(specs, ",");
    assert Split(text, ",") == specs by {
      assert "," == [','];
      SplitJoin(specs, ',');
    }
    CommaSpecsOfPieces(text, specs);
  }

  /** The comma fallback on text whose pieces are already trimmed keeps
      them as they are. */
  lemma CommaSpecsOfPieces(text: string, specs: seq<string>)
    requires Split(text, ",") == specs
    requires forall k :: 0 <= k < |specs| ==> Strip(specs[k]) == specs[k]
    ensures CommaSpecs(text) == seq(|specs|, k requires 0 <= k < |specs| => Str(specs[k]))
  {
    var c := CommaSpecs(text);
    forall k | 0 <= k < |specs|
      ensures c[k] == Str(specs[k])
    {
      assert c[k] == Str(Strip(specs[k]));
    }
  }

  /** `specsToRender`: the specs when they are an array, otherwise none. */
  function SpecsToRender(specs: Js): (r: seq<Js>)
    ensures specs.Arr? ==> r == specs.elems
    ensures !specs.Arr? ==> r == []
  {
    if specs.Arr? then specs.elems else []
  }

  /** `images` as the query function leaves it. A truthy `images` field
      decides alone: a string is parsed, or kept as a one-element list when
      it is not JSON; an array is kept; anything else gives `[]`. Without
      it the legacy `image` field is read the same way, except that JSON
      text that parses to something other than an array also becomes a
      one-element list of the text. */
  function Images(images: Js, image: Js, parse: string -> Option<Js>): (r: Js)
  {
    if Truthy(images) then
      if images.Str? then parse(images.s).GetOr(Arr([images]))
      else if images.Arr? then images
      else Arr([])
    else if Truthy(image) then
      if image.Str? then
        match parse(image.s)
        case Some(parsed) => if parsed.Arr? then parsed else Arr([image])
        case None => Arr([image])
      else if image.Arr? then image
      else Arr([])
    else Arr([])
  }

  /** A truthy `images` field takes precedence: `image` is then not read. */
  lemma ImagesPrecedence(images: Js, image1: Js, image2: Js, parse: string -> Option<Js>)
    requires Truthy(images)
    ensures Images(images, image1, parse) == Images(images, image2, parse)
    ensures images.Str? && parse(images.s).None? ==> Images(images, image1, parse) == Arr([images])
  {
  }

  /** Read through the legacy field, a non-empty image string always gives
      an array: the parsed one when the text is a JSON array, otherwise the
      text itself as the only element. */
  lemma LegacyImageText(images: Js, s: string, parse: string -> Option<Js>)
    requires !Truthy(images) && s != ""
    ensures Images(images, Str(s), parse).Arr?
    ensures parse(s).Some? && parse(s).value.Arr? ==> Images(images, Str(s), parse) == parse(s).value
    ensures !(parse(s).Some? && parse(s).value.Arr?) ==> Images(images, Str(s), parse) == Arr([Str(s)])
  {
  }

  /** `carouselImages`: the normalised images when they form a non-empty
      array, else the raw `image` when that is a non-empty array, else the
      raw `image`, or the placeholder when it is falsy, as the only
      element. The list is never empty. */
  function CarouselImages(images: Js, image: Js): (r: seq<Js>)
    ensures |r| > 0
    ensures IsNonEmptyArray(images) ==> r == images.elems
    ensures !IsNonEmptyArray(images) && IsNonEmptyArray(image) ==> r == image.elems
    ensures !IsNonEmptyArray(images) && !IsNonEmptyArray(image) ==> r == [Or(image, Str(Placeholder))]
  {
    if IsNonEmptyArray(images) then images.elems
    else if IsNonEmptyArray(image) then image.elems
    else [Or(image, Str(Placeholder))]
  }

  /** The image put into the cart by `handleAddToCart`. */
  function CartImage(images: Js, image: Js): Js
  {
    if IsNonEmptyArray(images) then images.elems[0]
    else if IsNonEmptyArray(image) then image.elems[0]
    else Or(image, Str(Placeholder))
  }

  /** The cart gets the image the carousel opens with. */
  lemma CartImageIsFirstSlide(images: Js, image: Js)
    ensures CartImage(images, image) == CarouselImages(images, image)[0]
  {
  }

  /** The form `setEditProduct` fills. */
  datatype EditForm = EditForm(
    name: Js, description: Js, fullDescription: Js, price: string, category: Js, specs: Js, images: Js)

  /** The edit form for the fetched record: text fields default to `''`, the
      price is its text when truthy and `'0'` otherwise (so also for a price
      of 0), and the normalised specs and images are taken as they are.
      `numText` is `Number.prototype.toString`. */
  function EditFormOf(data: ProductData, specs: Js, images: Js, numText: real -> string): (r: EditForm)
    ensures r.specs == specs && r.images == images
    ensures !Truthy(data.price) ==> r.price == "0"
    ensures Truthy(data.price) && data.price.Str? ==> r.price == data.price.s
  {
    EditForm(
      Or(data.name, Str("")),
      Or(data.description, Str("")),
      Or(data.fullDescription, Str("")),
      if Truthy(data.price) then ToText(data.price, numText) else "0",
      Or(data.category, Str("")),
      specs, images)
  }

  /** No text field of the form is ever missing or null: each is the
      record's value when truthy, and `''` otherwise. */
  lemma EditFormTextDefaults(data: ProductData, specs: Js, images: Js, numText: real -> string)
    ensures var f := EditFormOf(data, specs, images, numText);
      f.name != Undefined && f.name != Null && f.description != Undefined && f.description != Null
      && f.fullDescription != Undefined && f.fullDescription != Null
      && f.category != Undefined && f.category != Null
    ensures !Truthy(data.name) ==> EditFormOf(data, specs, images, numText).name == Str("")
    ensures Truthy(data.name) ==> EditFormOf(data, specs, images, numText).name == data.name
    ensures !Truthy(data.description) ==> EditFormOf(data, specs, images, numText).description == Str("")
    ensures Truthy(data.description) ==> EditFormOf(data, specs, images, numText).description == data.description
    ensures !Truthy(data.fullDescription) ==> EditFormOf(data, specs, images, numText).fullDescription == Str("")
    ensures Truthy(data.fullDescription) ==> EditFormOf(data, specs, images, numText).fullDescription == data.fullDescription
    ensures !Truthy(data.category) ==> EditFormOf(data, specs, images, numText).category == Str("")
    ensures Truthy(data.category) ==> EditFormOf(data, specs, images, numText).category == data.category
  {
  }

  /** The price shown and put into the cart: `calculateDiscountPrice(price,
      discount)`, where a missing discount counts as `NaN` and a null one
      as 0. */
  function DetailPrice(price: int, discount: NumField): int
  {
    DiscountPrice(price, Coerce(discount))
  }

  /** `product.discount > 0`: the old price is struck through and the
      percentage shown. */
  predicate ShowsStrike(discount: NumField)
  {
    Coerce(discount).Num? && Coerce(discount).v > 0.0
  }

  /** Without the strike-through the price shown is the full price. */
  lemma NoStrikeFullPrice(price: int, discount: NumField)
    requires !ShowsStrike(discount)
    ensures DetailPrice(price, discount) == price
  {
    if Coerce(discount).Num? && Coerce(discount).v == 0.0 {
      DiscountZero(price);
    }
  }

  /** With the strike-through and a percentage up to 100 the price shown
      lies between 0 and the struck-through price. */
  lemma StrikeLowersPrice(price: nat, discount: NumField)
    requires ShowsStrike(discount) && Coerce(discount).v <= 100.0
    ensures 0 <= DetailPrice(price, discount) <= price
  {
    DiscountBounds(price, 0.0, Coerce(discount).v);
    DiscountZero(price);
  }
}
