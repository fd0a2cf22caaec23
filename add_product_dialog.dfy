/** The admin's add-product dialog: its form state, the specification
    lines, the image picker that reads the chosen files as data URLs, the
    request body it posts and the reset after a successful add. Reading a
    file is the parameter `read`, `parseFloat` the parameter `parseFloat`. */
module AddProductDialog {
  import opened Wrappers
  import opened Js
  import opened SpecList
  import Catalog
  import ProductApi

  /** The most files one selection may hold. */
  const MaxFiles := 3

  datatype NewProduct = NewProduct(
    name: string, description: string, fullDescription: string, price: string, category: string,
    specs: seq<string>, image: seq<string>)

  /** The state the dialog opens with and returns to: empty fields, one
      empty spec line and no images. */
  const Blank := NewProduct("", "", "", "", "", [""], [])

  /** The files of one selection read in order, after the images already
      held. */
  function WithImages<F>(p: NewProduct, files: seq<F>, read: F -> string): (r: NewProduct)
    ensures r.(image := p.image) == p
    ensures |r.image| == |p.image| + |files|
    ensures r.image[..|p.image|] == p.image
    ensures forall k :: 0 <= k < |files| ==> r.image[|p.image| + k] == read(files[k])
  {
    p.(image := p.image + seq(|files|, k requires 0 <= k < |files| => read(files[k])))
  }

  /** The cap applies to each selection, not to the images held: selections
      of up to three files each add up. */
  lemma {:induction false} SelectionsAccumulate<F>(p: NewProduct, a: seq<F>, b: seq<F>, read: F -> string)
    ensures |WithImages(WithImages(p, a, read), b, read).image| == |p.image| + |a| + |b|
    ensures WithImages(WithImages(p, a, read), b, read) == WithImages(p, a + b, read)
  {
    var two := WithImages(WithImages(p, a, read), b, read);
    var one := WithImages(p, a + b, read);
    assert |two.image| == |one.image|;
    forall k | 0 <= k < |one.image|
      ensures two.image[k] == one.image[k]
    {
      if k < |p.image| {
        assert two.image[k] == WithImages(p, a, read).image[k];
      } else if k < |p.image| + |a| {
        assert two.image[k] == WithImages(p, a, read).image[k];
        assert (a + b)[k - |p.image|] == a[k - |p.image|];
      } else {
        assert (a + b)[k - |p.image|] == b[k - |p.image| - |a|];
      }
    }
  }

  /** The JSON body `mutationFn` posts: the form's fields, the price read by
      `parseFloat` (a `NaN` serialises as `null`), the specs and the images
      as lists of text. */
  function RequestBody(p: NewProduct, parseFloat: string -> Number): (r: (Catalog.ProductForm, Js))
    ensures parseFloat(p.price).NaN? <==> r.0.price == Null
    ensures r.1.Arr? && |r.1.elems| == |p.image|
    ensures forall k :: 0 <= k < |p.image| ==> r.1.elems[k] == Str(p.image[k])
    ensures r.0.specs.Arr? && |r.0.specs.elems| == |p.specs|
  {
    var price := parseFloat(p.price);
    (Catalog.ProductForm(Str(p.name), Str(p.description), Str(p.fullDescription),
                         if price.NaN? then Null else Numb(price),
                         Str(p.category),
                         Arr(seq(|p.specs|, k requires 0 <= k < |p.specs| => Str(p.specs[k]))),
                         Undefined),
     Arr(seq(|p.image|, k requires 0 <= k < |p.image| => Str(p.image[k]))))
  }

  class Dialog {
    var newProduct: NewProduct

    constructor()
      ensures newProduct == Blank
    {
      newProduct := Blank;
    }

    method HandleAddSpec()
      modifies this
      ensures newProduct == old(newProduct).(specs := AddedSpec(old(newProduct.specs), ""))
    {
      newProduct := newProduct.(specs := AddedSpec(newProduct.specs, ""));
    }

    /** `handleSpecChange(index, value)` on the line of a rendered input. */
    method HandleSpecChange(index: nat, value: string)
      requires index < |newProduct.specs|
      modifies this
      ensures |newProduct.specs| == |old(newProduct.specs)| && newProduct.specs[index] == value
      ensures forall k :: 0 <= k < |old(newProduct.specs)| && k != index ==> newProduct.specs[k] == old(newProduct.specs)[k]
      ensures newProduct.(specs := old(newProduct.specs)) == old(newProduct)
    {
      var newSpecs := SpecChanged(newProduct.specs, index, value);
      newProduct := newProduct.(specs := newSpecs);
    }

    /** The file input's `onChange`: more than three files raise the alert
        and change nothing; otherwise the files' data URLs are appended. */
    method SelectFiles<F>(files: seq<F>, read: F -> string) returns (alerted: bool)
      modifies this
      ensures alerted <==> |files| > MaxFiles
      ensures alerted ==> newProduct == old(newProduct)
      ensures !alerted ==> newProduct == WithImages(old(newProduct), files, read)
    {
      if |files| > MaxFiles {
        return true;
      }
      newProduct := WithImages(newProduct, files, read);
      return false;
    }

    /** The add request's outcome: `onSuccess` resets the form, `onError`
        keeps it for another try. */
    method Added(ok: bool)
      modifies this
      ensures ok ==> newProduct == Blank
      ensures !ok ==> newProduct == old(newProduct)
    {
      if ok {
        newProduct := Blank;
      }
    }
  }

  /** Two selections of three files each are both accepted by the dialog,
      and the six images it then posts are refused with 400 by the server,
      which takes one to three images. */
  method TwoSelectionsRefused<F>(files: seq<F>, read: F -> string, parseFloat: string -> Number,
                                 db: Catalog.Store, stringify: Js -> string)
    returns (first: bool, second: bool, status: int)
    requires |files| == 3 && db.Valid()
    modifies db
    ensures !first && !second && status == 400
  {
    var d := new Dialog();
    first := d.SelectFiles(files, read);
    second := d.SelectFiles(files, read);
    assert |d.newProduct.image| == 6;
    var body := RequestBody(d.newProduct, parseFloat);
    var id;
    status, id := ProductApi.PostProduct(db, body.0, body.1, seq(6, _ => None), stringify, false);
  }
}
