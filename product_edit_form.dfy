/** The product page's edit form: editing the specification lines of the
    form state held by the page, and replacing one stored image through one
    file input per image slot. The API base URL is a parameter. */
module ProductEditForm {
  import opened Wrappers
  import opened Text
  import opened Js
  import opened SpecList
  import opened ProductDetails

  /** The request a chosen file sends: `PUT <api>/api/products/<id>/image`
      with the file and the slot's index as text. */
  datatype ImageUpload = ImageUpload(url: string, file: string, index: string)

  /** One file input per image the product has, in slot order. */
  function ImageSlots(images: seq<string>): (r: seq<nat>)
    ensures |r| == |images|
    ensures forall k :: 0 <= k < |r| ==> r[k] == k
  {
    seq(|images|, k requires 0 <= k < |images| => k)
  }

  /** `handleImageChange(e, index)`: no request when no file was chosen,
      otherwise the upload for that slot. */
  function ImageChange(apiUrl: string, id: string, index: nat, file: Option<string>): (r: Option<ImageUpload>)
    ensures r.None? <==> file.None?
    ensures r.Some? ==> r.value.file == file.value && r.value.url == apiUrl + "/api/products/" + id + "/image"
  {
    match file
    case None => None
    case Some(f) => Some(ImageUpload(apiUrl + "/api/products/" + id + "/image", f, NatToString(index)))
  }

  /** The index text is the slot's decimal digits, which the server's
      `parseInt` reads back as the slot: the file replaces the image of the
      input it was chosen in. */
  lemma UploadNamesItsSlot(apiUrl: string, id: string, images: seq<string>, k: nat, file: string)
    requires k < |ImageSlots(images)|
    ensures var u := ImageChange(apiUrl, id, ImageSlots(images)[k], Some(file)).value;
            AllDigits(u.index) && DigitsValue(u.index) == k && k < |images|
  {
    NatToStringRoundTrip(k);
  }

  /** The form state the page shares with the form. The spec inputs are
      rendered from `specs.map`, so while the form is shown its specs are a
      list. */
  class Editor {
    var editProduct: EditForm

    constructor(form: EditForm)
      ensures editProduct == form
    {
      editProduct := form;
    }

    /** `handleSpecChange(index, value)` on the line of a rendered input:
        that line becomes the text, all other fields and lines stay. */
    method HandleSpecChange(index: nat, value: string)
      requires editProduct.specs.Arr? && index < |editProduct.specs.elems|
      modifies this
      ensures editProduct.specs.Arr? && |editProduct.specs.elems| == |old(editProduct.specs.elems)|
      ensures editProduct.specs.elems[index] == Str(value)
      ensures forall k :: 0 <= k < |old(editProduct.specs.elems)| && k != index ==>
                editProduct.specs.elems[k] == old(editProduct.specs.elems)[k]
      ensures editProduct.(specs := old(editProduct.specs)) == old(editProduct)
    {
      var newSpecs := SpecChanged(editProduct.specs.elems, index, Str(value));
      editProduct := editProduct.(specs := Arr(newSpecs));
    }

    /** `handleAddSpec`: one empty line after the others. */
    method HandleAddSpec()
      requires editProduct.specs.Arr?
      modifies this
      ensures editProduct == old(editProduct).(specs := Arr(AddedSpec(old(editProduct.specs.elems), Str(""))))
    {
      editProduct := editProduct.(specs := Arr(AddedSpec(editProduct.specs.elems, Str(""))));
    }
  }
}
