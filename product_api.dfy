/** The product routes of the `routes/products.js` router, which take
    images as request data: replacing one image slot and creating a
    product from one to three images of which only the saved ones are kept.
    Saving an image, the database and JSON text are parameters. */
module ProductApi {
  import opened Wrappers
  import opened Js
  import opened Catalog

  /** `typeof index !== 'number' || index < 0 || index > 2` rejects. A
      `NaN` or a fraction between 0 and 2 is not rejected. */
  predicate IndexAccepted(index: Js)
  {
    index.Numb? && !(index.n.Num? && (index.n.v < 0.0 || index.n.v > 2.0))
  }

  /** The index names an array element: a whole number. */
  predicate IsWhole(index: Js)
  {
    index.Numb? && index.n.Num? && index.n.v == index.n.v.Floor as real
  }

  /** `index >= currentImages.length`, false for `NaN`. */
  predicate PastEnd(index: Js, images: seq<string>)
  {
    index.Numb? && index.n.Num? && index.n.v >= |images| as real
  }

  /** The list `JSON.stringify(updatedImages)` stores after
      `updatedImages[index] = path` on a copy: the slot replaced for a whole
      index; for any other number the write creates a property that is not
      an element, so the list is stored unchanged. */
  function SlotWritten(images: seq<string>, index: Js, path: string): (r: seq<string>)
    requires IndexAccepted(index) && !PastEnd(index, images)
    ensures |r| == |images|
  {
    if IsWhole(index) then images[index.n.v.Floor := path] else images
  }

  /** How the database and the image store answer: the lookup, the saving
      of the image (`None` when it throws, otherwise the saved path) and
      the update. */
  datatype ImageOutcome = ImageOutcome(selectFails: bool, saved: Option<string>, updateFails: bool)

  /** `PUT /:id/image` as written. The checks come in this order: an index
      that is not accepted, 400; a failed lookup, 500; no such product,
      404; a NULL image column, whose `JSON.parse` gives `null` and whose
      `length` then throws, 500; an index past the list, 400; a failed save
      or update, 500. A 200 stores `SlotWritten`, which for a fractional or
      `NaN` index is the unchanged list although the response reports the
      new image. */
  method PutImageAsWritten(db: Store, id: int, index: Js, outcome: ImageOutcome)
    returns (status: int, newImage: Option<string>)
    requires db.Valid()
    modifies db
    ensures db.Valid() && db.nextId == old(db.nextId)
    ensures !IndexAccepted(index) ==> status == 400
    ensures IndexAccepted(index) && !outcome.selectFails && id !in old(db.rows) ==> status == 404
    ensures (IndexAccepted(index) && !outcome.selectFails && id in old(db.rows) && old(db.rows)[id].image.None?)
              ==> status == 500
    ensures status == 200 <==>
              IndexAccepted(index) && !outcome.selectFails && id in old(db.rows)
              && old(db.rows)[id].image.Some? && !PastEnd(index, old(db.rows)[id].image.value)
              && outcome.saved.Some? && !outcome.updateFails
    ensures status == 200 ==>
              newImage == outcome.saved
              && db.rows == old(db.rows)[id := old(db.rows)[id].(image :=
                   Some(SlotWritten(old(db.rows)[id].image.value, index, outcome.saved.value)))]
    ensures status != 200 ==> db.rows == old(db.rows)
  {
    if !IndexAccepted(index) {
      return 400, None;
    }
    if outcome.selectFails {
      return 500, None;
    }
    if id !in db.rows {
      return 404, None;
    }
    if db.rows[id].image.None? {
      return 500, None;
    }
    var currentImages := db.rows[id].image.value;
    if PastEnd(index, currentImages) {
      return 400, None;
    }
    if outcome.saved.None? {
      return 500, None;
    }
    var newImagePath := outcome.saved.value;
    var updatedImages := SlotWritten(currentImages, index, newImagePath);
    if outcome.updateFails {
      return 500, None;
    }
    db.rows := db.rows[id := db.rows[id].(image := Some(updatedImages))];
    return 200, Some(newImagePath);
  }

  /** `PUT /:id/image` with the evidently intended check that the index is
      a whole number: a fraction or `NaN` is answered 400 with the rest of
      the checks as before, and every 200 has replaced exactly slot `index`,
      keeping the list's length and every other slot. */
  method PutImage(db: Store, id: int, index: Js, outcome: ImageOutcome)
    returns (status: int, newImage: Option<string>)
    requires db.Valid()
    modifies db
    ensures db.Valid() && db.nextId == old(db.nextId)
    ensures !IndexAccepted(index) || !IsWhole(index) ==> status == 400
    ensures status == 200 <==>
              IndexAccepted(index) && IsWhole(index) && !outcome.selectFails && id in old(db.rows)
              && old(db.rows)[id].image.Some? && !PastEnd(index, old(db.rows)[id].image.value)
              && outcome.saved.Some? && !outcome.updateFails
    ensures status == 200 ==>
              var i := index.n.v.Floor;
              var before := old(db.rows)[id].image.value;
              newImage == outcome.saved && 0 <= i < |before|
              && db.rows == old(db.rows)[id := old(db.rows)[id].(image := Some(before[i := outcome.saved.value]))]
    ensures status != 200 ==> db.rows == old(db.rows)
  {
    if !IndexAccepted(index) || !IsWhole(index) {
      return 400, None;
    }
    status, newImage := PutImageAsWritten(db, id, index, outcome);
  }

  /** The fractional index that shows the two handlers apart: on a product
      with two images, index 1.5 is answered 200 with the new image by the
      handler as written although the stored list is unchanged, and 400 by
      the corrected one. */
  method FractionalIndexReported(db: Store, id: int, path: string) returns (asWritten: int, corrected: int)
    requires db.Valid()
    requires id in db.rows && db.rows[id].image.Some? && |db.rows[id].image.value| == 2
    modifies db
    ensures asWritten == 200 && corrected == 400
    ensures db.rows == old(db.rows)
  {
    var outcome := ImageOutcome(false, Some(path), false);
    var index := Numb(Num(1.5));
    assert (1.5).Floor == 1;
    ghost var before := db.rows[id].image.value;
    var reported;
    asWritten, reported := PutImageAsWritten(db, id, index, outcome);
    assert db.rows[id].image.value == before;
    assert db.rows == old(db.rows)[id := old(db.rows)[id]];
    var none;
    corrected, none := PutImage(db, id, index, outcome);
  }

  /** The paths of the images that were saved, in request order:
      `allSettled` results filtered on `fulfilled`. */
  function KeepFulfilled(saves: seq<Option<string>>): (r: seq<string>)
    ensures |r| <= |saves|
    ensures r == [] <==> forall k :: 0 <= k < |saves| ==> saves[k].None?
  {
    if saves == [] then []
    else
      var rest := KeepFulfilled(saves[1..]);
      assert forall k :: 1 <= k < |saves| ==> saves[k] == saves[1..][k - 1];
      match saves[0]
      case Some(p) => [p] + rest
      case None => rest
  }

  /** Keeping the saved images works image by image: on a request split in
      two it gives the results of the two parts one after the other, so no
      image is reordered and each failed one is dropped. */
  lemma {:induction false} KeepFulfilledAppend(a: seq<Option<string>>, b: seq<Option<string>>)
    ensures KeepFulfilled(a + b) == KeepFulfilled(a) + KeepFulfilled(b)
    decreases |a|
  {
    if a == [] {
      assert a + b == b;
    } else {
      assert (a + b)[1..] == a[1..] + b;
      KeepFulfilledAppend(a[1..], b);
    }
  }

  /** When every save succeeds, every path is kept, in order. */
  lemma {:induction false} KeepFulfilledAll(saves: seq<Option<string>>)
    requires forall k :: 0 <= k < |saves| ==> saves[k].Some?
    ensures KeepFulfilled(saves) == seq(|saves|, k requires 0 <= k < |saves| => saves[k].value)
    decreases |saves|
  {
    if saves != [] {
      KeepFulfilledAll(saves[1..]);
    }
  }

  /** `specs` as `JSON.stringify` stores it: `undefined` gives `undefined`,
      which the insert stores as NULL. */
  function StoredSpecs(specs: Js, stringify: Js -> string): (r: Option<string>)
    ensures r.None? <==> specs.Undefined?
  {
    if specs.Undefined? then None else Some(stringify(specs))
  }

  /** `POST /`. `saves` holds, per image of the request, the saved path or
      `None` when saving it threw. An `image` that is not an array of one to
      three entries is 400; if no image was saved, 400 and nothing inserted;
      otherwise a row with the saved paths in order, 201 with its id, or 500
      when the insert fails. */
  method PostProduct(db: Store, form: ProductForm, image: Js, saves: seq<Option<string>>, stringify: Js -> string,
                     insertFails: bool)
    returns (status: int, id: Option<int>)
    requires db.Valid()
    requires image.Arr? ==> |saves| == |image.elems|
    modifies db
    ensures db.Valid()
    ensures !image.Arr? || |image.elems| == 0 || |image.elems| > 3 ==> status == 400
    ensures image.Arr? && 1 <= |image.elems| <= 3 && KeepFulfilled(saves) == [] ==> status == 400
    ensures status == 201 <==>
              image.Arr? && 1 <= |image.elems| <= 3 && KeepFulfilled(saves) != [] && !insertFails
    ensures status == 201 ==>
              id == Some(old(db.nextId))
              && db.rows == old(db.rows)[old(db.nextId) := Row(form.name, form.description, form.fullDescription,
                                           form.price, form.category, StoredSpecs(form.specs, stringify),
                                           Some(KeepFulfilled(saves)), Undefined)]
    ensures status != 201 ==> db.rows == old(db.rows) && id.None?
  {
    if !image.Arr? || |image.elems| == 0 || |image.elems| > 3 {
      return 400, None;
    }
    var validImagePaths := KeepFulfilled(saves);
    if validImagePaths == [] {
      return 400, None;
    }
    if insertFails {
      return 500, None;
    }
    var row := Row(form.name, form.description, form.fullDescription, form.price, form.category,
                   StoredSpecs(form.specs, stringify), Some(validImagePaths), Undefined);
    var newId := db.Insert(row);
    return 201, Some(newId);
  }
}
