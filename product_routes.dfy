/** The product routes of the main Express router: creating a product from
    uploaded files, updating its fields, replacing one image slot, and the
    all-or-nothing bulk discount update. Each handler is a method on the
    table returning the response status; failures of the database, and a
    file the upload middleware cannot store, are parameters. */
module ProductRoutes {
  import opened Wrappers
  import opened Js
  import opened Pricing
  import opened Catalog

  const UploadPrefix := "/uploads/"

  /** The stored path of each uploaded file, in upload order. */
  function UploadPaths(files: seq<string>): (r: seq<string>)
    ensures |r| == |files|
  {
    seq(|files|, k requires 0 <= k < |files| => UploadPrefix + files[k])
  }

  /** Every stored path is the upload directory followed by the file name,
      so the names can be read back from the paths. */
  lemma UploadPathsNames(files: seq<string>, k: int)
    requires 0 <= k < |files|
    ensures UploadPrefix <= UploadPaths(files)[k]
    ensures UploadPaths(files)[k][|UploadPrefix|..] == files[k]
  {
    assert UploadPaths(files)[k] == UploadPrefix + files[k];
  }

  /** Whether the upload middleware `upload.array("image", 3)` rejects the
      request before the handler runs: more than three files under `image`
      (multer's LIMIT_UNEXPECTED_FILE), or `storageFails`, which stands for a
      file over 5 MB or a failed write to the upload directory. Express then
      answers with its default 500. */
  predicate UploadRejected(files: seq<string>, storageFails: bool)
  {
    |files| > 3 || storageFails
  }

  /** `POST /products`: a request the upload middleware rejects is 500 and
      nothing is inserted; with no uploaded file, 400 and nothing inserted;
      otherwise a row with the form's fields, its specs as JSON text (NULL
      when falsy) and the upload paths, answered with 201 and its id, or 500
      when the insert fails. */
  method PostProduct(db: Store, form: ProductForm, files: seq<string>, storageFails: bool, stringify: Js -> string,
                     insertFails: bool)
    returns (status: int, id: Option<int>)
    requires db.Valid()
    modifies db
    ensures db.Valid()
    ensures UploadRejected(files, storageFails) ==> status == 500 && id.None? && unchanged(db)
    ensures !UploadRejected(files, storageFails) && |files| == 0 ==> status == 400 && id.None? && unchanged(db)
    ensures !UploadRejected(files, storageFails) && |files| > 0 && insertFails ==>
              status == 500 && id.None? && unchanged(db)
    ensures status == 201 <==> !UploadRejected(files, storageFails) && |files| > 0 && !insertFails
    ensures status == 201 ==>
              1 <= |files| <= 3 && id == Some(old(db.nextId))
              && db.rows == old(db.rows)[old(db.nextId) := Row(form.name, form.description, form.fullDescription,
                                           form.price, form.category, SpecsText(form.specs, stringify),
                                           Some(UploadPaths(files)), Undefined)]
  {
    if UploadRejected(files, storageFails) {
      return 500, None;
    }
    if |files| == 0 {
      return 400, None;
    }
    var imagePaths := UploadPaths(files);
    if insertFails {
      return 500, None;
    }
    var row := Row(form.name, form.description, form.fullDescription, form.price, form.category,
                   SpecsText(form.specs, stringify), Some(imagePaths), Undefined);
    var newId := db.Insert(row);
    return 201, Some(newId);
  }

  /** `!name || !description || !fullDescription || !price || !category`. */
  predicate MissingRequired(form: ProductForm)
  {
    !Truthy(form.name) || !Truthy(form.description) || !Truthy(form.fullDescription)
      || !Truthy(form.price) || !Truthy(form.category)
  }

  /** The `discount = 0` default of the destructuring: only an absent
      discount becomes 0. */
  function DiscountOrZero(d: Js): (r: Js)
    ensures d.Undefined? ==> r == Numb(Num(0.0))
    ensures !d.Undefined? ==> r == d
  {
    if d.Undefined? then Numb(Num(0.0)) else d
  }

  /** The row after a successful update: every form field replaced, the
      images kept. */
  function Updated(row: Row, form: ProductForm, stringify: Js -> string): (r: Row)
    ensures r.image == row.image
  {
    row.(name := form.name, description := form.description, fullDescription := form.fullDescription,
         price := form.price, discount := DiscountOrZero(form.discount), category := form.category,
         specs := SpecsText(form.specs, stringify))
  }

  /** `PUT /products/:id`: 400 exactly when a required field is falsy; then
      500 when the update fails, 404 when no row has the id, and otherwise
      the row's fields are replaced. Only a 200 changes the table. */
  method PutProduct(db: Store, id: int, form: ProductForm, stringify: Js -> string, updateFails: bool)
    returns (status: int)
    requires db.Valid()
    modifies db
    ensures db.Valid()
    ensures status == 400 <==> MissingRequired(form)
    ensures !MissingRequired(form) && updateFails ==> status == 500
    ensures !MissingRequired(form) && !updateFails && id !in old(db.rows) ==> status == 404
    ensures status == 200 <==> !MissingRequired(form) && !updateFails && id in old(db.rows)
    ensures status == 200 ==> db.rows == old(db.rows)[id := Updated(old(db.rows)[id], form, stringify)]
    ensures status != 200 ==> db.rows == old(db.rows)
    ensures db.nextId == old(db.nextId)
  {
    if MissingRequired(form) {
      return 400;
    }
    if updateFails {
      return 500;
    }
    if id !in db.rows {
      return 404;
    }
    db.rows := db.rows[id := Updated(db.rows[id], form, stringify)];
    return 200;
  }

  /** `PUT /products/:id/image`. `file` is the uploaded file's name, `index`
      the `parseInt` of the index field (`None` for `NaN`). The checks come
      in this order: no file, 400; an index outside 0..2, 400; a failed
      lookup, 500; no such product, 404; an index past the stored list (a
      NULL list counting as empty), 400. Then slot `index`, and only it,
      takes the new path; 500 if that write fails. Only a 200 changes the
      table. */
  method PutImage(db: Store, id: int, file: Option<string>, index: Option<int>, selectFails: bool, updateFails: bool)
    returns (status: int, newImage: Option<string>)
    requires db.Valid()
    modifies db
    ensures db.Valid() && db.nextId == old(db.nextId)
    ensures file.None? ==> status == 400
    ensures file.Some? && (index.None? || index.value < 0 || index.value > 2) ==> status == 400
    ensures status == 200 <==>
              file.Some? && index.Some? && 0 <= index.value <= 2 && !selectFails && id in old(db.rows)
              && index.value < |old(db.rows)[id].image.GetOr([])| && !updateFails
    ensures status == 200 ==>
              newImage == Some(UploadPrefix + file.value)
              && db.rows == old(db.rows)[id := old(db.rows)[id].(image :=
                   Some(old(db.rows)[id].image.GetOr([])[index.value := UploadPrefix + file.value]))]
    ensures status != 200 ==> db.rows == old(db.rows)
  {
    if file.None? {
      return 400, None;
    }
    if index.None? || index.value < 0 || index.value > 2 {
      return 400, None;
    }
    if selectFails {
      return 500, None;
    }
    if id !in db.rows {
      return 404, None;
    }
    var i := index.value;
    var stored := db.rows[id].image.GetOr([]);
    if i >= |stored| {
      return 400, None;
    }
    var currentImages := new string[|stored|](k requires 0 <= k < |stored| => stored[k]);
    currentImages[i] := UploadPrefix + file.value;
    if updateFails {
      return 500, None;
    }
    assert currentImages[..] == stored[i := UploadPrefix + file.value];
    db.rows := db.rows[id := db.rows[id].(image := Some(currentImages[..]))];
    return 200, Some(currentImages[i]);
  }

  /** One entry of the bulk request: its id (`None` when missing or null;
      0 is falsy like them) and its discount (`None` when absent; a value
      that `isNaN` rejects is `NaN`). */
  datatype DiscountEntry = DiscountEntry(id: Option<int>, discount: Option<Number>)

  /** `!id || (discount !== undefined && isNaN(discount))` fails. */
  predicate ValidEntry(e: DiscountEntry)
  {
    e.id.Some? && e.id.value != 0 && (e.discount.None? || e.discount.value.Num?)
  }

  /** `discount !== undefined ? parseFloat(discount) : 0`, stored to two
      decimals. */
  function StoredDiscount(e: DiscountEntry): real
    requires ValidEntry(e)
  {
    if e.discount.None? then 0.0 else Fixed2(e.discount.value.v)
  }

  /** One `UPDATE products SET discount = ? WHERE id = ?`: no effect when no
      row has the id. */
  function ApplyEntry(rows: map<int, Row>, e: DiscountEntry): map<int, Row>
    requires ValidEntry(e)
  {
    var id := e.id.value;
    if id in rows then rows[id := rows[id].(discount := Numb(Num(StoredDiscount(e))))] else rows
  }

  /** The table after every update of the batch, in request order. */
  function ApplyEntries(rows: map<int, Row>, es: seq<DiscountEntry>): map<int, Row>
    requires forall k :: 0 <= k < |es| ==> ValidEntry(es[k])
  {
    if es == [] then rows else ApplyEntry(ApplyEntries(rows, es[..|es| - 1]), es[|es| - 1])
  }

  /** The batch changes only discounts: the same ids stay, and every other
      column of every row is kept. */
  lemma {:induction false} ApplyEntriesOnlyDiscounts(rows: map<int, Row>, es: seq<DiscountEntry>)
    requires forall k :: 0 <= k < |es| ==> ValidEntry(es[k])
    ensures ApplyEntries(rows, es).Keys == rows.Keys
    ensures forall id :: id in rows ==> ApplyEntries(rows, es)[id].(discount := rows[id].discount) == rows[id]
  {
    if es != [] {
      ApplyEntriesOnlyDiscounts(rows, es[..|es| - 1]);
    }
  }

  /** A row whose id the batch names ends with the discount of the last
      entry naming it; a row it does not name is unchanged. */
  lemma {:induction false} ApplyEntriesLastWins(rows: map<int, Row>, es: seq<DiscountEntry>, id: int)
    requires forall k :: 0 <= k < |es| ==> ValidEntry(es[k])
    requires id in rows
    ensures id in ApplyEntries(rows, es)
    ensures (forall k :: 0 <= k < |es| ==> es[k].id != Some(id)) ==> ApplyEntries(rows, es)[id] == rows[id]
    ensures forall k :: 0 <= k < |es| && es[k].id == Some(id) && (forall j :: k < j < |es| ==> es[j].id != Some(id)) ==>
              ApplyEntries(rows, es)[id].discount == Numb(Num(StoredDiscount(es[k])))
  {
    if es != [] {
      var pre, last := es[..|es| - 1], es[|es| - 1];
      ApplyEntriesLastWins(rows, pre, id);
      ApplyEntriesOnlyDiscounts(rows, pre);
      var m := ApplyEntries(rows, pre);
      assert ApplyEntries(rows, es) == ApplyEntry(m, last);
      assert forall k :: 0 <= k < |pre| ==> pre[k] == es[k];
      if last.id == Some(id) {
        assert ApplyEntry(m, last)[id].discount == Numb(Num(StoredDiscount(last)));
      } else {
        assert ApplyEntry(m, last)[id] == m[id];
      }
    }
  }

  /** How the database answers the batch: the connection and the
      transaction start, each update, and the commit. */
  datatype BatchOutcome = BatchOutcome(connectionFails: bool, writeFails: seq<bool>, commitFails: bool)

  /** The run of the batch's updates: on a copy of the table, stopping at
      the first failed write, the way `Promise.all` rejects on the first
      failure. */
  method StageEntries(rows: map<int, Row>, es: seq<DiscountEntry>, writeFails: seq<bool>)
    returns (staged: map<int, Row>, failed: bool)
    requires forall k :: 0 <= k < |es| ==> ValidEntry(es[k])
    requires |writeFails| == |es|
    ensures failed <==> exists k :: 0 <= k < |es| && writeFails[k]
    ensures !failed ==> staged == ApplyEntries(rows, es)
  {
    staged := rows;
    var i := 0;
    while i < |es|
      invariant 0 <= i <= |es|
      invariant staged == ApplyEntries(rows, es[..i])
      invariant forall k :: 0 <= k < i ==> !writeFails[k]
    {
      if writeFails[i] {
        return staged, true;
      }
      assert es[..i + 1][..i] == es[..i];
      staged := ApplyEntry(staged, es[i]);
      i := i + 1;
    }
    assert es[..i] == es;
    failed := false;
  }

  /** `PUT /update-discounts` as written. `products` is `None` when the
      body's `products` is not an array. A non-array or an empty array is
      400. Any invalid entry or failed write rolls the whole batch back with
      500. When the commit fails, the handler rolls back but does not
      return, so it still answers 200 although nothing was stored. */
  method UpdateDiscountsAsWritten(db: Store, products: Option<seq<DiscountEntry>>, outcome: BatchOutcome)
    returns (status: int)
    requires db.Valid()
    requires products.Some? ==> |outcome.writeFails| == |products.value|
    modifies db
    ensures db.Valid() && db.nextId == old(db.nextId)
    ensures products.None? || products.value == [] ==> status == 400 && db.rows == old(db.rows)
    ensures status != 200 ==> db.rows == old(db.rows)
    ensures products.Some? && products.value != [] ==> status == 200 || status == 500
    ensures status == 200 <==>
              products.Some? && products.value != [] && !outcome.connectionFails
              && (forall k :: 0 <= k < |products.value| ==> ValidEntry(products.value[k]))
              && (forall k :: 0 <= k < |products.value| ==> !outcome.writeFails[k])
    ensures status == 200 && outcome.commitFails ==> db.rows == old(db.rows)
    ensures status == 200 && !outcome.commitFails ==>
              (forall k :: 0 <= k < |products.value| ==> ValidEntry(products.value[k]))
              && db.rows == ApplyEntries(old(db.rows), products.value)
  {
    if products.None? || products.value == [] {
      return 400;
    }
    if outcome.connectionFails {
      return 500;
    }
    var es := products.value;
    if exists k :: 0 <= k < |es| && !ValidEntry(es[k]) {
      return 500;
    }
    var staged, failed := StageEntries(db.rows, es, outcome.writeFails);
    if failed {
      return 500;
    }
    if !outcome.commitFails {
      ApplyEntriesOnlyDiscounts(db.rows, es);
      db.rows := staged;
    }
    return 200;
  }

  /** `PUT /update-discounts` with the missing `return` after the rollback
      put back: a failed commit answers 500. Every 200 has stored the whole
      batch, and every other answer stored none of it. */
  method UpdateDiscounts(db: Store, products: Option<seq<DiscountEntry>>, outcome: BatchOutcome)
    returns (status: int)
    requires db.Valid()
    requires products.Some? ==> |outcome.writeFails| == |products.value|
    modifies db
    ensures db.Valid() && db.nextId == old(db.nextId)
    ensures products.None? || products.value == [] ==> status == 400
    ensures products.Some? && products.value != [] ==> status == 200 || status == 500
    ensures status == 200 <==>
              products.Some? && products.value != [] && !outcome.connectionFails
              && (forall k :: 0 <= k < |products.value| ==> ValidEntry(products.value[k]))
              && (forall k :: 0 <= k < |products.value| ==> !outcome.writeFails[k])
              && !outcome.commitFails
    ensures status == 200 ==> db.rows == ApplyEntries(old(db.rows), products.value)
    ensures status != 200 ==> db.rows == old(db.rows)
  {
    if products.None? || products.value == [] {
      return 400;
    }
    if outcome.connectionFails {
      return 500;
    }
    var es := products.value;
    if exists k :: 0 <= k < |es| && !ValidEntry(es[k]) {
      return 500;
    }
    var staged, failed := StageEntries(db.rows, es, outcome.writeFails);
    if failed || outcome.commitFails {
      return 500;
    }
    ApplyEntriesOnlyDiscounts(db.rows, es);
    db.rows := staged;
    return 200;
  }

  /** The commit failure that shows the two handlers apart: a one-entry
      batch whose commit fails is reported stored by the handler as written
      though the table is unchanged, and as failed by the corrected one. */
  method CommitFailureReported(db: Store) returns (asWritten: int, corrected: int)
    requires db.Valid()
    modifies db
    ensures asWritten == 200 && corrected == 500
    ensures db.rows == old(db.rows)
  {
    var batch := Some([DiscountEntry(Some(1), Some(Num(10.0)))]);
    var outcome := BatchOutcome(false, [false], true);
    asWritten := UpdateDiscountsAsWritten(db, batch, outcome);
    corrected := UpdateDiscounts(db, batch, outcome);
  }
}
