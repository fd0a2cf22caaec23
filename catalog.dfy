/** The `products` table the product routes read and write: rows keyed by
    an auto-increment id. The image column holds the JSON list of upload
    paths, or SQL NULL; the specs column holds JSON text, or NULL. */
module Catalog {
  import opened Wrappers
  import opened Js

  /** One row. Text and number columns hold whatever the request carried;
      `discount` is `Undefined` while the column keeps its default. */
  datatype Row = Row(
    name: Js, description: Js, fullDescription: Js, price: Js, category: Js,
    specs: Option<string>, image: Option<seq<string>>, discount: Js)

  /** The product fields of a create or update request body. */
  datatype ProductForm = ProductForm(
    name: Js, description: Js, fullDescription: Js, price: Js, category: Js, specs: Js, discount: Js)

  /** `specs ? JSON.stringify(specs) : null`. */
  function SpecsText(specs: Js, stringify: Js -> string): (r: Option<string>)
    ensures r.None? <==> !Truthy(specs)
  {
    if Truthy(specs) then Some(stringify(specs)) else None
  }

  /** The table. */
  class Store {
    var rows: map<int, Row>
    var nextId: int

    /** Every id handed out so far is below the next one. */
    ghost predicate Valid()
      reads this
    {
      nextId > 0 && forall id :: id in rows ==> 0 < id < nextId
    }

    constructor()
      ensures rows == map[] && nextId == 1 && Valid()
    {
      rows := map[];
      nextId := 1;
    }

    /** `INSERT`: the row is stored under a new id, nothing else changes. */
    method Insert(row: Row) returns (id: int)
      requires Valid()
      modifies this
      ensures Valid()
      ensures id == old(nextId) && id !in old(rows)
      ensures rows == old(rows)[id := row] && nextId == old(nextId) + 1
    {
      id := nextId;
      rows := rows[id := row];
      nextId := nextId + 1;
    }
  }
}
