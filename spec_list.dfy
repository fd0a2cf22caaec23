/** The editable list of specification lines shared by the product edit
    form and the add-product dialog: one text input per line, and a button
    that adds an empty line. */
module SpecList {

  /** `handleSpecChange(index, value)`: the list is copied and the copy's
      slot `index` overwritten. Only that line changes; the length and every
      other line are kept. The index always names a rendered input. */
  method SpecChanged<T>(specs: seq<T>, index: nat, value: T) returns (r: seq<T>)
    requires index < |specs|
    ensures |r| == |specs| && r[index] == value
    ensures forall k :: 0 <= k < |specs| && k != index ==> r[k] == specs[k]
  {
    var newSpecs := new T[|specs|](k requires 0 <= k < |specs| => specs[k]);
    newSpecs[index] := value;
    r := newSpecs[..];
  }

  /** `handleAddSpec`: `[...specs, blank]`, exactly one blank line after
      the unchanged earlier ones. */
  function AddedSpec<T>(specs: seq<T>, blank: T): (r: seq<T>)
    ensures |r| == |specs| + 1 && r[..|specs|] == specs && r[|specs|] == blank
  {
    specs + [blank]
  }

  /** Adding lines one after another gives the blanks at the end, in the
      order they were added. */
  lemma {:induction false} AddedSpecsInOrder<T>(specs: seq<T>, blank: T, n: nat)
    ensures AddedTimes(specs, blank, n) == specs + seq(n, _ => blank)
    decreases n
  {
    if n > 0 {
      AddedSpecsInOrder(specs, blank, n - 1);
      assert AddedTimes(specs, blank, n) == (specs + seq(n - 1, _ => blank)) + [blank];
      assert seq(n - 1, _ => blank) + [blank] == seq(n, _ => blank);
    }
  }

  /** `handleAddSpec` pressed `n` times. */
  function AddedTimes<T>(specs: seq<T>, blank: T, n: nat): seq<T>
    decreases n
  {
    if n == 0 then specs else AddedSpec(AddedTimes(specs, blank, n - 1), blank)
  }
}
