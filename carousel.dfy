/** The product image carousel: the index of the image on show, moved one
    step forwards or backwards around the list, with arrows only when there
    is more than one image and one highlighted dot per position. */
module Carousel {

  /** JavaScript's `a % b` for `b > 0`: the remainder takes the sign of `a`. */
  function JsRem(a: int, b: int): (r: int)
    requires b > 0
    ensures a >= 0 ==> r == a % b && 0 <= r < b
    ensures a < 0 ==> -b < r <= 0
  {
    if a >= 0 then a % b else -((-a) % b)
  }

  /** `(prev + 1) % images.length`. */
  function NextIndex(i: int, n: int): (r: int)
    requires 0 <= i < n
    ensures 0 <= r < n
    ensures i + 1 < n ==> r == i + 1
    ensures i + 1 == n ==> r == 0
  {
    JsRem(i + 1, n)
  }

  /** `(prev - 1 + images.length) % images.length`. */
  function PrevIndex(i: int, n: int): (r: int)
    requires 0 <= i < n
    ensures 0 <= r < n
    ensures i > 0 ==> r == i - 1
    ensures i == 0 ==> r == n - 1
  {
    JsRem(i - 1 + n, n)
  }

  /** A step back undoes a step forward, and a step forward undoes a step
      back. */
  lemma NextPrevInverse(i: int, n: int)
    requires 0 <= i < n
    ensures PrevIndex(NextIndex(i, n), n) == i
    ensures NextIndex(PrevIndex(i, n), n) == i
  {
  }

  /** The index after `k` steps forward from `i`. */
  function NextTimes(i: int, n: int, k: nat): (r: int)
    requires 0 <= i < n
    ensures 0 <= r < n
  {
    if k == 0 then i else NextIndex(NextTimes(i, n, k - 1), n)
  }

  /** From the first image, `k` steps forward show image `k mod n`: the
      index is the remainder left after `q` full turns of `n` images. */
  lemma {:induction false} NextTimesFromStart(n: int, k: nat) returns (q: nat)
    requires n > 0
    ensures k == q * n + NextTimes(0, n, k)
  {
    if k == 0 {
      q := 0;
    } else {
      var q' := NextTimesFromStart(n, k - 1);
      var j := NextTimes(0, n, k - 1);
      if j + 1 < n {
        q := q';
      } else {
        q := q' + 1;
        assert (q' + 1) * n == q' * n + n;
      }
    }
  }

  /** The carousel over the images it was given. */
  class Carousel {
    const images: seq<string>
    var currentIndex: int

    /** The index names an image. */
    ghost predicate Valid()
      reads this
    {
      0 <= currentIndex < |images|
    }

    /** The first image is shown first. */
    constructor(images: seq<string>)
      requires |images| > 0
      ensures this.images == images && currentIndex == 0
      ensures Valid()
    {
      this.images := images;
      currentIndex := 0;
    }

    /** `nextImage`. */
    method Next()
      requires Valid()
      modifies this
      ensures Valid()
      ensures currentIndex == NextIndex(old(currentIndex), |images|)
    {
      currentIndex := JsRem(currentIndex + 1, |images|);
    }

    /** `previousImage`. */
    method Previous()
      requires Valid()
      modifies this
      ensures Valid()
      ensures currentIndex == PrevIndex(old(currentIndex), |images|)
    {
      currentIndex := JsRem(currentIndex - 1 + |images|, |images|);
    }

    /** The image on show. */
    function Shown(): string
      requires Valid()
      reads this
    {
      images[currentIndex]
    }

    /** Both arrow buttons are rendered exactly when there is more than one
        image. */
    predicate ShowsArrows()
      reads this
    {
      |images| > 1
    }

    /** One dot per image; `true` marks the highlighted one. Exactly one
        dot, the one at the current index, is highlighted. */
    function Dots(): (r: seq<bool>)
      requires Valid()
      reads this
      ensures |r| == |images|
      ensures r[currentIndex]
      ensures forall k :: 0 <= k < |r| && r[k] ==> k == currentIndex
    {
      var i := currentIndex;
      seq(|images|, k requires 0 <= k < |images| => k == i)
    }
  }
}
