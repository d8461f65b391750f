/** The image viewer of the portfolio page: an index into `n` images that
    the arrow buttons and arrow keys move with wrap-around, and that the
    Escape key closes. */
module Lightbox {

  /** The viewer: showing the image at `index`, or closed. */
  datatype Viewer = Showing(index: int) | Closed

  predicate InRange(n: int, i: int) {
    0 <= i < n
  }

  /** `navigateToPrevious`: the first image wraps to the last. */
  function Previous(n: int, i: int): (j: int)
    ensures InRange(n, i) ==> InRange(n, j)
    ensures i == 0 ==> j == n - 1
    ensures i != 0 ==> j + 1 == i
  {
    if i == 0 then n - 1 else i - 1
  }

  /** `navigateToNext`: the last image wraps to the first. */
  function Next(n: int, i: int): (j: int)
    ensures InRange(n, i) ==> InRange(n, j)
    ensures i == n - 1 ==> j == 0
    ensures i != n - 1 ==> j == i + 1
  {
    if i == n - 1 then 0 else i + 1
  }

  /** Previous undoes Next and Next undoes Previous on every valid index. */
  lemma PreviousNextInverse(n: int, i: int)
    requires InRange(n, i)
    ensures Previous(n, Next(n, i)) == i
    ensures Next(n, Previous(n, i)) == i
  {
  }

  /** With a single image both directions stay put. */
  lemma SingleImage(i: int)
    requires InRange(1, i)
    ensures Next(1, i) == i && Previous(1, i) == i
  {
  }

  /** `k` steps forward. */
  function Forward(n: int, i: int, k: nat): (j: int)
    ensures InRange(n, i) ==> InRange(n, j)
  {
    if k == 0 then i else Next(n, Forward(n, i, k - 1))
  }

  /** Before the wrap, `k` steps forward add `k`. */
  lemma {:induction false} ForwardWithoutWrap(n: int, i: int, k: nat)
    requires InRange(n, i) && i + k <= n - 1
    ensures Forward(n, i, k) == i + k
  {
    if k > 0 {
      ForwardWithoutWrap(n, i, k - 1);
    }
  }

  /** `a + b` steps forward are `a` steps and then `b` more. */
  lemma {:induction false} ForwardAdd(n: int, i: int, a: nat, b: nat)
    ensures Forward(n, i, a + b) == Forward(n, Forward(n, i, a), b)
  {
    if b > 0 {
      ForwardAdd(n, i, a, b - 1);
    }
  }

  /** `n` steps forward come back to the starting image: `n - i` steps
      reach the wrap to 0, and `i` more lead back to `i`. */
  lemma FullCircle(n: int, i: int)
    requires InRange(n, i)
    ensures Forward(n, i, n) == i
  {
    ForwardWithoutWrap(n, i, n - 1 - i);
    assert Forward(n, i, n - i) == 0;
    ForwardWithoutWrap(n, 0, i);
    ForwardAdd(n, i, n - i, i);
  }

  /** `handleKeyDown`: Escape closes the viewer, the left and right arrows
      move, and every other key leaves it as it is. */
  function OnKey(n: int, v: Viewer, key: string): (w: Viewer)
    ensures key == "Escape" ==> w == Closed
    ensures v.Closed? ==> w == Closed
    ensures v.Showing? && key == "ArrowLeft" ==> w == Showing(Previous(n, v.index))
    ensures v.Showing? && key == "ArrowRight" ==> w == Showing(Next(n, v.index))
    ensures key !in {"Escape", "ArrowLeft", "ArrowRight"} ==> w == v
  {
    match v
    case Closed => Closed
    case Showing(i) =>
      if key == "Escape" then Closed
      else if key == "ArrowLeft" then Showing(Previous(n, i))
      else if key == "ArrowRight" then Showing(Next(n, i))
      else v
  }

  /** A viewer opened at `selectedIndex` on a valid index: whatever keys
      are pressed it is either closed or shows an image that exists, and
      the counter it displays lies in 1..n. */
  method PressKeys(n: int, selectedIndex: int, keys: seq<string>) returns (v: Viewer)
    requires InRange(n, selectedIndex)
    ensures v.Showing? ==> InRange(n, v.index) && 1 <= v.index + 1 <= n
    ensures v.Showing? <==> forall k :: 0 <= k < |keys| ==> keys[k] != "Escape"
    ensures (forall k :: 0 <= k < |keys| ==> keys[k] == "ArrowRight") ==> v == Showing(Forward(n, selectedIndex, |keys|))
  {
    v := Showing(selectedIndex);
    var k := 0;
    while k < |keys|
      invariant 0 <= k <= |keys|
      invariant v.Showing? ==> InRange(n, v.index)
      invariant v.Showing? <==> forall m :: 0 <= m < k ==> keys[m] != "Escape"
      invariant (forall m :: 0 <= m < k ==> keys[m] == "ArrowRight") ==> v == Showing(Forward(n, selectedIndex, k))
    {
      v := OnKey(n, v, keys[k]);
      k := k + 1;
    }
  }
}
