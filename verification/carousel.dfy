/** The image carousel of the product page and the product modal: index
    arithmetic modulo the image count, and the swipe gesture that drives it
    on touch screens. */
module Carousel {
  import opened Wrappers
  import opened Arithmetic

  /** The image index state. JavaScript's `x % 0` is `NaN`, and `NaN`
      stays `NaN` under further steps, so a listing without images can
      leave the index at `NaN`. */
  datatype ImageIndex = At(i: nat) | NaN

  /** `(prev + 1) % n`. */
  function Next(idx: ImageIndex, n: nat): (r: ImageIndex)
    ensures r.At? <==> idx.At? && n > 0
    ensures r.At? ==> r.i < n
    ensures r.At? && idx.i + 1 < n ==> r.i == idx.i + 1
    ensures r.At? && idx.i == n - 1 ==> r.i == 0
  {
    match idx
    case NaN => NaN
    case At(i) => if n == 0 then NaN else At((i + 1) % n)
  }

  /** `(prev - 1 + n) % n`. The left operand is never negative when
      `n > 0`, so JavaScript's truncating `%` and Dafny's agree. */
  function Prev(idx: ImageIndex, n: nat): (r: ImageIndex)
    ensures r.At? <==> idx.At? && n > 0
    ensures r.At? ==> r.i < n
    ensures r.At? && 0 < idx.i <= n ==> r.i == idx.i - 1
    ensures r.At? && idx.i == 0 ==> r.i == n - 1
  {
    match idx
    case NaN => NaN
    case At(i) => if n == 0 then NaN else At((i - 1 + n) % n)
  }

  /** Back after forward returns to the same image. */
  lemma {:induction false} PrevAfterNext(i: nat, n: nat)
    requires i < n
    ensures Prev(Next(At(i), n), n) == At(i)
  {
  }

  /** Forward after back returns to the same image. */
  lemma {:induction false} NextAfterPrev(i: nat, n: nat)
    requires i < n
    ensures Next(Prev(At(i), n), n) == At(i)
  {
  }

  /** `k` steps forward. */
  function Forward(idx: ImageIndex, n: nat, k: nat): ImageIndex {
    if k == 0 then idx else Next(Forward(idx, n, k - 1), n)
  }

  /** `k` steps forward from an index on the carousel land `k` places
      further round, so `n` steps come back to the start. */
  lemma {:induction false} ForwardWraps(i: nat, n: nat, k: nat)
    requires i < n
    ensures Forward(At(i), n, k) == At((i + k) % n)
  {
    if k > 0 {
      ForwardWraps(i, n, k - 1);
      var j := (i + k - 1) % n;
      ModSuccessor(i + k - 1, n);
      assert Next(At(j), n) == At((j + 1) % n);
    }
  }

  lemma {:induction false} ModSuccessor(x: nat, n: nat)
    requires n > 0
    ensures ((x % n) + 1) % n == (x + 1) % n
  {
    var q := x / n;
    if x % n + 1 == n {
      ModUnique(x % n + 1, n, 1, 0);
      ModUnique(x + 1, n, q + 1, 0);
    } else {
      ModUnique(x % n + 1, n, 0, x % n + 1);
      ModUnique(x + 1, n, q, x % n + 1);
    }
  }

  /** A whole turn of the carousel is the identity. */
  lemma {:induction false} FullTurn(i: nat, n: nat)
    requires i < n
    ensures Forward(At(i), n, n) == At(i)
  {
    ForwardWraps(i, n, n);
    ModUnique(i + n, n, 1, i);
  }

  /** What a finished touch gesture does to the carousel. */
  datatype Move = Stay | ToNext | ToPrev

  /** `handleTouchEnd`: `None` when either recorded position is the falsy
      0, and then the positions are kept; otherwise a move of more than 50
      pixels to the left shows the next image, more than 50 to the right the
      previous one, and both positions are reset.  Positions are `clientX`
      values, which may be fractional. */
  function Swipe(touchStart: real, touchEnd: real): (r: Option<Move>)
    ensures r.None? <==> touchStart == 0.0 || touchEnd == 0.0
    ensures r == Some(ToNext) <==> touchStart != 0.0 && touchEnd != 0.0 && touchStart - touchEnd > 50.0
    ensures r == Some(ToPrev) <==> touchStart != 0.0 && touchEnd != 0.0 && touchStart - touchEnd < -50.0
  {
    if touchStart == 0.0 || touchEnd == 0.0 then None
    else
      var distance := touchStart - touchEnd;
      Some(if distance > 50.0 then ToNext else if distance < -50.0 then ToPrev else Stay)
  }

  /** The gesture read backwards is the opposite move. */
  lemma {:induction false} SwipeMirror(a: real, b: real)
    ensures Swipe(a, b) == Some(ToNext) <==> Swipe(b, a) == Some(ToPrev)
    ensures Swipe(a, b) == Some(Stay) <==> Swipe(b, a) == Some(Stay)
  {
  }

  /** The index after a move. */
  function Apply(m: Move, idx: ImageIndex, n: nat): ImageIndex {
    match m
    case Stay => idx
    case ToNext => Next(idx, n)
    case ToPrev => Prev(idx, n)
  }
}
