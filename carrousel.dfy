/** The story carousel: a current index moved by the previous and next
    arrows or set by a dot, and the position each card takes relative to it.
    The index is a JavaScript number, so arithmetic modulo an empty list
    gives NaN, which the model keeps. */
module Carousel {

  /** A JavaScript number as the carousel can hold it. */
  datatype Index = Num(v: int) | NaN

  /** `a % n` in JavaScript: the remainder truncated toward zero, and NaN for `n == 0`. */
  function Rem(a: int, n: nat): (r: Index)
    ensures n == 0 <==> r == NaN
    ensures n > 0 && a >= 0 ==> r == Num(a % n)
    ensures n > 0 && a < 0 ==> r == Num(-((-a) % n))
  {
    if n == 0 then NaN
    else if a >= 0 then Num(a % n)
    else Num(-((-a) % n))
  }

  /** `(prev + 1) % stories.length`. */
  function NextIndex(i: Index, n: nat): Index {
    match i
    case NaN => NaN
    case Num(k) => Rem(k + 1, n)
  }

  /** `(prev - 1 + stories.length) % stories.length`. */
  function PrevIndex(i: Index, n: nat): Index {
    match i
    case NaN => NaN
    case Num(k) => Rem(k - 1 + n, n)
  }

  predicate InRange(i: Index, n: nat) {
    i.Num? && 0 <= i.v < n
  }

  /** From any non-negative index both arrows land inside `[0, n)`; on an
      empty list they give NaN, and NaN stays NaN. */
  lemma ArrowsStayInRange(i: Index, n: nat)
    ensures n > 0 && i.Num? && i.v >= 0 ==> InRange(NextIndex(i, n), n) && InRange(PrevIndex(i, n), n)
    ensures n > 0 && InRange(i, n) ==>
      NextIndex(i, n) == Num(if i.v == n - 1 then 0 else i.v + 1)
      && PrevIndex(i, n) == Num(if i.v == 0 then n - 1 else i.v - 1)
    ensures n == 0 || i == NaN ==> NextIndex(i, n) == NaN && PrevIndex(i, n) == NaN
  {
    if n > 0 && InRange(i, n) {
      var k := i.v;
      if k == n - 1 {
        ModUnique(k + 1, n, 1, 0);
      } else {
        ModUnique(k + 1, n, 0, k + 1);
      }
      if k == 0 {
        ModUnique(k - 1 + n, n, 0, n - 1);
      } else {
        assert k - 1 + n == n + (k - 1);
        ModShift(k - 1, n);
      }
    }
  }

  lemma ModShift(a: nat, n: nat)
    requires 0 <= a < n
    ensures (n + a) % n == a
  {
    ModUnique(n + a, n, 1, a);
  }

  /** Each arrow undoes the other on an index in range. */
  lemma ArrowsInverse(i: Index, n: nat)
    requires n > 0 && InRange(i, n)
    ensures PrevIndex(NextIndex(i, n), n) == i
    ensures NextIndex(PrevIndex(i, n), n) == i
  {
    ArrowsStayInRange(i, n);
    ArrowsStayInRange(NextIndex(i, n), n);
    ArrowsStayInRange(PrevIndex(i, n), n);
  }

  /** The index after `m` presses of the next arrow. */
  function NextPresses(i: Index, n: nat, m: nat): Index
    decreases m
  {
    if m == 0 then i else NextPresses(NextIndex(i, n), n, m - 1)
  }

  /** `m` presses move `m` places round the ring, so `n` presses come back. */
  lemma {:induction false} NextPressesRotate(k: nat, n: nat, m: nat)
    requires k < n
    ensures NextPresses(Num(k), n, m) == Num((k + m) % n)
    decreases m
  {
    if m > 0 {
      ArrowsStayInRange(Num(k), n);
      var k' := (k + 1) % n;
      NextPressesRotate(k', n, m - 1);
      assert (k' + (m - 1)) % n == (k + m) % n by {
        if k + 1 == n {
          assert k' == 0;
          assert k + m == n + (m - 1);
          ModPeriod(m - 1, n);
        } else {
          assert k' == k + 1;
        }
      }
    }
  }

  lemma ModPeriod(a: nat, n: nat)
    requires n > 0
    ensures (n + a) % n == a % n
  {
    var q, r := a / n, a % n;
    assert n + a == (q + 1) * n + r;
    ModUnique(n + a, n, q + 1, r);
  }

  /** The remainder is the `r` of any decomposition `x == q * n + r` with `0 <= r < n`. */
  lemma ModUnique(x: int, n: int, q: int, r: int)
    requires n > 0 && 0 <= r < n && x == q * n + r
    ensures x % n == r
  {
    var q', r' := x / n, x % n;
    assert x == q' * n + r';
    MulSub(q, q', n);
    if q > q' {
      MulAtLeast(q - q', n);
    } else if q < q' {
      MulAtLeast(q' - q, n);
    }
  }

  lemma MulSub(a: int, b: int, n: int)
    ensures a * n - b * n == (a - b) * n
  {
  }

  lemma MulAtLeast(d: int, n: int)
    requires d >= 1 && n > 0
    ensures d * n >= n
  {
  }

  lemma FullTurn(k: nat, n: nat)
    requires k < n
    ensures NextPresses(Num(k), n, n) == Num(k)
  {
    NextPressesRotate(k, n, n);
    assert (k + n) % n == k by {
      ModShift(k, n);
    }
  }

  /** The class `getCardClasses` picks for a card. */
  datatype CardPosition = Current | Previous | NextCard | Hidden

  /** The first test that holds wins: current, then previous, then next. */
  function Position(index: int, current: Index, n: nat): (p: CardPosition)
    ensures p == Current <==> current == Num(index)
    ensures p == Previous <==> current != Num(index) && PrevIndex(current, n) == Num(index)
    ensures p == NextCard <==>
      current != Num(index) && PrevIndex(current, n) != Num(index) && NextIndex(current, n) == Num(index)
  {
    if current == Num(index) then Current
    else if PrevIndex(current, n) == Num(index) then Previous
    else if NextIndex(current, n) == Num(index) then NextCard
    else Hidden
  }

  /** With two cards the other one is the previous card, never the next. */
  lemma TwoCards(c: nat)
    requires c < 2
    ensures Position(1 - c, Num(c), 2) == Previous
  {
    ArrowsStayInRange(Num(c), 2);
  }

  /** With one card only the current position occurs. */
  lemma OneCard(index: int)
    ensures Position(index, Num(0), 1) == (if index == 0 then Current else Hidden)
  {
  }

  /** The cards that are not hidden. */
  function ShownCards(current: Index, n: nat): set<int> {
    set i | 0 <= i < n && Position(i, current, n) != Hidden
  }

  /** At most three cards are shown: the current one and its two neighbours. */
  lemma AtMostThreeShown(current: Index, n: nat)
    ensures |ShownCards(current, n)| <= 3
  {
    var shown := ShownCards(current, n);
    if current == NaN {
      assert shown == {};
    } else {
      var c, p, x := current.v, PrevIndex(current, n), NextIndex(current, n);
      var pv := if p.Num? then p.v else c;
      var xv := if x.Num? then x.v else c;
      assert shown <= {c, pv, xv};
      SubsetOfThree(shown, c, pv, xv);
    }
  }

  lemma SubsetOfThree(s: set<int>, a: int, b: int, c: int)
    requires s <= {a, b, c}
    ensures |s| <= 3
  {
    var t := {a, b, c};
    assert |t| <= 3;
    assert s + (t - s) == t;
    assert |s + (t - s)| == |s| + |t - s|;
  }

  /** `Carrousel`: the current index over the stories it was given. */
  class Carrousel {
    const count: nat
    var currentIndex: Index

    /** Once there are stories, the index points at one of them. */
    ghost predicate Valid()
      reads this
    {
      count > 0 ==> InRange(currentIndex, count)
    }

    constructor (count: nat)
      ensures this.count == count && currentIndex == Num(0) && Valid()
    {
      this.count := count;
      currentIndex := Num(0);
    }

    method NextStory()
      requires Valid()
      modifies this
      ensures currentIndex == NextIndex(old(currentIndex), count)
      ensures Valid()
    {
      ArrowsStayInRange(currentIndex, count);
      currentIndex := NextIndex(currentIndex, count);
    }

    method PrevStory()
      requires Valid()
      modifies this
      ensures currentIndex == PrevIndex(old(currentIndex), count)
      ensures Valid()
    {
      ArrowsStayInRange(currentIndex, count);
      currentIndex := PrevIndex(currentIndex, count);
    }

    /** `goToStory(index)`, called with the index of a card or a dot. */
    method GoToStory(index: nat)
      requires index < count
      modifies this
      ensures currentIndex == Num(index) && Valid()
    {
      currentIndex := Num(index);
    }

    function CardPositionOf(index: int): CardPosition
      reads this
    {
      Position(index, currentIndex, count)
    }
  }
}
