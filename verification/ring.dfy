/** Cyclic previous/next navigation over a non-empty ordered sequence:
    the reference definition every drill-down dimension is measured against.
    Positions move on a ring of size `n`, so the predecessor of the first
    position is the last one and the successor of the last is the first. */
module Ring {

  /** The page being shown and the two pages its links lead to. */
  datatype Navigation<T> = Navigation(current: T, previous: T, next: T)

  /** Euclidean remainder facts for one wrap of the ring. */
  lemma ShiftMod(x: int, n: int)
    requires 0 <= x < n
    ensures x % n == x
    ensures (x + n) % n == x
  {
  }

  /** Position of the predecessor on a ring of size `n`. */
  function PrevIndex(i: nat, n: nat): (j: nat)
    requires i < n
    ensures j < n
    ensures i > 0 ==> j == i - 1
    ensures i == 0 ==> j == n - 1
  {
    ShiftMod(if i > 0 then i - 1 else n - 1, n);
    (i + n - 1) % n
  }

  /** Position of the successor on a ring of size `n`. */
  function NextIndex(i: nat, n: nat): (j: nat)
    requires i < n
    ensures j < n
    ensures i < n - 1 ==> j == i + 1
    ensures i == n - 1 ==> j == 0
  {
    ShiftMod(if i + 1 < n then i + 1 else 0, n);
    (i + 1) % n
  }

  /** The value before position `i`, wrapping to the last value. */
  function RingPrev<T>(s: seq<T>, i: nat): (r: T)
    requires i < |s|
    ensures r in s
  {
    s[PrevIndex(i, |s|)]
  }

  /** The value after position `i`, wrapping to the first value. */
  function RingNext<T>(s: seq<T>, i: nat): (r: T)
    requires i < |s|
    ensures r in s
  {
    s[NextIndex(i, |s|)]
  }

  /** Going back and then forward returns to the same position, and so does
      going forward and then back. */
  lemma PrevNextInverse(i: nat, n: nat)
    requires i < n
    ensures NextIndex(PrevIndex(i, n), n) == i
    ensures PrevIndex(NextIndex(i, n), n) == i
  {
  }

  /** On a ring of one value both neighbours are the value itself. */
  lemma SingletonRing<T>(s: seq<T>)
    requires |s| == 1
    ensures RingPrev(s, 0) == s[0] && RingNext(s, 0) == s[0]
  {
  }

  /** On a ring of two or more positions the neighbours differ from the
      current position. */
  lemma NeighboursMove(i: nat, n: nat)
    requires i < n && n >= 2
    ensures PrevIndex(i, n) != i && NextIndex(i, n) != i
  {
  }
}
