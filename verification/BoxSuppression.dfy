/** Of boxes that overlap, only the best is kept: greedy non-maximum suppression. */
module BoxSuppression {
  /** A box by its corners, in the frame's pixels. */
  datatype Box = Box(x1: real, y1: real, x2: real, y2: real) {
    predicate WellFormed() { x1 <= x2 && y1 <= y2 }

    function Area(): real { (x2 - x1) * (y2 - y1) }
  }

  const LEAST_UNION := 0.000000001

  function Max(a: real, b: real): real { if a > b then a else b }

  function Min(a: real, b: real): real { if a < b then a else b }

  /** How much of two ranges is common to both. */
  function Common(a1: real, a2: real, b1: real, b2: real): real { Max(Min(a2, b2) - Max(a1, b1), 0.0) }

  function Intersection(a: Box, b: Box): real {
    Common(a.x1, a.x2, b.x1, b.x2) * Common(a.y1, a.y2, b.y1, b.y2)
  }

  function Union(a: Box, b: Box): real {
    Max(a.Area() + b.Area() - Intersection(a, b), LEAST_UNION)
  }

  function Iou(a: Box, b: Box): real {
    Intersection(a, b) / Union(a, b)
  }

  lemma IouIsSymmetric(a: Box, b: Box)
    ensures Iou(a, b) == Iou(b, a)
  {
  }

  lemma ProductsAreMonotone(a: real, b: real, c: real, d: real)
    requires 0.0 <= a <= c && 0.0 <= b <= d
    ensures 0.0 <= a * b <= c * d
  {
    assert a * b <= c * b;
    assert c * b <= c * d;
  }

  lemma QuotientIsAtMostOne(x: real, y: real)
    requires 0.0 <= x <= y && y > 0.0
    ensures 0.0 <= x / y <= 1.0
  {
  }

  lemma CommonIsWithin(a1: real, a2: real, b1: real, b2: real)
    requires a1 <= a2 && b1 <= b2
    ensures 0.0 <= Common(a1, a2, b1, b2) <= a2 - a1 && Common(a1, a2, b1, b2) <= b2 - b1
  {
  }

  lemma AreaIsAtLeast(c: Box, w: real, h: real)
    requires 0.0 <= w <= c.x2 - c.x1 && 0.0 <= h <= c.y2 - c.y1
    ensures 0.0 <= w * h <= c.Area()
  {
    ProductsAreMonotone(w, h, c.x2 - c.x1, c.y2 - c.y1);
  }

  lemma IntersectionIsWithin(a: Box, b: Box)
    requires a.WellFormed() && b.WellFormed()
    ensures 0.0 <= Intersection(a, b) <= a.Area() && Intersection(a, b) <= b.Area()
  {
    var w, h := Common(a.x1, a.x2, b.x1, b.x2), Common(a.y1, a.y2, b.y1, b.y2);
    CommonIsWithin(a.x1, a.x2, b.x1, b.x2);
    CommonIsWithin(a.y1, a.y2, b.y1, b.y2);
    AreaIsAtLeast(a, w, h);
    AreaIsAtLeast(b, w, h);
  }

  lemma IouIsAShare(a: Box, b: Box)
    requires a.WellFormed() && b.WellFormed()
    ensures 0.0 <= Iou(a, b) <= 1.0
  {
    IntersectionIsWithin(a, b);
    QuotientIsAtMostOne(Intersection(a, b), Union(a, b));
  }

  /** A box meets itself fully exactly when it is at least as big as the least union. */
  lemma IouOfABoxWithItself(a: Box)
    requires a.WellFormed()
    ensures Iou(a, a) == 1.0 <==> a.Area() >= LEAST_UNION
  {
    var area, u := a.Area(), Union(a, a);
    assert Intersection(a, a) == area;
    assert u == Max(area, LEAST_UNION);
    if area >= LEAST_UNION {
      assert area / area == 1.0;
    } else {
      assert area / u * u == area;
    }
  }

  // ---------------------------------------------------------------- suppression

  /** One box with its score, and where it stands in the arrays given. */
  datatype Candidate = Candidate(index: nat, box: Box, score: real)

  predicate Overlaps(c: Candidate, d: Candidate, overlap: real) {
    Iou(c.box, d.box) > overlap
  }

  /** The candidates of `rest` that overlap `best` by no more than `overlap`. */
  function Survivors(best: Candidate, rest: seq<Candidate>, overlap: real): (r: seq<Candidate>)
    ensures |r| <= |rest|
    ensures forall c :: c in r <==> c in rest && !Overlaps(best, c, overlap)
  {
    if rest == [] then []
    else (if Overlaps(best, rest[0], overlap) then [] else [rest[0]]) + Survivors(best, rest[1..], overlap)
  }

  /** The candidates kept, taken in `order`. */
  function Kept(order: seq<Candidate>, overlap: real): (kept: seq<Candidate>)
    ensures forall c :: c in kept ==> c in order
    decreases |order|
  {
    if order == [] then [] else [order[0]] + Kept(Survivors(order[0], order[1..], overlap), overlap)
  }

  /** Best score first. */
  ghost predicate Descending(order: seq<Candidate>) {
    order == [] || ((forall c :: c in order[1..] ==> order[0].score >= c.score) && Descending(order[1..]))
  }

  ghost predicate Distinct(order: seq<Candidate>) {
    order == [] || (order[0] !in order[1..] && Distinct(order[1..]))
  }

  /** Candidate a comes before candidate b. */
  ghost predicate Precedes(order: seq<Candidate>, a: Candidate, b: Candidate) {
    order != [] && ((order[0] == a && b in order[1..]) || Precedes(order[1..], a, b))
  }

  lemma {:induction false} OnlyMembersPrecede(order: seq<Candidate>, a: Candidate, b: Candidate)
    ensures Precedes(order, a, b) ==> a in order && b in order
  {
    if order != [] { OnlyMembersPrecede(order[1..], a, b); }
  }

  /** One more unfolding: the survivors of a nonempty rest are those of its tail, with its head or without. */
  lemma SurvivorsUnfold(best: Candidate, rest: seq<Candidate>, overlap: real)
    requires rest != []
    ensures var r, tail := Survivors(best, rest, overlap), Survivors(best, rest[1..], overlap);
            if Overlaps(best, rest[0], overlap) then r == tail else r != [] && r[0] == rest[0] && r[1..] == tail
  {
  }

  lemma {:induction false} SurvivorsKeepOrder(best: Candidate, rest: seq<Candidate>, overlap: real, a: Candidate,
                                              b: Candidate)
    requires !Overlaps(best, a, overlap) && !Overlaps(best, b, overlap)
    ensures Precedes(Survivors(best, rest, overlap), a, b) <==> Precedes(rest, a, b)
  {
    if rest != [] {
      SurvivorsUnfold(best, rest, overlap);
      SurvivorsKeepOrder(best, rest[1..], overlap, a, b);
    }
  }

  lemma {:induction false} SurvivorsStayDistinct(best: Candidate, rest: seq<Candidate>, overlap: real)
    requires Distinct(rest)
    ensures Distinct(Survivors(best, rest, overlap))
  {
    if rest != [] {
      SurvivorsUnfold(best, rest, overlap);
      SurvivorsStayDistinct(best, rest[1..], overlap);
    }
  }

  lemma {:induction false} SurvivorsStayDescending(best: Candidate, rest: seq<Candidate>, overlap: real)
    requires Descending(rest)
    ensures Descending(Survivors(best, rest, overlap))
  {
    if rest != [] {
      SurvivorsUnfold(best, rest, overlap);
      SurvivorsStayDescending(best, rest[1..], overlap);
    }
  }

  /** What is kept, exactly: a candidate is kept unless a kept one before it in the order overlaps it too much. */
  lemma {:induction false} KeptExactly(order: seq<Candidate>, overlap: real, k: Candidate)
    requires Distinct(order) && k in order
    ensures k in Kept(order, overlap) <==>
            forall a :: a in Kept(order, overlap) && Precedes(order, a, k) ==> Iou(a.box, k.box) <= overlap
    decreases |order|
  {
    var best, rest := order[0], order[1..];
    var next := Survivors(best, rest, overlap);
    var keptNext := Kept(next, overlap);
    if k == best {
      OnlyMembersPrecedeAll(rest, k);
    } else if k in next {
      SurvivorsStayDistinct(best, rest, overlap);
      KeptExactly(next, overlap, k);
      forall a | a in keptNext
        ensures Precedes(next, a, k) <==> Precedes(order, a, k)
      {
        SurvivorsKeepOrder(best, rest, overlap, a, k);
      }
    } else {
      assert Precedes(order, best, k) && best in Kept(order, overlap);
    }
  }

  lemma OnlyMembersPrecedeAll(order: seq<Candidate>, b: Candidate)
    requires b !in order
    ensures forall a :: !Precedes(order, a, b)
  {
  }

  /** No two candidates kept overlap by more than `overlap`. */
  lemma {:induction false} KeptDoNotOverlap(order: seq<Candidate>, overlap: real, i: nat, j: nat)
    requires i < j < |Kept(order, overlap)|
    ensures Iou(Kept(order, overlap)[i].box, Kept(order, overlap)[j].box) <= overlap
    decreases |order|
  {
    var next := Survivors(order[0], order[1..], overlap);
    var kept, keptNext := Kept(order, overlap), Kept(next, overlap);
    assert kept[j] == keptNext[j - 1];
    if i == 0 {
      assert keptNext[j - 1] in keptNext;
    } else {
      KeptDoNotOverlap(next, overlap, i - 1, j - 1);
    }
  }

  /** Every candidate dropped overlaps, by more than `overlap`, a kept one of at least its score. */
  lemma {:induction false} DroppedForABetterOne(order: seq<Candidate>, overlap: real, k: Candidate)
    requires Descending(order) && k in order && k !in Kept(order, overlap)
    ensures exists a :: a in Kept(order, overlap) && a.score >= k.score && Iou(a.box, k.box) > overlap
    decreases |order|
  {
    var next := Survivors(order[0], order[1..], overlap);
    if k in next {
      SurvivorsStayDescending(order[0], order[1..], overlap);
      DroppedForABetterOne(next, overlap, k);
      var a :| a in Kept(next, overlap) && a.score >= k.score && Overlaps(a, k, overlap);
      assert a in Kept(order, overlap);
    } else {
      assert order[0] in Kept(order, overlap);
    }
  }

  /** The candidates kept stay in order, best score first. */
  lemma {:induction false} KeptStayDescending(order: seq<Candidate>, overlap: real)
    requires Descending(order)
    ensures Descending(Kept(order, overlap))
    decreases |order|
  {
    if order != [] {
      var next := Survivors(order[0], order[1..], overlap);
      SurvivorsStayDescending(order[0], order[1..], overlap);
      KeptStayDescending(next, overlap);
      assert Kept(order, overlap)[1..] == Kept(next, overlap);
    }
  }

  lemma {:induction false} SurvivorsOfAll(best: Candidate, rest: seq<Candidate>, overlap: real)
    requires forall c :: c in rest ==> !Overlaps(best, c, overlap)
    ensures Survivors(best, rest, overlap) == rest
  {
    if rest != [] {
      assert rest[0] in rest;
      SurvivorsOfAll(best, rest[1..], overlap);
    }
  }

  /** Run again on what it kept, in the same order, it keeps it all. */
  lemma {:induction false} KeptAgain(order: seq<Candidate>, overlap: real)
    ensures Kept(Kept(order, overlap), overlap) == Kept(order, overlap)
    decreases |order|
  {
    if order != [] {
      var next := Survivors(order[0], order[1..], overlap);
      var kept, keptNext := Kept(order, overlap), Kept(next, overlap);
      KeptAgain(next, overlap);
      assert kept[0] == order[0] && kept[1..] == keptNext;
      SurvivorsOfAll(order[0], keptNext, overlap);
    }
  }

  lemma KeptUnfolds(done: seq<Candidate>, order: seq<Candidate>, overlap: real)
    requires order != []
    ensures var next := Survivors(order[0], order[1..], overlap);
            && done + Kept(order, overlap) == (done + [order[0]]) + Kept(next, overlap)
            && (order[1..] == [] ==> next == [])
  {
  }

  /** keep_best, given the candidates sorted by score: the best of each group that overlaps by more than `overlap`. */
  method KeepBest(sorted: seq<Candidate>, overlap: real) returns (kept: seq<Candidate>)
    ensures kept == Kept(sorted, overlap)
  {
    var order := sorted;
    kept := [];
    while order != []
      invariant kept + Kept(order, overlap) == Kept(sorted, overlap)
      decreases |order|
    {
      KeptUnfolds(kept, order, overlap);
      var best := order[0];
      kept := kept + [best];
      order := order[1..];
      if order == [] { break; }
      order := Survivors(best, order, overlap);
    }
  }
}
