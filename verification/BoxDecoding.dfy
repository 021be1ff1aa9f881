/** From a frame to the model's square input, and from the model's answer back to boxes in the frame. */
module BoxDecoding {
  import opened BoxSuppression

  const OVERLAP := 0.5

  /** People, and the classes of vehicles, in ascending order. */
  const CLASSES: seq<nat> := [0, 1, 2, 3, 5, 7]

  // ---------------------------------------------------------------- the letterbox

  /** To the nearest whole number, and of two as near to the even one. */
  function RoundHalfEven(x: real): (r: int)
    ensures -0.5 <= r as real - x <= 0.5
    ensures r as real - x == 0.5 || r as real - x == -0.5 ==> r % 2 == 0
  {
    var f := x.Floor;
    var rest := x - f as real;
    if rest < 0.5 then f else if rest > 0.5 then f + 1 else f + f % 2
  }

  function Scale(w: nat, h: nat, side: nat): real
    requires w > 0 && h > 0
  {
    Min(side as real / w as real, side as real / h as real)
  }

  function Fitted(n: nat, scale: real): int {
    var r := RoundHalfEven(n as real * scale);
    if r > 1 then r else 1
  }

  function Padding(fitted: int, side: nat): int
    requires fitted <= side
  {
    (side - fitted) / 2
  }

  lemma ScaledWithin(n: nat, scale: real, side: nat)
    requires n > 0 && side > 0 && scale <= side as real / n as real
    ensures Fitted(n, scale) <= side && (scale == side as real / n as real ==> Fitted(n, scale) == side)
  {
  }

  /** The scaled frame fits the square, touches it on one axis, and its place leaves as much room on both sides, to one
      pixel. */
  lemma LetterboxFits(w: nat, h: nat, side: nat)
    requires w > 0 && h > 0 && side > 0
    ensures var nw, nh := Fitted(w, Scale(w, h, side)), Fitted(h, Scale(w, h, side));
            && 1 <= nw <= side && 1 <= nh <= side && (nw == side || nh == side)
            && 0 <= Padding(nw, side) && Padding(nw, side) + nw <= side
            && 0 <= side - nw - 2 * Padding(nw, side) <= 1
            && 0 <= Padding(nh, side) && Padding(nh, side) + nh <= side
            && 0 <= side - nh - 2 * Padding(nh, side) <= 1
  {
    ScaledWithin(w, Scale(w, h, side), side);
    ScaledWithin(h, Scale(w, h, side), side);
  }

  // ---------------------------------------------------------------- the answer

  /** One row of the answer: a box by its centre and size in the square's pixels, and a score for each class. */
  datatype Row = Row(cx: real, cy: real, w: real, h: real, classes: seq<real>)

  /** The first of the classes with the highest score. */
  function ArgMax(s: seq<real>, k: nat): (best: nat)
    requires 0 < k <= |s|
    ensures best < k
    ensures forall i :: 0 <= i < k ==> s[i] <= s[best] && (i < best ==> s[i] < s[best])
  {
    if k == 1 then 0
    else
      var before := ArgMax(s, k - 1);
      if s[k - 1] > s[before] then k - 1 else before
  }

  function ClassOf(r: Row): nat
    requires r.classes != []
  {
    ArgMax(r.classes, |r.classes|)
  }

  function ScoreOf(r: Row): real
    requires r.classes != []
  {
    r.classes[ClassOf(r)]
  }

  function InFrame(r: Row, scale: real, px: real, py: real): Box
    requires scale > 0.0
  {
    Box((r.cx - r.w / 2.0 - px) / scale, (r.cy - r.h / 2.0 - py) / scale,
        (r.cx + r.w / 2.0 - px) / scale, (r.cy + r.h / 2.0 - py) / scale)
  }

  /** Where the resizing puts a point of one of the frame's axes, `n` pixels long: it stretches the axis to a whole
      number of the square's pixels. */
  function InSquare(x: real, n: nat, scale: real, p: real): real
    requires n > 0
  {
    x * (Fitted(n, scale) as real / n as real) + p
  }

  /** What the decoding, which divides by the scale itself, makes of a place on that axis. */
  function Back(y: real, scale: real, p: real): real
    requires scale > 0.0
  {
    (y - p) / scale
  }

  lemma FittedIsNear(n: nat, scale: real)
    requires scale > 0.0
    ensures -0.5 <= Fitted(n, scale) as real - n as real * scale <= if n as real * scale >= 0.5 then 0.5 else 1.0
  {
  }

  lemma QuotientTimes(x: real, y: real)
    requires y != 0.0
    ensures x / y * y == x
  {
  }

  /** How far off a point comes back, in the square's pixels: its share of what the axis gained or lost by rounding. */
  lemma OffByItsShare(x: real, n: nat, scale: real, p: real)
    requires n > 0 && scale > 0.0
    ensures (Back(InSquare(x, n, scale, p), scale, p) - x) * scale
         == x / n as real * (Fitted(n, scale) as real - n as real * scale)
  {
    var fitted, length := Fitted(n, scale) as real, n as real;
    var stretched := x * (fitted / length);
    calc {
      (Back(InSquare(x, n, scale, p), scale, p) - x) * scale;
      (stretched / scale - x) * scale;
      stretched / scale * scale - x * scale;
      { QuotientTimes(stretched, scale); }
      stretched - x * scale;
      { QuotientTimes(x, length); }
      x / length * fitted - x / length * length * scale;
      x / length * (fitted - length * scale);
    }
  }

  lemma ShareOf(share: real, d: real)
    requires 0.0 <= share <= 1.0
    ensures d >= 0.0 ==> 0.0 <= share * d <= d
    ensures d <= 0.0 ==> d <= share * d <= 0.0
  {
    if d >= 0.0 {
      ProductsAreMonotone(share, d, 1.0, d);
    } else {
      ProductsAreMonotone(share, -d, 1.0, -d);
      assert share * -d == -(share * d);
    }
  }

  ghost predicate NeedsNoRounding(n: nat, scale: real) { Fitted(n, scale) as real == n as real * scale }

  /** At most half a pixel of the square apart. */
  ghost predicate Within(a: real, b: real, scale: real) { -0.5 <= (a - b) * scale <= 0.5 }

  /** Point x of an axis `n` pixels long comes back as x': to within half a pixel of the square, unless the axis was so
      short that it had to be widened to a pixel; and exactly if the scaled axis needed no rounding, and only then. */
  ghost predicate ComesBack(x: real, x': real, n: nat, scale: real) {
    && (n as real * scale >= 0.5 ==> Within(x', x, scale))
    && (NeedsNoRounding(n, scale) ==> x' == x) && (x > 0.0 && x' == x ==> NeedsNoRounding(n, scale))
  }

  lemma PointComesBack(x: real, n: nat, scale: real, p: real)
    requires n > 0 && scale > 0.0 && 0.0 <= x <= n as real
    ensures ComesBack(x, Back(InSquare(x, n, scale, p), scale, p), n, scale)
  {
    var length, fitted := n as real, Fitted(n, scale) as real;
    FittedIsNear(n, scale);
    OffByItsShare(x, n, scale, p);
    QuotientTimes(x, length);
    QuotientIsAtMostOne(x, length);
    OffByLittle(x, Back(InSquare(x, n, scale, p), scale, p), x / length, fitted - length * scale, n, scale);
  }

  lemma OffByLittle(x: real, x': real, share: real, d: real, n: nat, scale: real)
    requires n > 0 && scale > 0.0 && 0.0 <= share <= 1.0 && d == Fitted(n, scale) as real - n as real * scale
    requires -0.5 <= d <= if n as real * scale >= 0.5 then 0.5 else 1.0
    requires (x' - x) * scale == share * d && (x > 0.0 ==> share > 0.0)
    ensures ComesBack(x, x', n, scale)
  {
    ShareOf(share, d);
    NoneIsZero(x' - x, scale);
    if x > 0.0 { NoneIsZero(d, share); }
  }

  lemma NoneIsZero(a: real, b: real)
    requires b > 0.0
    ensures a == 0.0 <==> a * b == 0.0
  {
  }

  lemma FullAxisIsExact(n: nat, scale: real, side: nat)
    requires n > 0 && side > 0 && scale == side as real / n as real
    ensures NeedsNoRounding(n, scale)
  {
    ScaledWithin(n, scale, side);
    QuotientTimes(side as real, n as real);
    assert Fitted(n, scale) as real == side as real;
  }

  /** The axis that decides the scale, the longer one, never needs rounding. */
  lemma LongAxisIsExact(w: nat, h: nat, side: nat)
    requires w > 0 && h > 0 && side > 0
    ensures var scale := Scale(w, h, side);
            if w >= h then NeedsNoRounding(w, scale) else NeedsNoRounding(h, scale)
  {
    ShorterScale(w, h, side);
    FullAxisIsExact(if w >= h then w else h, Scale(w, h, side), side);
  }

  lemma LargerDivisor(s: real, a: real, b: real)
    requires s >= 0.0 && 0.0 < a <= b
    ensures s / b <= s / a
  {
    var p, q := s / a, s / b;
    QuotientTimes(s, a);
    QuotientTimes(s, b);
    assert (p - q) * a == q * (b - a) >= 0.0;
  }

  lemma ShorterScale(w: nat, h: nat, side: nat)
    requires w > 0 && h > 0
    ensures Scale(w, h, side) == side as real / (if w >= h then w else h) as real
  {
    if w >= h {
      LargerDivisor(side as real, h as real, w as real);
    } else {
      LargerDivisor(side as real, w as real, h as real);
    }
  }

  /** A box of the frame as it lies in the square. */
  function Letterboxed(b: Box, w: nat, h: nat, scale: real, px: real, py: real, classes: seq<real>): Row
    requires w > 0 && h > 0
  {
    var x1, x2 := InSquare(b.x1, w, scale, px), InSquare(b.x2, w, scale, px);
    var y1, y2 := InSquare(b.y1, h, scale, py), InSquare(b.y2, h, scale, py);
    Row((x1 + x2) / 2.0, (y1 + y2) / 2.0, x2 - x1, y2 - y1, classes)
  }

  lemma ScaleIsPositive(w: nat, h: nat, side: nat)
    requires w > 0 && h > 0 && side > 0
    ensures Scale(w, h, side) > 0.0
  {
  }

  lemma CornersAre(b: Box, w: nat, h: nat, scale: real, px: real, py: real, classes: seq<real>)
    requires w > 0 && h > 0 && scale > 0.0
    ensures InFrame(Letterboxed(b, w, h, scale, px, py, classes), scale, px, py)
         == Box(Back(InSquare(b.x1, w, scale, px), scale, px), Back(InSquare(b.y1, h, scale, py), scale, py),
                Back(InSquare(b.x2, w, scale, px), scale, px), Back(InSquare(b.y2, h, scale, py), scale, py))
  {
  }

  lemma CornersComeBack(b: Box, w: nat, h: nat, scale: real, px: real, py: real, classes: seq<real>)
    requires w > 0 && h > 0 && scale > 0.0
    requires 0.0 <= b.x1 <= b.x2 <= w as real && 0.0 <= b.y1 <= b.y2 <= h as real
    ensures var back := InFrame(Letterboxed(b, w, h, scale, px, py, classes), scale, px, py);
            && ComesBack(b.x1, back.x1, w, scale) && ComesBack(b.x2, back.x2, w, scale)
            && ComesBack(b.y1, back.y1, h, scale) && ComesBack(b.y2, back.y2, h, scale)
  {
    CornersAre(b, w, h, scale, px, py, classes);
    PointComesBack(b.x1, w, scale, px);
    PointComesBack(b.x2, w, scale, px);
    PointComesBack(b.y1, h, scale, py);
    PointComesBack(b.y2, h, scale, py);
  }

  lemma ExactIff(b: Box, back: Box, w: nat, h: nat, scale: real)
    requires b.x2 > 0.0 && b.y2 > 0.0
    requires ComesBack(b.x1, back.x1, w, scale) && ComesBack(b.x2, back.x2, w, scale)
    requires ComesBack(b.y1, back.y1, h, scale) && ComesBack(b.y2, back.y2, h, scale)
    ensures back == b <==> NeedsNoRounding(w, scale) && NeedsNoRounding(h, scale)
  {
  }

  /** Decoding undoes the letterbox: every corner of a box of the frame comes back, and the whole box exactly if and
      only if the scaled frame needed no rounding on either axis. */
  lemma DecodeUndoesTheLetterbox(b: Box, w: nat, h: nat, side: nat, px: real, py: real, classes: seq<real>)
    requires w > 0 && h > 0 && side > 0
    requires 0.0 <= b.x1 <= b.x2 <= w as real && 0.0 <= b.y1 <= b.y2 <= h as real && b.x2 > 0.0 && b.y2 > 0.0
    ensures Scale(w, h, side) > 0.0
    ensures var scale := Scale(w, h, side);
            var back := InFrame(Letterboxed(b, w, h, scale, px, py, classes), scale, px, py);
            && ComesBack(b.x1, back.x1, w, scale) && ComesBack(b.x2, back.x2, w, scale)
            && ComesBack(b.y1, back.y1, h, scale) && ComesBack(b.y2, back.y2, h, scale)
            && (back == b <==> NeedsNoRounding(w, scale) && NeedsNoRounding(h, scale))
  {
    var scale := Scale(w, h, side);
    ScaleIsPositive(w, h, side);
    CornersComeBack(b, w, h, scale, px, py, classes);
    ExactIff(b, InFrame(Letterboxed(b, w, h, scale, px, py, classes), scale, px, py), w, h, scale);
  }

  /** How the square was made from the frame, and the score from which on a row counts. */
  datatype Frame = Frame(scale: real, px: real, py: real, score: real)

  ghost predicate Valid(rows: seq<Row>, f: Frame) {
    f.scale > 0.0 && forall i :: 0 <= i < |rows| ==> rows[i].classes != []
  }

  predicate Wanted(r: Row, cls: nat, f: Frame)
    requires r.classes != []
  {
    ScoreOf(r) >= f.score && ClassOf(r) == cls
  }

  function CandidateOf(rows: seq<Row>, f: Frame, i: nat): Candidate
    requires Valid(rows, f) && i < |rows|
  {
    Candidate(i, InFrame(rows[i], f.scale, f.px, f.py), ScoreOf(rows[i]))
  }

  /** The class is the first of those with the row's highest score, and that is enough. */
  ghost predicate Counts(r: Row, cls: nat, score: real) {
    && cls < |r.classes| && r.classes[cls] >= score
    && forall j :: 0 <= j < |r.classes| ==>
         r.classes[j] <= r.classes[cls] && (j < cls ==> r.classes[j] < r.classes[cls])
  }

  /** The box, scaled and moved into the square, has the row's corners. */
  ghost predicate IsBoxOf(b: Box, r: Row, f: Frame) {
    && b.x1 * f.scale + f.px == r.cx - r.w / 2.0 && b.x2 * f.scale + f.px == r.cx + r.w / 2.0
    && b.y1 * f.scale + f.py == r.cy - r.h / 2.0 && b.y2 * f.scale + f.py == r.cy + r.h / 2.0
  }

  /** c is a row of this class that counts: its box in the frame, and its score. */
  ghost predicate IsWanted(rows: seq<Row>, f: Frame, cls: nat, c: Candidate) {
    && c.index < |rows| && Counts(rows[c.index], cls, f.score)
    && IsBoxOf(c.box, rows[c.index], f) && c.score == rows[c.index].classes[cls]
  }

  lemma Quotients(x: real, y: real, scale: real, p: real)
    requires scale > 0.0
    ensures x == (y - p) / scale <==> x * scale + p == y
  {
    QuotientTimes(y - p, scale);
    var q := (y - p) / scale;
    assert x * scale == q * scale ==> (x - q) * scale == 0.0;
    NoneIsZero(x - q, scale);
  }

  lemma BoxIsInFrame(b: Box, r: Row, f: Frame)
    requires f.scale > 0.0
    ensures IsBoxOf(b, r, f) <==> b == InFrame(r, f.scale, f.px, f.py)
  {
    Quotients(b.x1, r.cx - r.w / 2.0, f.scale, f.px);
    Quotients(b.x2, r.cx + r.w / 2.0, f.scale, f.px);
    Quotients(b.y1, r.cy - r.h / 2.0, f.scale, f.py);
    Quotients(b.y2, r.cy + r.h / 2.0, f.scale, f.py);
  }

  lemma WantedCounts(r: Row, cls: nat, f: Frame)
    requires r.classes != []
    ensures Wanted(r, cls, f) <==> Counts(r, cls, f.score)
    ensures Wanted(r, cls, f) ==> ScoreOf(r) == r.classes[cls]
  {
    if Counts(r, cls, f.score) { assert !(ClassOf(r) < cls) && !(cls < ClassOf(r)); }
  }

  /** What SortClass makes of row i. */
  lemma CandidateIsWanted(rows: seq<Row>, f: Frame, cls: nat, i: nat, c: Candidate)
    requires Valid(rows, f) && i < |rows| && c.index == i
    ensures IsWanted(rows, f, cls, c) <==> Wanted(rows[i], cls, f) && c == CandidateOf(rows, f, i)
  {
    WantedCounts(rows[i], cls, f);
    BoxIsInFrame(c.box, rows[i], f);
  }

  /** Exactly the rows of the class that count, best first, each once. */
  ghost predicate AreSorted(rows: seq<Row>, f: Frame, cls: nat, order: seq<Candidate>, k: nat) {
    && Descending(order) && Distinct(order)
    && forall c :: c in order <==> IsWanted(rows, f, cls, c) && c.index < k
  }

  /** What is found of one class: rows that count, none overlapping another too much, and for every row that counts
      itself or one of at least its score that overlaps it. */
  ghost predicate IsDecoded(rows: seq<Row>, f: Frame, cls: nat, found: seq<Candidate>) {
    && (forall c :: c in found ==> IsWanted(rows, f, cls, c))
    && (forall i, j :: 0 <= i < j < |found| ==> Iou(found[i].box, found[j].box) <= 0.5)
    && (forall c :: IsWanted(rows, f, cls, c) && c !in found ==> HasBetter(found, c))
  }

  ghost predicate HasBetter(found: seq<Candidate>, c: Candidate) {
    exists a :: a in found && a.score >= c.score && Iou(a.box, c.box) > 0.5
  }

  lemma KeptIsDecoded(rows: seq<Row>, f: Frame, cls: nat, order: seq<Candidate>)
    requires AreSorted(rows, f, cls, order, |rows|)
    ensures IsDecoded(rows, f, cls, Kept(order, OVERLAP))
  {
    var found := Kept(order, OVERLAP);
    forall i, j | 0 <= i < j < |found|
      ensures Iou(found[i].box, found[j].box) <= OVERLAP
    {
      KeptDoNotOverlap(order, OVERLAP, i, j);
    }
    forall c | IsWanted(rows, f, cls, c) && c !in found
      ensures HasBetter(found, c)
    {
      DroppedForABetterOne(order, OVERLAP, c);
    }
  }

  /** c goes before the first of lower score. */
  function Placed(order: seq<Candidate>, c: Candidate): (r: seq<Candidate>)
    ensures forall x :: x in r <==> x == c || x in order
  {
    if order == [] || order[0].score < c.score then [c] + order else [order[0]] + Placed(order[1..], c)
  }

  lemma {:induction false} PlacedInOrder(order: seq<Candidate>, c: Candidate)
    requires Descending(order) && Distinct(order) && c !in order
    ensures Descending(Placed(order, c)) && Distinct(Placed(order, c))
  {
    var r := Placed(order, c);
    if order == [] || order[0].score < c.score {
      assert r[1..] == order;
      if order != [] { assert forall x :: x in order ==> x == order[0] || x in order[1..]; }
    } else {
      PlacedInOrder(order[1..], c);
      assert r[1..] == Placed(order[1..], c);
    }
  }

  /** argsort(-scores), of the rows of one class. */
  method SortClass(rows: seq<Row>, f: Frame, cls: nat) returns (order: seq<Candidate>)
    requires Valid(rows, f)
    ensures AreSorted(rows, f, cls, order, |rows|)
  {
    order := [];
    for i := 0 to |rows|
      invariant AreSorted(rows, f, cls, order, i)
    {
      forall c: Candidate | c.index == i
        ensures IsWanted(rows, f, cls, c) <==> Wanted(rows[i], cls, f) && c == CandidateOf(rows, f, i)
      {
        CandidateIsWanted(rows, f, cls, i, c);
      }
      if Wanted(rows[i], cls, f) {
        var c := CandidateOf(rows, f, i);
        PlacedInOrder(order, c);
        order := Placed(order, c);
      }
    }
  }

  method DecodeClass(rows: seq<Row>, f: Frame, cls: nat) returns (kept: seq<Candidate>)
    requires Valid(rows, f)
    ensures IsDecoded(rows, f, cls, kept)
  {
    var order := SortClass(rows, f, cls);
    kept := KeepBest(order, OVERLAP);
    KeptIsDecoded(rows, f, cls, order);
  }

  /** decode: the boxes found, class by class in ascending order. */
  method Decode(rows: seq<Row>, f: Frame) returns (found: seq<seq<Candidate>>)
    requires Valid(rows, f)
    ensures |found| == |CLASSES| && forall k :: 0 <= k < |CLASSES| ==> IsDecoded(rows, f, CLASSES[k], found[k])
  {
    found := [];
    for k := 0 to |CLASSES|
      invariant |found| == k && forall j :: 0 <= j < k ==> IsDecoded(rows, f, CLASSES[j], found[j])
    {
      var kept := DecodeClass(rows, f, CLASSES[k]);
      found := found + [kept];
    }
  }

  /** As the letterbox made the square from a frame of this size, with as much room on both sides of what it holds. */
  function FrameOf(w: nat, h: nat, side: nat, score: real): (f: Frame)
    requires w > 0 && h > 0 && side > 0
    ensures 0.0 <= side as real - Fitted(w, f.scale) as real - 2.0 * f.px <= 1.0
    ensures 0.0 <= side as real - Fitted(h, f.scale) as real - 2.0 * f.py <= 1.0
  {
    LetterboxFits(w, h, side);
    var scale := Scale(w, h, side);
    Frame(scale, Padding(Fitted(w, scale), side) as real, Padding(Fitted(h, scale), side) as real, score)
  }

  /** What is found of a thing that the model sees where it is comes back: its box, corner by corner, to within half a
      pixel of the square and exactly where no rounding was needed, and its score. */
  lemma FoundComesBack(rows: seq<Row>, w: nat, h: nat, side: nat, score: real, cls: nat, found: seq<Candidate>,
                       c: Candidate, b: Box, classes: seq<real>)
    requires w > 0 && h > 0 && side > 0 && 0.0 <= b.x1 <= b.x2 <= w as real && 0.0 <= b.y1 <= b.y2 <= h as real
    requires IsDecoded(rows, FrameOf(w, h, side, score), cls, found) && c in found
    requires var f := FrameOf(w, h, side, score);
             c.index < |rows| && rows[c.index] == Letterboxed(b, w, h, f.scale, f.px, f.py, classes)
    ensures var scale := Scale(w, h, side);
            && ComesBack(b.x1, c.box.x1, w, scale) && ComesBack(b.x2, c.box.x2, w, scale)
            && ComesBack(b.y1, c.box.y1, h, scale) && ComesBack(b.y2, c.box.y2, h, scale)
    ensures cls < |classes| && c.score == classes[cls] >= score
    ensures forall j :: 0 <= j < |classes| ==> classes[j] <= c.score
  {
    var f := FrameOf(w, h, side, score);
    ScaleIsPositive(w, h, side);
    assert IsWanted(rows, f, cls, c);
    BoxIsInFrame(c.box, rows[c.index], f);
    CornersComeBack(b, w, h, f.scale, f.px, f.py, classes);
  }
}
