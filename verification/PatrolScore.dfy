/** The compliance score of a patrol: the share of checkpoints scanned, as a percentage to one decimal. */
module PatrolScore {
  /** n / d rounded to a whole number, a half to the even neighbour. */
  function RoundHalfEven(n: nat, d: nat): int
    requires d > 0
  {
    var q, r := n / d, n % d;
    if 2 * r < d then q else if 2 * r > d then q + 1 else q + q % 2
  }

  /** In tenths of a per cent; a route without checkpoints scores 100. */
  function Score(scanned: nat, total: int): int {
    if total > 0 then RoundHalfEven(1000 * scanned, total) else 1000
  }

  function MissedCheckpoints(scanned: nat, total: int): (m: nat) {
    if total > 0 && total > scanned then total - scanned else 0
  }

  lemma Quotient(n: nat, d: nat, q: nat)
    requires d > 0 && q * d <= n < q * d + d
    ensures n / d == q && n % d == n - q * d
  {
    assert n == (n / d) * d + n % d;
    if n / d < q { assert (n / d + 1) * d <= q * d by { Steps(n / d + 1, q, d); } }
    if n / d > q { assert (q + 1) * d <= (n / d) * d by { Steps(q + 1, n / d, d); } }
  }

  lemma Steps(a: nat, b: nat, d: nat)
    requires a <= b
    ensures a * d <= b * d
  {
  }

  lemma QuotientAtLeast(n: nat, d: nat, q: nat)
    requires d > 0 && q * d <= n
    ensures n / d >= q
  {
    assert n == (n / d) * d + n % d;
    if n / d < q { Steps(n / d + 1, q, d); }
  }

  lemma QuotientBelow(n: nat, d: nat, q: nat)
    requires d > 0 && n < q * d
    ensures n / d < q
  {
  }

  /** The tenths of a per cent nearest to the share scanned, and of two as near the even one. */
  ghost predicate IsScore(score: int, scanned: nat, total: int) {
    if total <= 0 then score == 1000
    else
      && -total <= 2 * (score * total - 1000 * scanned) <= total
      && (2 * (score * total - 1000 * scanned) == total || 2 * (1000 * scanned - score * total) == total ==>
            score % 2 == 0)
  }

  lemma OneMore(q: nat, d: nat)
    ensures (q + 1) * d == q * d + d
  {
  }

  /** How far the rounding is off: r down, or d - r up. */
  lemma RoundingIsOff(n: nat, d: nat)
    requires d > 0
    ensures var score, r := RoundHalfEven(n, d), n % d;
            score * d - n == if 2 * r < d || (2 * r == d && (n / d) % 2 == 0) then -r else d - r
  {
    OneMore(n / d, d);
    assert n == n / d * d + n % d;
  }

  lemma ScoreIsNearest(scanned: nat, total: int)
    ensures IsScore(Score(scanned, total), scanned, total)
  {
    if total > 0 { RoundingIsOff(1000 * scanned, total); }
  }

  /** The score reaches 100 exactly when at most one checkpoint in 2000 was missed. */
  lemma FullScoreIff(scanned: nat, total: nat)
    requires total > 0
    ensures Score(scanned, total) >= 1000 <==> 2000 * (total - scanned) <= total
  {
    var n := 1000 * scanned;
    if scanned >= total {
      QuotientAtLeast(n, total, 1000);
    } else if n >= 999 * total {
      Quotient(n, total, 999);
    } else {
      QuotientBelow(n, total, 999);
    }
  }

  /** So on a route of fewer than 2000 checkpoints it reaches 100 exactly when none was missed. */
  lemma FullScoreMeansNoneMissed(scanned: nat, total: int)
    requires total < 2000
    ensures Score(scanned, total) >= 1000 <==> MissedCheckpoints(scanned, total) == 0
  {
    if total > 0 { FullScoreIff(scanned, total); }
  }

  /** With 2000 it does not. */
  lemma OneOfTwoThousandMissed()
    ensures Score(1999, 2000) == 1000 && MissedCheckpoints(1999, 2000) == 1
  {
  }
}
