/**
 * The flashcard game's arithmetic-set generator (`generateRandomSets`).
 *
 * A set is a sequence of signed terms. The generator keeps a running total;
 * a subtraction is allowed only while the total is above 20 and is never
 * larger than the total minus one, so the total never drops below 1. The
 * "repair" branch for a non-positive total is therefore dead code.
 */
module ArithmeticSets {
  import opened Options
  import opened Draws

  /**
   * The `Math.random()` values one pass of the inner loop may consume, in
   * call order: the coin (`Math.random() < 0.5`), the size of the term, and
   * the size of a repair term. The first term of a set uses `size` only.
   */
  datatype Draw = Draw(coin: Unit, size: Unit, fix: Unit)

  /** The draws for term `j` of set `i`. */
  type RandomSource = (nat, nat) -> Draw

  /** What one pass of the inner loop pushes, and the running total after it. */
  datatype Push = Push(term: int, total: int, repaired: bool)

  /** A set under construction: the terms pushed so far and the running total. */
  datatype Partial = Partial(terms: seq<int>, total: int)

  function Abs(x: int): int { if x < 0 then -x else x }

  /** The term drawn for a later position before any repair. */
  function DrawnTerm(total: int, d: Draw): int
  {
    if d.coin < 0.5 && total > 20 then
      var maxSub := Min(89, total - 1);
      -(Pick(d.size, maxSub - 10 + 1) + 10)
    else
      Pick(d.size, 90) + 10
  }

  /** One pass of the inner loop for term `j`, given the running total before it. */
  function Pass(j: nat, total: int, d: Draw): Push
  {
    if j == 0 then
      var num := Pick(d.size, 90) + 10;
      Push(num, total + num, false)
    else
      var num := DrawnTerm(total, d);
      var t := total + num;
      if t <= 0 then
        var fix := Pick(d.fix, 40) + 60;
        Push(fix, t + fix, true)
      else
        Push(num, t, false)
  }

  /** The first `k` passes of the inner loop for one set. */
  function Prefix(rnd: nat -> Draw, k: nat): Partial
  {
    if k == 0 then Partial([], 0)
    else
      var p := Prefix(rnd, k - 1);
      var s := Pass(k - 1, p.total, rnd(k - 1));
      Partial(p.terms + [s.term], s.total)
  }

  /** One set of `n` terms. */
  function GenerateSet(rnd: nat -> Draw, n: nat): seq<int>
  {
    Prefix(rnd, n).terms
  }

  /**
   * A set the generator can produce: the first term is in [10, 99]; every
   * later term is an add in [10, 99] or, when the sum before it is above 20,
   * a subtraction of 10 .. min(89, sum - 1).
   */
  ghost predicate ValidSet(s: seq<int>)
  {
    && (|s| > 0 ==> 10 <= s[0] <= 99)
    && (forall j :: 0 < j < |s| ==> ValidLaterTerm(Sum(s[..j]), s[j]))
  }

  ghost predicate ValidLaterTerm(before: int, x: int)
  {
    (10 <= x <= 99) || (before > 20 && 10 <= -x <= Min(89, before - 1))
  }

  /** Bounds of one pass: adds [10, 99], subtractions [10, 89], repairs [60, 99]. */
  lemma PassBounds(j: nat, total: int, d: Draw)
    ensures var s := Pass(j, total, d);
      && (j == 0 ==> 10 <= s.term <= 99 && !s.repaired && s.total == total + s.term)
      && (j > 0 && s.repaired ==> 60 <= s.term <= 99)
      && (j > 0 && !s.repaired && s.term < 0 ==> total > 20 && 10 <= -s.term <= Min(89, total - 1))
      && (j > 0 && !s.repaired && s.term >= 0 ==> 10 <= s.term <= 99)
      && (!s.repaired ==> s.total == total + s.term)
      && 10 <= Abs(s.term) <= 99
  {
  }

  /**
   * The repair branch cannot fire: from the empty total at the first term,
   * or from any total of at least 1 later, the new total is at least 1.
   */
  lemma RepairUnreachable(j: nat, total: int, d: Draw)
    requires (j == 0 && total == 0) || (j > 0 && total >= 1)
    ensures !Pass(j, total, d).repaired
    ensures Pass(j, total, d).total >= 1
  {
    PassBounds(j, total, d);
  }

  /**
   * Were the repair branch reached, the running total would include the
   * discarded term as well as the repair, so it would no longer be the sum
   * of the terms pushed.
   */
  lemma RepairWouldDiverge(j: nat, total: int, d: Draw)
    requires Pass(j, total, d).repaired
    ensures Pass(j, total, d).total != total + Pass(j, total, d).term
  {
    var num := DrawnTerm(total, d);
    assert Pass(j, total, d).total == total + num + Pass(j, total, d).term;
    assert num != 0;
  }

  /** The branch is reachable only from a total the generator never holds. */
  lemma RepairNeedsNonPositiveTotal(j: nat, total: int, d: Draw)
    requires Pass(j, total, d).repaired
    ensures j > 0 && total <= -10
  {
  }

  /**
   * After every push the running total is the sum of the set so far and is
   * at least 1.
   */
  lemma {:induction false} PrefixTotal(rnd: nat -> Draw, k: nat)
    ensures |Prefix(rnd, k).terms| == k
    ensures Prefix(rnd, k).total == Sum(Prefix(rnd, k).terms)
    ensures k == 0 ==> Prefix(rnd, k).total == 0
    ensures k > 0 ==> Prefix(rnd, k).total >= 1
  {
    if k > 0 {
      PrefixTotal(rnd, k - 1);
      var p := Prefix(rnd, k - 1);
      var s := Pass(k - 1, p.total, rnd(k - 1));
      RepairUnreachable(k - 1, p.total, rnd(k - 1));
      PassBounds(k - 1, p.total, rnd(k - 1));
      SumSnoc(p.terms, s.term);
    }
  }

  /** No pass of the generator takes the repair branch. */
  lemma NoRepair(rnd: nat -> Draw, j: nat)
    ensures !Pass(j, Prefix(rnd, j).total, rnd(j)).repaired
  {
    PrefixTotal(rnd, j);
    RepairUnreachable(j, Prefix(rnd, j).total, rnd(j));
  }

  /** Every prefix the generator builds is a valid set. */
  lemma {:induction false} PrefixValid(rnd: nat -> Draw, k: nat)
    ensures ValidSet(Prefix(rnd, k).terms)
  {
    if k > 0 {
      PrefixValid(rnd, k - 1);
      PrefixTotal(rnd, k - 1);
      var p := Prefix(rnd, k - 1);
      var s := Pass(k - 1, p.total, rnd(k - 1));
      RepairUnreachable(k - 1, p.total, rnd(k - 1));
      PassBounds(k - 1, p.total, rnd(k - 1));
      ValidSetSnoc(p.terms, s.term);
    }
  }

  /** Appending a term allowed after the current sum keeps a set valid. */
  lemma ValidSetSnoc(s: seq<int>, x: int)
    requires ValidSet(s)
    requires |s| == 0 ==> 10 <= x <= 99
    requires |s| > 0 ==> ValidLaterTerm(Sum(s), x)
    ensures ValidSet(s + [x])
  {
    var t := s + [x];
    assert t[..|s|] == s;
    forall j | 0 < j < |t|
      ensures ValidLaterTerm(Sum(t[..j]), t[j])
    {
      if j < |s| {
        assert t[..j] == s[..j];
      }
    }
  }

  /** Every prefix of a valid set has a sum of at least 1. */
  lemma {:induction false} ValidSetPrefixPositive(s: seq<int>, j: nat)
    requires ValidSet(s)
    requires 0 < j <= |s|
    ensures Sum(s[..j]) >= 1
  {
    SumPrefixStep(s, j - 1);
    if j > 1 {
      ValidSetPrefixPositive(s, j - 1);
    } else {
      assert s[..0] == [];
    }
  }

  /**
   * The generated set has exactly `n` terms, is valid, and its every prefix
   * sum is at least 1.
   */
  lemma GenerateSetValid(rnd: nat -> Draw, n: nat)
    ensures |GenerateSet(rnd, n)| == n
    ensures ValidSet(GenerateSet(rnd, n))
    ensures forall j :: 0 < j <= n ==> Sum(GenerateSet(rnd, n)[..j]) >= 1
  {
    PrefixTotal(rnd, n);
    PrefixValid(rnd, n);
    forall j | 0 < j <= n
      ensures Sum(GenerateSet(rnd, n)[..j]) >= 1
    {
      ValidSetPrefixPositive(GenerateSet(rnd, n), j);
    }
  }

  /** The draws that make term `j` of `s` come out as `s[j]`. */
  function DrawsFor(s: seq<int>, j: nat): Draw
  {
    if j >= |s| then Draw(0.0, 0.0, 0.0)
    else if j == 0 then
      if 10 <= s[0] <= 99 then Draw(0.0, DrawFor(s[0] - 10, 90), 0.0) else Draw(0.0, 0.0, 0.0)
    else
      var before := Sum(s[..j]);
      if 10 <= s[j] <= 99 then Draw(0.5, DrawFor(s[j] - 10, 90), 0.0)
      else if before > 20 && 10 <= -s[j] <= Min(89, before - 1) then
        Draw(0.0, DrawFor(-s[j] - 10, Min(89, before - 1) - 10 + 1), 0.0)
      else Draw(0.0, 0.0, 0.0)
  }

  /** The random source that replays `s`. */
  function Replay(s: seq<int>): nat -> Draw
  {
    (j: nat) => DrawsFor(s, j)
  }

  /** Conversely, every valid set is produced by some draws. */
  lemma GeneratorReachesEvery(s: seq<int>)
    requires ValidSet(s)
    ensures GenerateSet(Replay(s), |s|) == s
  {
    PrefixReaches(s, |s|);
    assert s[..|s|] == s;
  }

  lemma {:induction false} PrefixReaches(s: seq<int>, k: nat)
    requires ValidSet(s)
    requires k <= |s|
    ensures Prefix(Replay(s), k) == Partial(s[..k], Sum(s[..k]))
  {
    if k > 0 {
      PrefixReaches(s, k - 1);
      PassReplays(s, k - 1);
      SumPrefixStep(s, k - 1);
      assert s[..k] == s[..k - 1] + [s[k - 1]];
    }
  }

  /** Replaying term `j` from the sum before it yields `s[j]` without a repair. */
  lemma PassReplays(s: seq<int>, j: nat)
    requires ValidSet(s)
    requires j < |s|
    ensures Pass(j, Sum(s[..j]), DrawsFor(s, j)) == Push(s[j], Sum(s[..j]) + s[j], false)
  {
    var before := Sum(s[..j]);
    var d := DrawsFor(s, j);
    if j == 0 {
      assert s[..0] == [];
      assert Pick(d.size, 90) == s[0] - 10;
    } else {
      ValidSetPrefixPositive(s, j);
      assert ValidLaterTerm(before, s[j]);
      if 10 <= s[j] <= 99 {
        assert Pick(d.size, 90) == s[j] - 10;
        assert DrawnTerm(before, d) == s[j];
      } else {
        var maxSub := Min(89, before - 1);
        assert Pick(d.size, maxSub - 10 + 1) == -s[j] - 10;
        assert DrawnTerm(before, d) == s[j];
      }
    }
  }

  /** The draws of set `i`. */
  function SetSource(rnd: RandomSource, i: nat): nat -> Draw
  {
    (j: nat) => rnd(i, j)
  }

  /** `generateRandomSets(numSets, numbersPerSet)`. */
  function GenerateRandomSets(numSets: nat, numbersPerSet: nat, rnd: RandomSource): (sets: seq<seq<int>>)
    ensures |sets| == numSets
    ensures forall i :: 0 <= i < numSets ==> |sets[i]| == numbersPerSet && ValidSet(sets[i])
  {
    var sets := seq(numSets, (i: nat) => GenerateSet(SetSource(rnd, i), numbersPerSet));
    forall i | 0 <= i < numSets
      ensures |sets[i]| == numbersPerSet && ValidSet(sets[i])
    {
      GenerateSetValid(SetSource(rnd, i), numbersPerSet);
    }
    sets
  }
}
