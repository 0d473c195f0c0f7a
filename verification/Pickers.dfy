/** The three deterministic pickers of the consumer, and what each promises. */
module Pickers {
  import opened Outcome
  import opened Model
  import opened Services

  /** A pick, the refusal of an empty list or unknown strategy, or the library's panic. */
  datatype Choice = Picked(instance: Instance) | Refused | Panics

  // ------------------------------------------------------------------ round robin

  /** How many of the picks made while the counter runs over [from, from + picks) return position x of n. */
  function PicksOf(from: nat, picks: nat, n: nat, x: nat): nat
    requires n > 0
  {
    if picks == 0 then 0 else PicksOf(from, picks - 1, n, x) + if (from + picks - 1) % n == x then 1 else 0
  }

  lemma {:induction false} PickedOfSum(from: nat, a: nat, b: nat, n: nat, x: nat)
    requires n > 0
    ensures PicksOf(from, a + b, n, x) == PicksOf(from, a, n, x) + PicksOf(from + a, b, n, x)
    decreases b
  {
    if b > 0 {
      PickedOfSum(from, a, b - 1, n, x);
    }
  }

  lemma Multiples(k: int, n: int)
    requires n > 0
    ensures k >= 1 ==> k * n >= n
    ensures k <= -1 ==> k * n <= -n
  {
  }

  lemma Distribute(q: int, p: int, n: int)
    ensures (q - p) * n == q * n - p * n
    ensures (q + 1) * n == q * n + n
  {
  }

  lemma Remainder(c: nat, n: nat, q: nat, r: nat)
    requires n > 0 && r < n && c == q * n + r
    ensures c % n == r
  {
    var p := c / n;
    assert c == p * n + c % n;
    Distribute(q, p, n);
    Multiples(q - p, n);
  }

  lemma NextRemainder(c: nat, n: nat)
    requires n > 0
    ensures (c + 1) % n == if c % n + 1 == n then 0 else c % n + 1
  {
    var q, r := c / n, c % n;
    assert c == q * n + r;
    Distribute(q, 0, n);
    if r + 1 == n {
      Remainder(c + 1, n, q + 1, 0);
    } else {
      Remainder(c + 1, n, q, r + 1);
    }
  }

  /** Counting up from a remainder, every position met at most once before the counter wraps. */
  lemma {:induction false} PickedInOneRound(from: nat, picks: nat, n: nat, x: nat)
    requires n > 0 && x < n && picks <= n
    ensures PicksOf(from, picks, n, x) == if (x - from % n + n) % n < picks then 1 else 0
    ensures picks < n ==> (from + picks) % n == if from % n + picks < n then from % n + picks else from % n + picks - n
  {
    var d := if x >= from % n then x - from % n else x - from % n + n;
    assert (x - from % n + n) % n == d by {
      if x >= from % n {
        Remainder(x - from % n + n, n, 1, d);
      } else {
        Remainder(x - from % n + n, n, 0, d);
      }
    }
    if picks > 0 {
      PickedInOneRound(from, picks - 1, n, x);
      NextRemainder(from + picks - 1, n);
    }
  }

  /** From any counter value, n * k consecutive picks return each of the n positions exactly k times. */
  lemma {:induction false} RoundRobinIsFair(from: nat, n: nat, k: nat, x: nat)
    requires n > 0 && x < n
    ensures PicksOf(from, k * n, n, x) == k
    decreases k
  {
    if k > 0 {
      RoundRobinIsFair(from, n, k - 1, x);
      assert k * n == (k - 1) * n + n;
      PickedOfSum(from, (k - 1) * n, n, n, x);
      PickedInOneRound(from + (k - 1) * n, n, n, x);
    }
  }

  /** The picks made while the counter runs over [from, from + picks). */
  function Picks(items: seq<Instance>, from: nat, picks: nat): seq<Instance>
    requires items != []
  {
    seq(picks, j requires 0 <= j < picks => items[(from + j) % |items|])
  }

  lemma {:induction false} RemaindersInOneRound(from: nat, j: nat, n: nat)
    requires n > 0 && j < n
    ensures (from + j) % n == if from % n + j < n then from % n + j else from % n + j - n
    decreases j
  {
    if j > 0 {
      RemaindersInOneRound(from, j - 1, n);
      NextRemainder(from + j - 1, n);
    }
  }

  /** One round picks a rotation of the list. */
  lemma OneRoundRotates(items: seq<Instance>, from: nat)
    requires items != []
    ensures multiset(Picks(items, from, |items|)) == multiset(items)
  {
    var n, r := |items|, from % |items|;
    forall j | 0 <= j < n
      ensures Picks(items, from, n)[j] == (items[r..] + items[..r])[j]
    {
      RemaindersInOneRound(from, j, n);
    }
    assert Picks(items, from, n) == items[r..] + items[..r];
    assert items == items[..r] + items[r..];
  }

  lemma PicksOfSum(items: seq<Instance>, from: nat, a: nat, b: nat)
    requires items != []
    ensures Picks(items, from, a + b) == Picks(items, from, a) + Picks(items, from + a, b)
  {
  }

  lemma NoPicks(items: seq<Instance>, from: nat)
    requires items != []
    ensures Picks(items, from, 0) == []
  {
  }

  lemma OnePick(items: seq<Instance>, from: nat)
    requires items != []
    ensures Picks(items, from, 1) == [items[from % |items|]]
  {
  }

  lemma OneMore(k: nat, x: nat)
    ensures (k + 1) * x == k * x + x
  {
  }

  /** Any number of whole rounds returns each instance that many times as often as it is listed. */
  lemma {:induction false} RoundsAreFair(items: seq<Instance>, from: nat, rounds: nat, i: Instance)
    requires items != []
    ensures multiset(Picks(items, from, rounds * |items|))[i] == rounds * multiset(items)[i]
    decreases rounds
  {
    hide Picks;
    if rounds == 0 {
      NoPicks(items, from);
    } else {
      var n, less := |items|, (rounds - 1) * |items|;
      Distribute(rounds - 1, 0, n);
      RoundsAreFair(items, from, rounds - 1, i);
      PicksOfSum(items, from, less, n);
      OneRoundRotates(items, from + less);
      OneMore(rounds - 1, multiset(items)[i]);
    }
  }

  // --------------------------------------------------------------- weighted random

  /** The sum of the first n weights. */
  function Running(items: seq<Instance>, n: nat): int
    requires n <= |items|
  {
    if n == 0 then 0 else Running(items, n - 1) + items[n - 1].weight
  }

  function Total(items: seq<Instance>): int {
    Running(items, |items|)
  }

  ghost predicate Weighted(items: seq<Instance>) {
    forall i :: i in items ==> i.weight >= 0
  }

  predicate Exceeds(items: seq<Instance>, draw: int, p: nat)
    requires p < |items|
  {
    draw < Running(items, p + 1)
  }

  /** The first position whose running total exceeds the draw; the last one if there is none. */
  ghost predicate IsWeightedChoice(items: seq<Instance>, draw: int, p: nat) {
    && p < |items|
    && (forall q :: 0 <= q < p ==> !Exceeds(items, draw, q))
    && (Exceeds(items, draw, p) || p == |items| - 1)
  }

  /**
   * `draw` is the random number below the total of the weights. The library has none to give, and
   * panics, unless the total is positive; the result is then None.
   */
  method PickWeightedRandom(items: seq<Instance>, draw: int) returns (picked: Option<Instance>)
    requires items != []
    ensures picked.None? <==> Total(items) <= 0
    ensures picked.Some? ==> exists p: nat :: IsWeightedChoice(items, draw, p) && picked.value == items[p]
  {
    var total := 0;
    for n := 0 to |items|
      invariant total == Running(items, n)
    {
      total := total + items[n].weight;
    }
    if total <= 0 {
      return None;
    }
    var running := 0;
    for n := 0 to |items|
      invariant running == Running(items, n)
      invariant forall q :: 0 <= q < n ==> !Exceeds(items, draw, q)
    {
      running := running + items[n].weight;
      if draw < running {
        assert IsWeightedChoice(items, draw, n);
        return Some(items[n]);
      }
    }
    assert IsWeightedChoice(items, draw, |items| - 1);
    return Some(items[|items| - 1]);
  }

  lemma {:induction false} TotalsGrow(items: seq<Instance>, a: nat, b: nat)
    requires Weighted(items) && a <= b <= |items|
    ensures 0 <= Running(items, a) <= Running(items, b)
    decreases a + b
  {
    if a < b {
      assert items[b - 1] in items;
      TotalsGrow(items, a, b - 1);
    } else if a > 0 {
      assert items[a - 1] in items;
      TotalsGrow(items, a - 1, a - 1);
    }
  }

  /** A draw in range picks the one position whose interval of running totals holds it. */
  lemma WeightedChoiceIsInterval(items: seq<Instance>, draw: int, p: nat)
    requires Weighted(items) && 0 <= draw < Total(items) && p < |items|
    ensures IsWeightedChoice(items, draw, p) <==> Running(items, p) <= draw < Running(items, p + 1)
  {
    if IsWeightedChoice(items, draw, p) && p > 0 {
      assert !Exceeds(items, draw, p - 1);
    }
    if Running(items, p) <= draw {
      forall q | 0 <= q < p
        ensures !Exceeds(items, draw, q)
      {
        TotalsGrow(items, q + 1, p);
      }
    }
  }

  /** The integers from lo up to but not including hi. */
  function Interval(lo: int, hi: int): (s: set<int>)
    requires lo <= hi
    ensures forall d :: d in s <==> lo <= d < hi
    ensures |s| == hi - lo
    decreases hi - lo
  {
    if lo == hi then {} else Interval(lo, hi - 1) + {hi - 1}
  }

  ghost function DrawsFor(items: seq<Instance>, p: nat): set<int> {
    set d: int | 0 <= d < Total(items) && IsWeightedChoice(items, d, p)
  }

  /**
   * Exactly proportional: each position is the choice of exactly its weight many of the possible
   * draws, and no draw reaches the fallback after the loop.
   */
  lemma WeightedPickIsProportional(items: seq<Instance>, p: nat)
    requires Weighted(items) && p < |items|
    ensures |DrawsFor(items, p)| == items[p].weight
    ensures forall d :: d in DrawsFor(items, p) ==> Exceeds(items, d, p)
  {
    assert items[p] in items;
    TotalsGrow(items, 0, p);
    TotalsGrow(items, p + 1, |items|);
    var interval := Interval(Running(items, p), Running(items, p + 1));
    hide IsWeightedChoice;
    forall d
      ensures d in DrawsFor(items, p) <==> d in interval
    {
      if 0 <= d < Total(items) {
        WeightedChoiceIsInterval(items, d, p);
      }
    }
    assert DrawsFor(items, p) == interval;
  }

  // -------------------------------------------------------------- consistent hash

  function Endpoint(i: Instance): string {
    i.address + ":" + if i.port >= 0 then Decimal(i.port) else "-" + Decimal(-i.port)
  }

  /** The first position with the smallest score. */
  ghost predicate IsLowest(items: seq<Instance>, score: Instance -> nat, p: nat) {
    && p < |items|
    && (forall q :: 0 <= q < |items| ==> score(items[p]) <= score(items[q]))
    && (forall q :: 0 <= q < p ==> score(items[p]) < score(items[q]))
  }

  /** The digest of the key followed by the endpoint; `hash` stands for the 64-bit hash of the library. */
  function Score(hash: string -> nat, hashKey: string, i: Instance): nat {
    hash(hashKey + Endpoint(i))
  }

  method PickConsistentHash(items: seq<Instance>, hash: string -> nat, hashKey: string) returns (best: Instance)
    requires items != []
    ensures exists p: nat :: IsLowest(items, i => Score(hash, hashKey, i), p) && best == items[p]
  {
    best := items[0];
    ghost var at := 0;
    var bestScore := 0;
    for index := 0 to |items|
      invariant index == 0 || (at < index && best == items[at] && bestScore == Score(hash, hashKey, best))
      invariant forall q :: 0 <= q < index ==> bestScore <= Score(hash, hashKey, items[q])
      invariant forall q :: 0 <= q < index && q < at ==> bestScore < Score(hash, hashKey, items[q])
    {
      var item := items[index];
      var score := Score(hash, hashKey, item);
      if index == 0 || score < bestScore {
        best, bestScore := item, score;
        at := index;
      }
    }
    assert IsLowest(items, i => Score(hash, hashKey, i), at);
  }

  /** Removing an instance other than the chosen one keeps the choice. */
  lemma RemovalKeepsChoice(items: seq<Instance>, score: Instance -> nat, p: nat, gone: nat)
    requires IsLowest(items, score, p) && gone < |items| && gone != p
    ensures var rest := items[..gone] + items[gone + 1..];
            var p' := if gone < p then p - 1 else p;
            IsLowest(rest, score, p') && rest[p'] == items[p]
  {
  }

  /** The choice is one position only. */
  lemma LowestIsUnique(items: seq<Instance>, score: Instance -> nat, p: nat, q: nat)
    requires IsLowest(items, score, p) && IsLowest(items, score, q)
    ensures p == q
  {
    assert score(items[p]) <= score(items[q]) && score(items[q]) <= score(items[p]);
  }

  /** Appending an instance keeps the choice or selects the new one, the latter exactly if it scores lower. */
  lemma AppendingKeepsOrSelectsNew(items: seq<Instance>, score: Instance -> nat, p: nat, i: Instance, q: nat)
    requires IsLowest(items, score, p) && IsLowest(items + [i], score, q)
    ensures q == if score(i) < score(items[p]) then |items| else p
  {
    var all := items + [i];
    if score(i) < score(items[p]) {
      assert IsLowest(all, score, |items|) by {
        forall n | 0 <= n < |items|
          ensures score(i) < score(all[n])
        {
          assert all[n] == items[n];
        }
      }
      LowestIsUnique(all, score, q, |items|);
    } else {
      assert IsLowest(all, score, p) by {
        assert all[p] == items[p];
      }
      LowestIsUnique(all, score, q, p);
    }
  }

  ghost predicate DistinctScores(items: seq<Instance>, score: Instance -> nat) {
    forall x, y :: x in items && y in items && score(x) == score(y) ==> x == y
  }

  /** With distinct scores the order of the instances does not matter. */
  lemma ChoiceDependsOnTheSet(a: seq<Instance>, b: seq<Instance>, score: Instance -> nat, p: nat, q: nat)
    requires IsLowest(a, score, p) && IsLowest(b, score, q)
    requires forall i :: i in a <==> i in b
    requires DistinctScores(a, score)
    ensures a[p] == b[q]
  {
    assert a[p] in a && b[q] in b;
    var m :| 0 <= m < |b| && b[m] == a[p];
    var n :| 0 <= n < |a| && a[n] == b[q];
    assert score(a[p]) <= score(a[n]) && score(b[q]) <= score(b[m]);
  }

  /** Equal scores break towards the earlier instance, so there the order does matter. */
  lemma OrderMattersOnEqualScores(x: Instance, y: Instance, score: Instance -> nat)
    requires x != y && score(x) == score(y)
    ensures IsLowest([x, y], score, 0) && IsLowest([y, x], score, 0) && [x, y][0] != [y, x][0]
  {
  }
}
