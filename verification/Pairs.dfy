/** Chat pairs: how many users a number of pairs needs, and the random drawing of distinct pairs. */
module Pairs {
  import opened Prelude
  import opened Ids

  lemma {:induction false} TriangleMonotone(m: nat, n: nat)
    requires m <= n
    ensures Triangle(m) <= Triangle(n)
  {
    if m < n {
      TriangleMonotone(m, n - 1);
      TriangleStep(n - 1);
    }
  }

  // ---- how many users ----

  function Ceil(x: real): int { -((-x).Floor) }

  function Discriminant(pairs: int): real {
    var a, b, c := 1.0, -1.0, (-2 * pairs) as real;
    b * b - 4.0 * a * c
  }

  /** `root` is what an exact square root returns for the discriminant. */
  ghost predicate IsRoot(root: real, pairs: int) {
    Discriminant(pairs) >= 0.0 ==> root >= 0.0 && root * root == Discriminant(pairs)
  }

  /** `minUsersForPairs` in exact arithmetic: an error, or the positive solution of n^2 - n - 2 pairs = 0 rounded up. */
  function MinUsersForPairs(pairs: int, root: real): Option<int> {
    if pairs < 0 then None
    else if Discriminant(pairs) < 0.0 then None
    else
      var a, b := 1.0, -1.0;
      Some(Ceil((-b + root) / (2.0 * a)))
  }

  lemma CeilLaw(x: real)
    ensures Ceil(x) as real - 1.0 < x <= Ceil(x) as real
  {
  }

  lemma SquareOrder(x: real, y: real)
    requires 0.0 <= x <= y
    ensures x * x <= y * y
  {
    assert y * y - x * x == (y - x) * (y + x);
  }

  /**
   The formula is the inverse of counting pairs: it fails exactly for negative input, and otherwise returns the
   least number of users, at least one, that has enough pairs.
   */
  lemma MinUsersLeast(pairs: int, root: real)
    requires IsRoot(root, pairs)
    ensures var r := MinUsersForPairs(pairs, root);
            && (r.None? <==> pairs < 0)
            && (r.Some? ==>
                  && r.value >= 1 && Triangle(r.value) >= pairs
                  && forall m: nat :: 1 <= m < r.value ==> Triangle(m) < pairs)
  {
    if pairs >= 0 {
      assert Discriminant(pairs) == (1 + 8 * pairs) as real;
      var x := (1.0 + root) / 2.0;
      assert MinUsersForPairs(pairs, root) == Some(Ceil(x));
      CeilLaw(x);
      var n := Ceil(x);
      RootAtLeastOne(root, (1 + 8 * pairs) as real);
      assert n >= 1;
      EnoughPairs(pairs, root, n);
      forall m: nat | 1 <= m < n ensures Triangle(m) < pairs {
        TooFewPairs(pairs, root, m);
      }
    }
  }

  lemma StrictSquareOrder(x: real, y: real)
    requires 0.0 <= x < y
    ensures x * x < y * y
  {
    assert y * y - x * x == (y - x) * (y + x);
    assert y - x > 0.0 && y + x > 0.0;
  }

  lemma RootAtLeastOne(root: real, square: real)
    requires root >= 0.0 && root * root == square && square >= 1.0
    ensures root >= 1.0
  {
    if root < 1.0 {
      StrictSquareOrder(root, 1.0);
    }
  }

  lemma EnoughPairs(pairs: nat, root: real, n: nat)
    requires root >= 0.0 && root * root == (1 + 8 * pairs) as real
    requires root <= 2.0 * (n as real) - 1.0
    ensures Triangle(n) >= pairs
  {
    var y := 2.0 * (n as real) - 1.0;
    SquareOrder(root, y);
    OddSquare(n);
    TriangleStep(n);
  }

  lemma TooFewPairs(pairs: nat, root: real, m: nat)
    requires root >= 0.0 && root * root == (1 + 8 * pairs) as real
    requires m >= 1 && root > 2.0 * (m as real) - 1.0
    ensures Triangle(m) < pairs
  {
    var y := 2.0 * (m as real) - 1.0;
    StrictSquareOrder(y, root);
    OddSquare(m);
    TriangleStep(m);
  }

  lemma OddSquare(n: nat)
    ensures var y := 2.0 * (n as real) - 1.0; y * y == (1 + 4 * (n * (n - 1))) as real
  {
    var r := n as real;
    assert (n * (n - 1)) as real == r * (r - 1.0);
    assert (2.0 * r - 1.0) * (2.0 * r - 1.0) == 4.0 * (r * (r - 1.0)) + 1.0;
  }

  // ---- drawing pairs ----

  type Pair = (nat, nat)

  /** The indices of a draw, smaller first. */
  function Sorted(d: Pair): Pair { if d.0 > d.1 then (d.1, d.0) else d }

  /** The pairs accepted from a list of draws, in order: new ones, of two different users, until there are enough. */
  function Collect(draws: seq<Pair>, want: nat): seq<Pair> {
    if draws == [] then []
    else
      var acc, d := Collect(draws[..|draws| - 1], want), draws[|draws| - 1];
      if |acc| < want && d.0 != d.1 && Sorted(d) !in acc then acc + [Sorted(d)] else acc
  }

  /** All unordered pairs of different indices below `n`. */
  function AllPairs(n: nat): set<Pair> {
    if n == 0 then {} else AllPairs(n - 1) + NewPairs(n - 1, n - 1)
  }

  /** The pairs of `n` with an index below `k`. */
  function NewPairs(k: nat, n: nat): set<Pair> {
    if k == 0 then {} else NewPairs(k - 1, n) + {(k - 1, n)}
  }

  lemma {:induction false} NewPairsSize(k: nat, n: nat)
    ensures |NewPairs(k, n)| == k
  {
    if k > 0 {
      NewPairsSize(k - 1, n);
      NewPairsMember(k - 1, n, (k - 1, n));
    }
  }

  lemma DisjointUnion<T>(a: set<T>, b: set<T>)
    ensures a !! b ==> |a + b| == |a| + |b|
  {
  }

  lemma AllPairsStep(n: nat)
    requires n > 0
    ensures AllPairs(n) == AllPairs(n - 1) + NewPairs(n - 1, n - 1)
  {
  }

  lemma {:induction false} NewPairsMember(k: nat, n: nat, p: Pair)
    ensures p in NewPairs(k, n) <==> p.0 < k && p.1 == n
  {
    if k > 0 { NewPairsMember(k - 1, n, p); }
  }

  lemma {:induction false} AllPairsMember(n: nat, p: Pair)
    ensures p in AllPairs(n) <==> p.0 < p.1 < n
  {
    if n > 0 {
      AllPairsMember(n - 1, p);
      NewPairsMember(n - 1, n - 1, p);
      AllPairsStep(n);
      hide AllPairs, NewPairs;
    }
  }

  lemma AllPairsMembers(n: nat)
    ensures forall p :: p in AllPairs(n) <==> p.0 < p.1 < n
  {
    hide AllPairs;
    forall p: Pair ensures p in AllPairs(n) <==> p.0 < p.1 < n {
      AllPairsMember(n, p);
    }
  }

  lemma NewPairsAreNew(n: nat)
    ensures AllPairs(n) !! NewPairs(n, n)
  {
    hide AllPairs, NewPairs;
    forall p | p in AllPairs(n) && p in NewPairs(n, n) ensures false {
      AllPairsMember(n, p);
      NewPairsMember(n, n, p);
    }
  }

  /** There are n(n-1)/2 unordered pairs. */
  lemma {:induction false} AllPairsSize(n: nat)
    ensures |AllPairs(n)| == Triangle(n)
  {
    if n > 0 {
      AllPairsSize(n - 1);
      assert |NewPairs(n - 1, n - 1)| == n - 1 by { NewPairsSize(n - 1, n - 1); }
      TriangleStep(n - 1);
      AllPairsStep(n);
      NewPairsAreNew(n - 1);
      hide *;
      DisjointUnion(AllPairs(n - 1), NewPairs(n - 1, n - 1));
    }
  }

  /** The different pairs that occur among the draws. */
  function Seen(draws: seq<Pair>): set<Pair> {
    set k | 0 <= k < |draws| && draws[k].0 != draws[k].1 :: Sorted(draws[k])
  }

  lemma SeenSnoc(draws: seq<Pair>, d: Pair)
    ensures Seen(draws + [d]) == Seen(draws) + if d.0 != d.1 then {Sorted(d)} else {}
  {
    var s := draws + [d];
    forall p | p in Seen(draws) + (if d.0 != d.1 then {Sorted(d)} else {}) ensures p in Seen(s) {
      if p in Seen(draws) {
        var k :| 0 <= k < |draws| && draws[k].0 != draws[k].1 && Sorted(draws[k]) == p;
        assert s[k] == draws[k];
      } else {
        assert s[|draws|] == d;
      }
    }
  }

  function Elements<T>(s: seq<T>): set<T> { set x | x in s }

  lemma {:induction false} DistinctSize<T>(s: seq<T>)
    requires Distinct(s)
    ensures |Elements(s)| == |s|
  {
    if s != [] {
      var t, last := s[..|s| - 1], s[|s| - 1];
      DistinctSize(t);
      assert s == t + [last] && last !in t;
      assert Elements(s) == Elements(t) + {last};
    }
  }

  /**
   What is accepted: distinct pairs among those drawn; all of those drawn, while there are not enough. So their
   number is the number of different pairs drawn, up to the number wanted.
   */
  lemma {:induction false} CollectExact(draws: seq<Pair>, want: nat)
    ensures var acc := Collect(draws, want);
            && Distinct(acc) && Elements(acc) <= Seen(draws)
            && (|acc| < want ==> Elements(acc) == Seen(draws))
            && |acc| == Min(want, |Seen(draws)|)
  {
    var acc := Collect(draws, want);
    if draws != [] {
      var prev, d := draws[..|draws| - 1], draws[|draws| - 1];
      CollectExact(prev, want);
      assert draws == prev + [d];
      SeenSnoc(prev, d);
      var before := Collect(prev, want);
      if acc != before {
        assert Elements(acc) == Elements(before) + {Sorted(d)};
      }
    }
    DistinctSize(acc);
    SubsetSize(Elements(acc), Seen(draws));
  }

  lemma {:induction false} SubsetSize<T>(a: set<T>, b: set<T>)
    requires a <= b
    ensures |a| <= |b|
  {
    if a != {} {
      var x :| x in a;
      SubsetSize(a - {x}, b - {x});
    }
  }

  predicate Drawable(draws: seq<Pair>, n: nat) {
    forall k :: 0 <= k < |draws| ==> draws[k].0 < n && draws[k].1 < n
  }

  /** Pigeonhole: while fewer pairs are held than there are, one is still unused. */
  lemma UnusedPairExists(acc: seq<Pair>, n: nat)
    requires |acc| < Triangle(n)
    ensures exists p: Pair :: p.0 < p.1 < n && p !in acc
  {
    AllPairsSize(n);
    AllPairsMembers(n);
    if forall p: Pair :: p.0 < p.1 < n ==> p in acc {
      assert AllPairs(n) <= Elements(acc);
      SubsetSize(AllPairs(n), Elements(acc));
      ElementsSize(acc);
      assert false;
    }
  }

  lemma {:induction false} ElementsSize<T>(s: seq<T>)
    ensures |Elements(s)| <= |s|
  {
    if s != [] {
      var t := s[..|s| - 1];
      ElementsSize(t);
      assert Elements(s) == Elements(t) + {s[|s| - 1]};
    }
  }

  // ---- termination ----

  /** The first `k` draws of an infinite stream. */
  function Prefix(draws: nat -> Pair, k: nat): seq<Pair> { seq(k, i requires 0 <= i < k => draws(i)) }

  /** Each pair of users keeps coming up, in one order or the other. */
  ghost predicate Recurring(draws: nat -> Pair, n: nat) {
    forall p: Pair, k: nat :: p.0 < p.1 < n ==> Occurs(draws, p, k)
  }

  /** The pair is drawn at position `k` or later. */
  ghost predicate Occurs(draws: nat -> Pair, p: Pair, k: nat) {
    exists m: nat :: m >= k && Sorted(draws(m)) == p
  }

  lemma {:induction false} AllSeen(draws: nat -> Pair, n: nat, ps: set<Pair>) returns (k: nat)
    requires Recurring(draws, n) && ps <= AllPairs(n)
    ensures ps <= Seen(Prefix(draws, k))
    decreases ps
  {
    if ps == {} {
      k := 0;
    } else {
      var p :| p in ps;
      var j := AllSeen(draws, n, ps - {p});
      AllPairsMembers(n);
      assert Occurs(draws, p, j);
      var m: nat :| m >= j && Sorted(draws(m)) == p;
      k := m + 1;
      PrefixGrows(draws, j, m);
    }
  }

  lemma PrefixGrows(draws: nat -> Pair, j: nat, m: nat)
    requires m >= j
    ensures Seen(Prefix(draws, j)) <= Seen(Prefix(draws, m + 1))
    ensures draws(m).0 != draws(m).1 ==> Sorted(draws(m)) in Seen(Prefix(draws, m + 1))
  {
    var long, short := Prefix(draws, m + 1), Prefix(draws, j);
    assert long[m] == draws(m);
    forall q | q in Seen(short) ensures q in Seen(long) {
      var i :| 0 <= i < |short| && short[i].0 != short[i].1 && Sorted(short[i]) == q;
      assert long[i] == short[i];
    }
  }

  /** The drawing ends: under any stream in which the pairs keep recurring, after finitely many draws there are enough. */
  lemma DrawingEnds(draws: nat -> Pair, n: nat, want: nat) returns (k: nat)
    requires Recurring(draws, n) && want <= Triangle(n)
    ensures |Collect(Prefix(draws, k), want)| == want
  {
    k := AllSeen(draws, n, AllPairs(n));
    AllPairsSize(n);
    CollectExact(Prefix(draws, k), want);
    SubsetSize(AllPairs(n), Seen(Prefix(draws, k)));
  }

  // ---- the methods ----

  /** `generateRandomPairs` has failed, is still drawing when the draws run out, or is done. */
  datatype Outcome = Failed | Drawing(held: seq<(string, string)>) | Done(pairs: seq<(string, string)>)

  function Named(users: seq<string>, ps: seq<Pair>): seq<(string, string)>
    requires Drawable(ps, |users|)
  {
    seq(|ps|, k requires 0 <= k < |ps| => (users[ps[k].0], users[ps[k].1]))
  }

  lemma {:induction false} CollectDrawable(draws: seq<Pair>, want: nat, n: nat)
    requires Drawable(draws, n)
    ensures Drawable(Collect(draws, want), n)
    ensures forall k :: 0 <= k < |Collect(draws, want)| ==> Collect(draws, want)[k].0 < Collect(draws, want)[k].1
  {
    if draws != [] {
      CollectDrawable(draws[..|draws| - 1], want, n);
    }
  }

  lemma {:induction false} CollectFull(draws: seq<Pair>, want: nat, k: nat)
    requires k <= |draws| && |Collect(draws[..k], want)| == want
    ensures Collect(draws, want) == Collect(draws[..k], want)
  {
    if k < |draws| {
      var prev := draws[..|draws| - 1];
      assert prev[..k] == draws[..k];
      CollectFull(prev, want, k);
    } else {
      assert draws[..k] == draws;
    }
  }

  /**
   What was picked from a list of draws: `chosen` holds every drawn pair of two different users once, smaller index
   first, and nothing else, and `pairs` their names.
   */
  ghost predicate Picked(users: seq<string>, draws: seq<Pair>, chosen: seq<Pair>, pairs: seq<(string, string)>) {
    && |pairs| == |chosen|
    && (forall k :: 0 <= k < |chosen| ==> chosen[k].0 < chosen[k].1 < |users|)
    && (forall k :: 0 <= k < |chosen| ==> pairs[k] == (users[chosen[k].0], users[chosen[k].1]))
    && (forall k, l :: 0 <= k < l < |chosen| ==> chosen[k] != chosen[l])
    && (forall k :: 0 <= k < |chosen| ==> chosen[k] in draws || (chosen[k].1, chosen[k].0) in draws)
    && (forall m :: 0 <= m < |draws| && draws[m].0 < draws[m].1 ==> draws[m] in chosen)
    && (forall m :: 0 <= m < |draws| && draws[m].0 > draws[m].1 ==> (draws[m].1, draws[m].0) in chosen)
  }

  lemma SeenMeaning(draws: seq<Pair>, p: Pair)
    ensures p in Seen(draws) <==> p.0 < p.1 && (p in draws || (p.1, p.0) in draws)
  {
    if p.0 < p.1 && p in draws {
      var k :| 0 <= k < |draws| && draws[k] == p;
      assert Sorted(draws[k]) == p;
    }
    if p.0 < p.1 && (p.1, p.0) in draws {
      var k :| 0 <= k < |draws| && draws[k] == (p.1, p.0);
      assert Sorted(draws[k]) == p;
    }
  }

  /** The accepted pairs are picked from the draws that were looked at. */
  lemma CollectPicks(users: seq<string>, draws: seq<Pair>, want: nat, used: nat)
    requires used <= |draws| && Drawable(draws, |users|)
    requires Collect(draws, want) == Collect(draws[..used], want)
    requires Elements(Collect(draws, want)) == Seen(draws[..used])
    ensures Drawable(Collect(draws, want), |users|)
    ensures Picked(users, draws[..used], Collect(draws, want), Named(users, Collect(draws, want)))
  {
    var looked, chosen := draws[..used], Collect(draws, want);
    CollectExact(draws, want);
    CollectDrawable(draws, want, |users|);
    hide Seen, Collect;
    forall p: Pair ensures p in chosen <==> p.0 < p.1 && (p in looked || (p.1, p.0) in looked) {
      SeenMeaning(looked, p);
      assert p in chosen <==> p in Elements(chosen);
    }
    assert forall k :: 0 <= k < |chosen| ==> chosen[k] in chosen;
    assert forall m :: 0 <= m < |looked| ==> looked[m] in looked;
    forall m | 0 <= m < |looked| && looked[m].0 > looked[m].1 ensures (looked[m].1, looked[m].0) in chosen {
      var p := (looked[m].1, looked[m].0);
      assert (p.1, p.0) == looked[m];
    }
  }

  /**
   `generateRandomPairs`, with the answers of the random generator in `draws`. `used` is how many of them it has looked
   at: all of them unless it is done, and `chosen` are the pairs of indices it has picked.
   */
  method GenerateRandomPairs(users: seq<string>, numPairs: int, draws: seq<Pair>)
    returns (r: Outcome, ghost used: nat, ghost chosen: seq<Pair>)
    requires numPairs >= 0 && Drawable(draws, |users|)
    ensures Drawable(Collect(draws, numPairs), |users|)
    ensures r.Failed? <==> numPairs > Triangle(|users|)
    ensures var ps := Named(users, Collect(draws, numPairs));
            !r.Failed? ==> r == if |ps| == numPairs then Done(ps) else Drawing(ps)
    ensures used <= |draws|
    ensures r.Done? ==> |r.pairs| == numPairs && Picked(users, draws[..used], chosen, r.pairs)
    ensures r.Drawing? ==> |r.held| < numPairs && used == |draws| && Picked(users, draws[..used], chosen, r.held)
  {
    var n := |users|;
    var maxPairs := n * (n - 1) / 2;
    CollectDrawable(draws, numPairs, n);
    if numPairs > maxPairs {
      return Failed, 0, [];
    }
    var pairs: seq<(string, string)> := [];
    var held: set<Pair> := {};
    var next := 0;
    NothingHeld(users, draws, numPairs);
    hide *;
    while |pairs| < numPairs && next < |draws|
      invariant next <= |draws| && |pairs| <= numPairs
      invariant Holds(users, draws, numPairs, next, pairs, held)
      decreases |draws| - next
    {
      var (i, j) := draws[next];
      DrawStep(users, draws, numPairs, next, pairs, held);
      next := next + 1;
      if i != j {
        if i > j {
          i, j := j, i;
        }
        if (i, j) !in held {
          held := held + {(i, j)};
          pairs := pairs + [(users[i], users[j])];
        }
      }
    }
    used, chosen := next, Collect(draws[..next], numPairs);
    HoldsEnd(users, draws, numPairs, next, pairs, held);
    if |pairs| == numPairs {
      return Done(pairs), used, chosen;
    }
    return Drawing(pairs), used, chosen;
  }

  /** Where the drawing stands after `next` draws. */
  ghost predicate Holds(users: seq<string>, draws: seq<Pair>, want: nat, next: nat, pairs: seq<(string, string)>, held: set<Pair>) {
    && next <= |draws| && Drawable(draws, |users|)
    && var acc := Collect(draws[..next], want);
       && Drawable(acc, |users|) && |acc| <= want && pairs == Named(users, acc)
       && held == Elements(acc) == Seen(draws[..next])
  }

  lemma NothingHeld(users: seq<string>, draws: seq<Pair>, want: nat)
    requires Drawable(draws, |users|)
    ensures Holds(users, draws, want, 0, [], {})
  {
    assert draws[..0] == [];
  }

  lemma DrawStep(users: seq<string>, draws: seq<Pair>, want: nat, next: nat, pairs: seq<(string, string)>, held: set<Pair>)
    requires Holds(users, draws, want, next, pairs, held) && next < |draws| && |pairs| < want
    ensures draws[next].0 < |users| && draws[next].1 < |users|
    ensures var d := draws[next];
            var p := if d.0 > d.1 then (d.1, d.0) else d;
            if d.0 != d.1 && p !in held then Holds(users, draws, want, next + 1, pairs + [(users[p.0], users[p.1])], held + {p})
            else Holds(users, draws, want, next + 1, pairs, held)
  {
    var d, looked := draws[next], draws[..next];
    var acc := Collect(looked, want);
    assert draws[..next + 1] == looked + [d] && (looked + [d])[..next] == looked;
    SeenSnoc(looked, d);
    CollectSnoc(looked, d, want);
    hide Collect, Seen;
    if d.0 != d.1 && Sorted(d) !in held {
      assert Sorted(d) !in acc;
      assert Named(users, acc + [Sorted(d)]) == Named(users, acc) + [(users[Sorted(d).0], users[Sorted(d).1])];
    } else if d.0 != d.1 {
      assert Sorted(d) in acc;
    }
  }

  lemma CollectSnoc(draws: seq<Pair>, d: Pair, want: nat)
    ensures var acc := Collect(draws, want);
            Collect(draws + [d], want) == if |acc| < want && d.0 != d.1 && Sorted(d) !in acc then acc + [Sorted(d)] else acc
  {
    assert (draws + [d])[..|draws|] == draws;
  }

  lemma HoldsEnd(users: seq<string>, draws: seq<Pair>, want: nat, next: nat, pairs: seq<(string, string)>, held: set<Pair>)
    requires Holds(users, draws, want, next, pairs, held) && (|pairs| == want || next == |draws|)
    ensures Drawable(Collect(draws, want), |users|) && pairs == Named(users, Collect(draws, want))
    ensures |pairs| == |Named(users, Collect(draws, want))| && Picked(users, draws[..next], Collect(draws[..next], want), pairs)
  {
    if |pairs| == want {
      CollectFull(draws, want, next);
    } else {
      assert draws[..next] == draws;
    }
    CollectPicks(users, draws, want, next);
  }

  /** Different users, and no two entries for the same two users. */
  ghost predicate ProperPairs(pairs: seq<(string, string)>) {
    && (forall k :: 0 <= k < |pairs| ==> pairs[k].0 != pairs[k].1)
    && (forall k, l :: 0 <= k < l < |pairs| ==>
          pairs[k] != pairs[l] && pairs[k] != (pairs[l].1, pairs[l].0))
  }

  lemma NamedProper(users: seq<string>, ps: seq<Pair>)
    requires Drawable(ps, |users|) && Distinct(users) && Distinct(ps)
    requires forall k :: 0 <= k < |ps| ==> ps[k].0 < ps[k].1
    ensures ProperPairs(Named(users, ps))
  {
    var pairs := Named(users, ps);
    forall k, l | 0 <= k < l < |pairs|
      ensures pairs[k] != pairs[l] && pairs[k] != (pairs[l].1, pairs[l].0)
    {
      assert ps[k] != ps[l];
    }
  }

  /** Drawing among enough users of the task gives proper pairs, as many as were seen or wanted. */
  lemma DrawnPairs(prefix: string, users: seq<string>, least: nat, count: nat, draws: seq<Pair>)
    requires users == Uids(prefix, 0, |users|) && least <= |users| && Triangle(least) >= count
    requires Drawable(draws, |users|)
    ensures Triangle(|users|) >= count
    ensures var ps := Collect(draws, count);
            && |ps| == Min(count, |Seen(draws)|) && Drawable(ps, |users|)
            && |Named(users, ps)| == |ps| && ProperPairs(Named(users, ps))
  {
    UidsDistinct(prefix, 0, |users|);
    TriangleMonotone(least, |users|);
    CollectExact(draws, count);
    CollectDrawable(draws, count, |users|);
    hide Uids, Seen, Collect, Triangle;
    NamedProper(users, Collect(draws, count));
  }

  class P2pTask {
    const count: int
    const prefix: string
    var pairs: seq<(string, string)>

    constructor (count: int, prefix: string)
      ensures this.count == count && this.prefix == prefix && pairs == []
    {
      this.count, this.prefix := count, prefix;
      pairs := [];
    }

    /** How many users there are after the top-up. */
    ghost function Users(uids: seq<string>, root: real): seq<string> {
      var least := MinUsersForPairs(count, root);
      Uids(prefix, 0, if least.Some? && least.value > |uids| then least.value else |uids|)
    }

    /** The users are topped up to `least`, if there are fewer. */
    method TopUp(uids: seq<string>, least: nat) returns (users: seq<string>)
      requires uids == Uids(prefix, 0, |uids|)
      ensures users == Uids(prefix, 0, |users|) && |users| == (if least > |uids| then least else |uids|)
      ensures users[..|uids|] == uids && forall k :: |uids| <= k < |users| ==> users[k] == GenUid(prefix, k)
    {
      hide Uids, GenUid;
      users := uids;
      for i := |uids| to if least > |uids| then least else |uids|
        invariant users == Uids(prefix, 0, i)
      {
        UidsSnoc(prefix, i);
        users := users + [GenUid(prefix, i)];
      }
      UidsAt(prefix, 0, if least > |uids| then least else |uids|);
      UidsAt(prefix, 0, |uids|);
      assert forall k :: 0 <= k < |uids| ==> users[k] == uids[k];
    }

    /**
     `generateData`: tops the online users up to the least number with enough pairs, and draws. It never takes the
     error branch of `generateRandomPairs`, and the pairs it ends with are pairs of different users, each once: those
     picked from the first `used` draws among `users`, which are the online users and the ones that top them up.
     */
    method GenerateData(uids: seq<string>, root: real, draws: seq<Pair>)
      returns (r: Outcome, ghost users: seq<string>, ghost used: nat, ghost chosen: seq<Pair>)
      requires uids == Uids(prefix, 0, |uids|) && IsRoot(root, count)
      requires Drawable(draws, |Users(uids, root)|)
      modifies this
      ensures r.Failed? <==> count < 0
      ensures r.Done? ==> pairs == r.pairs && |pairs| == count && ProperPairs(pairs)
      ensures r.Done? <==> count >= 0 && |Seen(draws)| >= count
      ensures !r.Done? ==> pairs == old(pairs)
      ensures r.Done? ==>
                && used <= |draws| && Picked(users, draws[..used], chosen, pairs)
                && uids <= users && forall k :: |uids| <= k < |users| ==> users[k] == GenUid(prefix, k)
    {
      users, used, chosen := [], 0, [];
      MinUsersLeast(count, root);
      var minUserCount := MinUsersForPairs(count, root);
      if minUserCount.None? {
        r := Failed;
        return;
      }
      var all := TopUp(uids, minUserCount.value);
      users := all;
      DrawnPairs(prefix, all, minUserCount.value, count, draws);
      hide Uids, Seen, Collect, MinUsersForPairs, Named, Triangle, Picked, GenUid;
      r, used, chosen := GenerateRandomPairs(all, count, draws);
      if r.Done? {
        pairs := r.pairs;
      }
    }
  }
}
