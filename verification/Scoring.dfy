/**
 Scoring of an inventory report against the seeded containers.

 A Counter with positive counts is a multiset. The strict level compares
 (container, role, coverage) keys; the discovery level forgets the coverage.
 */
module Scoring {

  datatype Key = Key(cid: string, role: string, coverage: string)

  datatype Found = Found(cid: string, role: string)

  datatype Score = Score(
    strictPrecision: real, strictRecall: real,
    discoveryPrecision: real, discoveryRecall: real,
    strictTp: nat, strictFp: int, strictFn: int,
    discoveryTp: nat, discoveryFp: int, discoveryFn: int,
    falsePositives: seq<Key>, falseNegatives: seq<Key>, outside: seq<Key>)

  function Min(a: nat, b: nat): nat { if a < b then a else b }

  function Ratio(numerator: int, denominator: int): real {
    if denominator == 0 then 1.0 else numerator as real / denominator as real
  }

  function Inside(rows: seq<Key>, population: set<string>): seq<Key> {
    if rows == [] then []
    else if rows[0].cid in population then [rows[0]] + Inside(rows[1..], population)
    else Inside(rows[1..], population)
  }

  function Outside(rows: seq<Key>, population: set<string>): seq<Key> {
    if rows == [] then []
    else if rows[0].cid in population then Outside(rows[1..], population)
    else [rows[0]] + Outside(rows[1..], population)
  }

  function Forget(keys: seq<Key>): (r: seq<Found>)
    ensures |r| == |keys|
  {
    seq(|keys|, i requires 0 <= i < |keys| => Found(keys[i].cid, keys[i].role))
  }

  /** `found` counts the keys of `keys` with the coverage forgotten. */
  ghost predicate Projects(keys: multiset<Key>, found: multiset<Found>) {
    exists listing :: Lists(listing, keys, found)
  }

  ghost predicate Lists(listing: seq<Key>, keys: multiset<Key>, found: multiset<Found>) {
    multiset(listing) == keys && multiset(Forget(listing)) == found
  }

  // ----- multisets -----

  lemma {:induction false} Listing(keys: multiset<Key>) returns (listing: seq<Key>)
    ensures multiset(listing) == keys
    decreases |keys|
  {
    if keys == multiset{} {
      listing := [];
    } else {
      var k :| k in keys;
      var rest := Listing(keys - multiset{k});
      listing := [k] + rest;
      assert multiset([k] + rest) == multiset{k} + multiset(rest);
    }
  }

  lemma ForgetAppend(a: seq<Key>, b: seq<Key>)
    ensures multiset(Forget(a + b)) == multiset(Forget(a)) + multiset(Forget(b))
  {
    assert Forget(a + b) == Forget(a) + Forget(b);
  }

  lemma TakeOut(b: seq<Key>, i: nat)
    requires i < |b|
    ensures multiset(b) == multiset{b[i]} + multiset(b[..i] + b[i + 1..])
    ensures multiset(Forget(b)) == multiset{Found(b[i].cid, b[i].role)} + multiset(Forget(b[..i] + b[i + 1..]))
  {
    assert b == b[..i] + [b[i]] + b[i + 1..];
    ForgetAppend(b[..i] + [b[i]], b[i + 1..]);
    ForgetAppend(b[..i], [b[i]]);
    ForgetAppend(b[..i], b[i + 1..]);
    assert Forget([b[i]]) == [Found(b[i].cid, b[i].role)];
  }

  lemma SameRest<T>(x: multiset<T>, y: multiset<T>, k: T)
    requires multiset{k} + x == multiset{k} + y
    ensures x == y
  {
    assert x == multiset{k} + x - multiset{k};
    assert y == multiset{k} + y - multiset{k};
  }

  /** Forgetting the coverage does not depend on the order in which keys are met. */
  lemma {:induction false} ForgetOrder(a: seq<Key>, b: seq<Key>)
    requires multiset(a) == multiset(b)
    ensures multiset(Forget(a)) == multiset(Forget(b))
    decreases |a|
  {
    if a == [] {
      assert |multiset(b)| == 0;
    } else {
      assert a[0] in multiset(b);
      var i :| 0 <= i < |b| && b[i] == a[0];
      TakeOut(a, 0);
      TakeOut(b, i);
      SameRest(multiset(a[..0] + a[1..]), multiset(b[..i] + b[i + 1..]), a[0]);
      ForgetOrder(a[..0] + a[1..], b[..i] + b[i + 1..]);
    }
  }

  lemma ProjectsUnique(keys: multiset<Key>, f: multiset<Found>, g: multiset<Found>)
    requires Projects(keys, f) && Projects(keys, g)
    ensures f == g
  {
    var a :| Lists(a, keys, f);
    var b :| Lists(b, keys, g);
    ForgetOrder(a, b);
  }

  lemma ProjectsSum(a: multiset<Key>, b: multiset<Key>, f: multiset<Found>, g: multiset<Found>)
    requires Projects(a, f) && Projects(b, g)
    ensures Projects(a + b, f + g)
  {
    var x :| Lists(x, a, f);
    var y :| Lists(y, b, g);
    ForgetAppend(x, y);
    assert Lists(x + y, a + b, f + g);
  }

  lemma ProjectsCopies(k: Key, n: nat)
    ensures Projects(multiset{}[k := n], multiset{}[Found(k.cid, k.role) := n])
  {
    var copies := seq(n, _ => k);
    Copies(k, n);
    Copies(Found(k.cid, k.role), n);
    assert Forget(copies) == seq(n, _ => Found(k.cid, k.role));
    assert Lists(copies, multiset{}[k := n], multiset{}[Found(k.cid, k.role) := n]);
  }

  lemma {:induction false} Copies<T>(x: T, n: nat)
    ensures multiset(seq(n, _ => x)) == multiset{}[x := n]
  {
    if n > 0 {
      Copies(x, n - 1);
      var shorter, longer := seq(n - 1, _ => x), seq(n, _ => x);
      assert longer == shorter + [x];
    } else {
      assert seq(n, _ => x) == [];
    }
  }

  lemma ProjectsSize(keys: multiset<Key>, found: multiset<Found>)
    requires Projects(keys, found)
    ensures |keys| == |found|
  {
    var a :| Lists(a, keys, found);
    assert |multiset(a)| == |a| && |multiset(Forget(a))| == |a|;
  }

  lemma ProjectsMonotone(part: multiset<Key>, whole: multiset<Key>, found: multiset<Found>) returns (f: multiset<Found>)
    requires part <= whole && Projects(whole, found)
    ensures Projects(part, f) && f <= found
  {
    var a := Listing(part);
    var b := Listing(whole - part);
    f := multiset(Forget(a));
    var g := multiset(Forget(b));
    assert Lists(a, part, f) && Lists(b, whole - part, g);
    ProjectsSum(part, whole - part, f, g);
    assert part + (whole - part) == whole;
    ProjectsUnique(whole, f + g, found);
  }

  lemma SubsetSize<T>(a: multiset<T>, b: multiset<T>)
    requires a <= b
    ensures |a| <= |b|
    ensures |a| == |b| ==> a == b
  {
    assert b == a + (b - a);
    assert |b| == |a| + |b - a|;
    if |a| == |b| {
      assert b - a == multiset{};
    }
  }

  /** Every strict match is also a discovery match. */
  lemma StrictBelowDiscovery(e: multiset<Key>, p: multiset<Key>, de: multiset<Found>, dp: multiset<Found>)
    requires Projects(e, de) && Projects(p, dp)
    ensures |e * p| <= |de * dp|
  {
    var f := ProjectsMonotone(e * p, e, de);
    var g := ProjectsMonotone(e * p, p, dp);
    ProjectsUnique(e * p, f, g);
    ProjectsSize(e * p, f);
    SubsetSize(f, de * dp);
  }

  lemma Conservation<T>(e: multiset<T>, p: multiset<T>)
    ensures |e| == |e * p| + |e - p|
    ensures |p| == |e * p| + |p - e|
  {
    assert e == (e * p) + (e - p);
    assert p == (e * p) + (p - e);
  }

  lemma RatioMonotone(a: int, b: int, total: int)
    requires 0 <= a <= b <= total
    ensures Ratio(a, total) <= Ratio(b, total)
    ensures Ratio(a, total) == 1.0 <==> a == total
  {
    if total > 0 {
      var x, y, t := a as real, b as real, total as real;
      assert x / t * t == x && y / t * t == y;
    }
  }

  /** Strict precision and recall are both one exactly when nothing was missed or invented. */
  lemma PerfectIffEqual(e: multiset<Key>, p: multiset<Key>)
    ensures Ratio(|e * p|, |p|) == 1.0 && Ratio(|e * p|, |e|) == 1.0 <==> e == p
  {
    Conservation(e, p);
    SubsetSize(e * p, e);
    SubsetSize(e * p, p);
    RatioMonotone(|e * p|, |p|, |p|);
    RatioMonotone(|e * p|, |e|, |e|);
    if e == p {
      assert e * p == e;
    }
  }

  // ----- the scoring loops -----

  method Matches<T(==)>(expected: multiset<T>, predicted: multiset<T>) returns (tp: nat)
    ensures tp == |expected * predicted|
  {
    tp := 0;
    var e, p := expected, predicted;
    while e + p != multiset{}
      invariant tp + |e * p| == |expected * predicted|
      decreases |e + p|
    {
      var k :| k in e + p;
      tp := tp + Min(e[k], p[k]);
      assert e[k := 0] * p[k := 0] == (e * p)[k := 0];
      assert e[k := 0] + p[k := 0] == (e + p)[k := 0];
      e, p := e[k := 0], p[k := 0];
    }
    assert |e * p| == 0 by {
      assert e * p <= e + p;
    }
  }

  method Discover(keys: multiset<Key>) returns (found: multiset<Found>)
    ensures Projects(keys, found)
  {
    found := multiset{};
    var todo := keys;
    assert Projects(multiset{}, found) by {
      var none: seq<Key> := [];
      assert Lists(none, multiset{}, found);
    }
    assert keys - todo == multiset{};
    while todo != multiset{}
      invariant todo <= keys && Projects(keys - todo, found)
      decreases |todo|
    {
      var k :| k in todo;
      var f, n := Found(k.cid, k.role), todo[k];
      ProjectsCopies(k, n);
      ProjectsSum(keys - todo, multiset{}[k := n], found, multiset{}[f := n]);
      assert keys - todo[k := 0] == (keys - todo) + multiset{}[k := n];
      assert found[f := found[f] + n] == found + multiset{}[f := n];
      todo := todo[k := 0];
      found := found[f := found[f] + n];
    }
    assert keys - todo == keys;
  }

  method CollectFalsePositives(expected: multiset<Key>, predicted: multiset<Key>) returns (out: seq<Key>)
    ensures forall k :: multiset(out)[k] == if predicted[k] > expected[k] then predicted[k] else 0
  {
    out := [];
    var todo := predicted;
    while todo != multiset{}
      invariant forall k :: todo[k] == 0 || todo[k] == predicted[k]
      invariant forall k :: multiset(out)[k] == if todo[k] == 0 && predicted[k] > expected[k] then predicted[k] else 0
      decreases |todo|
    {
      var k :| k in todo;
      if predicted[k] > expected[k] {
        var copies := seq(todo[k], _ => k);
        Copies(k, todo[k]);
        assert multiset(out + copies) == multiset(out) + multiset(copies);
        out := out + copies;
      }
      todo := todo[k := 0];
    }
  }

  method CollectFalseNegatives(expected: multiset<Key>, predicted: multiset<Key>) returns (out: seq<Key>)
    ensures multiset(out) == expected - predicted
  {
    out := [];
    var todo := expected;
    while todo != multiset{}
      invariant forall k :: todo[k] == 0 || todo[k] == expected[k]
      invariant forall k :: multiset(out)[k] == if todo[k] == 0 then (expected - predicted)[k] else 0
      decreases |todo|
    {
      var k :| k in todo;
      var n := if todo[k] > predicted[k] then todo[k] - predicted[k] else 0;
      var copies := seq(n, _ => k);
      Copies(k, n);
      assert multiset(out + copies) == multiset(out) + multiset(copies);
      out := out + copies;
      todo := todo[k := 0];
    }
  }

  method Partition(rows: seq<Key>, population: set<string>) returns (predicted: multiset<Key>, outside: seq<Key>)
    ensures predicted == multiset(Inside(rows, population))
    ensures outside == Outside(rows, population)
  {
    predicted, outside := multiset{}, [];
    for i := 0 to |rows|
      invariant predicted == multiset(Inside(rows[..i], population))
      invariant outside == Outside(rows[..i], population)
    {
      PartitionAppend(rows[..i], rows[i], population);
      assert rows[..i + 1] == rows[..i] + [rows[i]];
      if rows[i].cid in population {
        predicted := predicted[rows[i] := predicted[rows[i]] + 1];
      } else {
        outside := outside + [rows[i]];
      }
    }
    assert rows[..|rows|] == rows;
  }

  lemma {:induction false} PartitionAppend(rows: seq<Key>, row: Key, population: set<string>)
    ensures row.cid in population ==> Inside(rows + [row], population) == Inside(rows, population) + [row]
    ensures row.cid in population ==> Outside(rows + [row], population) == Outside(rows, population)
    ensures row.cid !in population ==> Inside(rows + [row], population) == Inside(rows, population)
    ensures row.cid !in population ==> Outside(rows + [row], population) == Outside(rows, population) + [row]
  {
    if rows == [] {
      assert rows + [row] == [row] && [row][1..] == [];
    } else {
      PartitionAppend(rows[1..], row, population);
      assert (rows + [row])[1..] == rows[1..] + [row];
      assert (rows + [row])[0] == rows[0];
    }
  }

  // ----- what the score means -----

  /** Counts at the strict level, over the expected and the predicted multiset. */
  ghost predicate StrictCounts(r: Score, e: multiset<Key>, p: multiset<Key>) {
    && r.strictTp == |e * p| && r.strictFp == |p - e| && r.strictFn == |e - p|
    && r.strictTp + r.strictFp == |p| && r.strictTp + r.strictFn == |e|
  }

  /** Counts at the discovery level, over the two projections. */
  ghost predicate DiscoveryCounts(r: Score, e: multiset<Key>, p: multiset<Key>) {
    exists de, dp :: Projects(e, de) && Projects(p, dp) && DiscoveryOver(r, de, dp)
  }

  ghost predicate DiscoveryOver(r: Score, de: multiset<Found>, dp: multiset<Found>) {
    r.discoveryTp == |de * dp| && r.discoveryFp == |dp - de| && r.discoveryFn == |de - dp|
  }

  ghost predicate RatiosOf(r: Score) {
    && r.strictPrecision == Ratio(r.strictTp, r.strictTp + r.strictFp)
    && r.strictRecall == Ratio(r.strictTp, r.strictTp + r.strictFn)
    && r.discoveryPrecision == Ratio(r.discoveryTp, r.discoveryTp + r.discoveryFp)
    && r.discoveryRecall == Ratio(r.discoveryTp, r.discoveryTp + r.discoveryFn)
  }

  /** Both levels share their totals, and discovery matches at least as much. */
  lemma LevelTotalsAgree(r: Score, e: multiset<Key>, p: multiset<Key>)
    requires StrictCounts(r, e, p) && DiscoveryCounts(r, e, p)
    ensures r.discoveryTp + r.discoveryFp == r.strictTp + r.strictFp
    ensures r.discoveryTp + r.discoveryFn == r.strictTp + r.strictFn
    ensures r.strictTp <= r.discoveryTp <= |p| && r.discoveryTp <= |e|
  {
    var de, dp :| Projects(e, de) && Projects(p, dp) && DiscoveryOver(r, de, dp);
    Conservation(de, dp);
    ProjectsSize(e, de);
    ProjectsSize(p, dp);
    StrictBelowDiscovery(e, p, de, dp);
  }

  /** Whatever the inputs, discovery never scores lower than strict. */
  lemma DiscoveryNeverLower(r: Score, e: multiset<Key>, p: multiset<Key>)
    requires StrictCounts(r, e, p) && DiscoveryCounts(r, e, p) && RatiosOf(r)
    ensures r.strictPrecision <= r.discoveryPrecision && r.strictRecall <= r.discoveryRecall
  {
    LevelTotalsAgree(r, e, p);
    RatiosOrdered(r);
  }

  lemma RatiosOrdered(r: Score)
    requires RatiosOf(r) && r.strictTp <= r.discoveryTp <= r.strictTp + r.strictFp && r.discoveryTp <= r.strictTp + r.strictFn
    requires r.discoveryTp + r.discoveryFp == r.strictTp + r.strictFp && r.discoveryTp + r.discoveryFn == r.strictTp + r.strictFn
    ensures r.strictPrecision <= r.discoveryPrecision && r.strictRecall <= r.discoveryRecall
  {
    RatioMonotone(r.strictTp, r.discoveryTp, r.strictTp + r.strictFp);
    RatioMonotone(r.strictTp, r.discoveryTp, r.strictTp + r.strictFn);
  }

  /** A perfect strict score means equal multisets, and equal multisets score perfectly. */
  lemma PerfectScoreIffEqual(r: Score, e: multiset<Key>, p: multiset<Key>)
    requires StrictCounts(r, e, p) && RatiosOf(r)
    ensures r.strictPrecision == 1.0 && r.strictRecall == 1.0 <==> e == p
  {
    PerfectIffEqual(e, p);
  }

  /** The listed false positives cover the surplus, and are exactly it when no surplus key was expected at all. */
  lemma FalsePositiveCount(e: multiset<Key>, p: multiset<Key>, listed: seq<Key>)
    requires forall k :: multiset(listed)[k] == if p[k] > e[k] then p[k] else 0
    ensures |p - e| <= |listed|
    ensures |listed| == |p - e| <==> forall k | k in p && p[k] > e[k] :: e[k] == 0
  {
    var l := multiset(listed);
    assert p - e <= l;
    SubsetSize(p - e, l);
    if forall k | k in p && p[k] > e[k] :: e[k] == 0 {
      assert p - e == l;
    } else {
      var k :| k in p && p[k] > e[k] && e[k] != 0;
      assert (p - e)[k] != l[k];
    }
  }

  method Assemble(stp: nat, sfp: int, sfn: int, dtp: nat, dfp: int, dfn: int,
                  fps: seq<Key>, fns: seq<Key>, outside: seq<Key>) returns (r: Score)
    ensures RatiosOf(r)
    ensures r.strictTp == stp && r.strictFp == sfp && r.strictFn == sfn
    ensures r.discoveryTp == dtp && r.discoveryFp == dfp && r.discoveryFn == dfn
    ensures r.falsePositives == fps && r.falseNegatives == fns && r.outside == outside
  {
    r := Score(
      Ratio(stp, stp + sfp), Ratio(stp, stp + sfn), Ratio(dtp, dtp + dfp), Ratio(dtp, dtp + dfn),
      stp, sfp, sfn, dtp, dfp, dfn, fps, fns, outside);
  }

  /** The whole score; what its numbers mean is stated over the two multisets. */
  method ScoreReport(rows: seq<Key>, expected: multiset<Key>, population: set<string>) returns (r: Score)
    ensures StrictCounts(r, expected, multiset(Inside(rows, population)))
    ensures DiscoveryCounts(r, expected, multiset(Inside(rows, population)))
    ensures RatiosOf(r)
    ensures multiset(r.falseNegatives) == expected - multiset(Inside(rows, population))
    ensures |r.falseNegatives| == r.strictFn
    ensures var p := multiset(Inside(rows, population));
            forall k :: multiset(r.falsePositives)[k] == if p[k] > expected[k] then p[k] else 0
    ensures r.outside == Outside(rows, population)
  {
    var predicted, outside := Partition(rows, population);
    var strictTp := Matches(expected, predicted);
    var strictFp, strictFn := |predicted| - strictTp, |expected| - strictTp;
    var de := Discover(expected);
    var dp := Discover(predicted);
    var discoveryTp := Matches(de, dp);
    var discoveryFp, discoveryFn := |dp| - discoveryTp, |de| - discoveryTp;
    var fps := CollectFalsePositives(expected, predicted);
    var fns := CollectFalseNegatives(expected, predicted);
    Conservation(expected, predicted);
    Conservation(de, dp);
    r := Assemble(strictTp, strictFp, strictFn, discoveryTp, discoveryFp, discoveryFn, fps, fns, outside);
    assert DiscoveryOver(r, de, dp);
    assert |multiset(fns)| == |fns|;
  }

  lemma InsideTwice(k: Key)
    ensures Inside([k, k], {k.cid}) == [k, k]
  {
    assert [k, k][1..] == [k] && [k][1..] == [];
    assert Inside([k], {k.cid}) == [k];
  }

  lemma TwoCopies(listed: seq<Key>, k: Key)
    requires forall x :: multiset(listed)[x] == if x == k then 2 else 0
    ensures listed == [k, k]
  {
    var l := multiset(listed);
    assert l == multiset{k, k};
    assert |listed| == |l| == 2;
    assert listed[0] in l && listed[1] in l;
  }

  lemma OneSurplus(e: multiset<Key>, p: multiset<Key>, k: Key)
    requires e == multiset{k} && p == multiset{k, k}
    ensures |p - e| == 1
  {
    assert p - e == multiset{k};
  }

  lemma CountsTwice(k: Key)
    ensures multiset([k, k]) == multiset{k, k}
    ensures forall x :: multiset{k, k}[x] == (if x == k then 2 else 0) && multiset{k}[x] == (if x == k then 1 else 0)
  {
  }

  lemma SurplusTwice(e: multiset<Key>, p: multiset<Key>, listed: seq<Key>, k: Key)
    requires forall x :: p[x] == (if x == k then 2 else 0) && e[x] == (if x == k then 1 else 0)
    requires forall x :: multiset(listed)[x] == if p[x] > e[x] then p[x] else 0
    ensures listed == [k, k]
  {
    TwoCopies(listed, k);
  }

  /** The list really is longer: a key expected once and predicted twice is one surplus, listed twice. */
  method ListedTwice(k: Key) returns (r: Score)
    ensures r.strictFp == 1 && r.falsePositives == [k, k]
  {
    r := ScoreReport([k, k], multiset{k}, {k.cid});
    InsideTwice(k);
    CountsTwice(k);
    OneSurplus(multiset{k}, multiset{k, k}, k);
    SurplusTwice(multiset{k}, multiset{k, k}, r.falsePositives, k);
  }
}
