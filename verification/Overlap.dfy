/**
 * `idmap_overlap_errors` (tools/openstack-incus-scale-e2e.py): one sweep over
 * the sorted ranges of the whole fleet finds exactly what comparing all pairs
 * would find.
 */
module Overlap {
  import opened Sorting

  datatype Kind = UidRange | GidRange

  datatype Item = Item(kind: Kind, start: int, end: int, host: nat, instance: nat)

  /** One reported collision. */
  datatype Report = Report(first: Item, second: Item)

  predicate NonEmpty(x: Item) {
    x.start < x.end
  }

  /** Two ranges share an identifier of the same kind. */
  predicate Collide(x: Item, y: Item) {
    x.kind == y.kind && x.start < y.end && y.start < x.end
  }

  // ---- the reference: all pairs -----------------------------------------------------------

  /** A collision without an order between its sides. */
  type Pair = multiset<Item>

  /** The one pair that `y` and `x` make, if they collide. */
  ghost function Hit(y: Item, x: Item): (r: multiset<Pair>)
    ensures r == multiset{} <==> !Collide(y, x)
  {
    if Collide(y, x) then
      assert multiset{y, x} in multiset{multiset{y, x}};
      multiset{multiset{y, x}}
    else multiset{}
  }

  lemma HitSymmetric(x: Item, y: Item)
    ensures Hit(x, y) == Hit(y, x)
  {
    assert multiset{x, y} == multiset{y, x};
  }

  /** The collisions of `x` with the members of `s`, each member counted once. */
  ghost function With(x: Item, s: seq<Item>): multiset<Pair> {
    if s == [] then multiset{} else With(x, s[..|s| - 1]) + Hit(s[|s| - 1], x)
  }

  /** All colliding pairs at two different positions of `s`. */
  ghost function AllPairs(s: seq<Item>): multiset<Pair> {
    if s == [] then multiset{} else AllPairs(s[..|s| - 1]) + With(s[|s| - 1], s[..|s| - 1])
  }

  lemma WithAppend(x: Item, s: seq<Item>, y: Item)
    ensures With(x, s + [y]) == With(x, s) + Hit(y, x)
  {
    assert (s + [y])[..|s|] == s;
  }

  lemma PairsAppend(s: seq<Item>, y: Item)
    ensures AllPairs(s + [y]) == AllPairs(s) + With(y, s)
  {
    assert (s + [y])[..|s|] == s;
  }

  predicate Clear(x: Item, s: seq<Item>) {
    forall i | 0 <= i < |s| :: !Collide(s[i], x)
  }

  predicate PairwiseClear(s: seq<Item>) {
    forall i, j | 0 <= i < j < |s| :: !Collide(s[i], s[j])
  }

  lemma ClearAppend(x: Item, s: seq<Item>, y: Item)
    ensures Clear(x, s + [y]) <==> Clear(x, s) && !Collide(y, x)
  {
    var t := s + [y];
    if Clear(x, t) {
      forall i | 0 <= i < |s| ensures !Collide(s[i], x) {
        assert t[i] == s[i];
      }
      assert !Collide(t[|s|], x);
    }
  }

  lemma PairwiseAppend(s: seq<Item>, y: Item)
    ensures PairwiseClear(s + [y]) <==> PairwiseClear(s) && Clear(y, s)
  {
    var t := s + [y];
    if PairwiseClear(t) {
      forall i | 0 <= i < |s| ensures !Collide(s[i], y) {
        assert !Collide(t[i], t[|s|]);
      }
      forall i, j | 0 <= i < j < |s| ensures !Collide(s[i], s[j]) {
        assert !Collide(t[i], t[j]);
      }
    }
  }

  lemma {:induction false} WithExactly(x: Item, s: seq<Item>)
    ensures With(x, s) == multiset{} <==> Clear(x, s)
  {
    if s != [] {
      var t, y := s[..|s| - 1], s[|s| - 1];
      assert s == t + [y];
      WithExactly(x, t);
      WithAppend(x, t, y);
      ClearAppend(x, t, y);
      EmptySum(With(x, t), Hit(y, x));
    }
  }

  lemma EmptySum<T>(a: multiset<T>, b: multiset<T>)
    ensures a + b == multiset{} <==> a == multiset{} && b == multiset{}
  {
    if a + b == multiset{} {
      assert |a + b| == |a| + |b|;
    }
  }

  /** The reference is empty exactly when no two positions collide. */
  lemma {:induction false} AllPairsExactly(s: seq<Item>)
    ensures AllPairs(s) == multiset{} <==> PairwiseClear(s)
  {
    if s != [] {
      var t, y := s[..|s| - 1], s[|s| - 1];
      assert s == t + [y];
      AllPairsExactly(t);
      PairsAppend(t, y);
      WithExactly(y, t);
      PairwiseAppend(t, y);
      EmptySum(AllPairs(t), With(y, t));
    }
  }

  // ---- the reference does not depend on the order --------------------------------------------

  /** `s` without its `i`-th member. */
  function Without(s: seq<Item>, i: nat): seq<Item>
    requires i < |s|
  {
    s[..i] + s[i + 1..]
  }

  lemma WithoutAppend(s: seq<Item>, y: Item, i: nat)
    requires i < |s|
    ensures Without(s + [y], i) == Without(s, i) + [y]
  {
  }

  lemma {:induction false} WithRemoved(x: Item, s: seq<Item>, i: nat)
    requires i < |s|
    ensures With(x, s) == With(x, Without(s, i)) + Hit(s[i], x)
  {
    var t, y := s[..|s| - 1], s[|s| - 1];
    assert s == t + [y];
    if i < |t| {
      WithRemoved(x, t, i);
      WithoutAppend(t, y, i);
      WithAppend(x, Without(t, i), y);
      WithAppend(x, t, y);
    } else {
      assert Without(s, i) == t;
    }
  }

  lemma {:induction false} PairsRemoved(s: seq<Item>, i: nat)
    requires i < |s|
    ensures AllPairs(s) == AllPairs(Without(s, i)) + With(s[i], Without(s, i))
  {
    var t, y := s[..|s| - 1], s[|s| - 1];
    assert s == t + [y];
    if i < |t| {
      PairsRemoved(t, i);
      WithoutAppend(t, y, i);
      PairsAppend(t, y);
      PairsAppend(Without(t, i), y);
      WithAppend(s[i], Without(t, i), y);
      WithRemoved(y, t, i);
      HitSymmetric(s[i], y);
    } else {
      assert Without(s, i) == t;
    }
  }

  lemma Removed(s: seq<Item>, i: nat)
    requires i < |s|
    ensures multiset(Without(s, i)) == multiset(s) - multiset{s[i]}
  {
    assert s == s[..i] + [s[i]] + s[i + 1..];
  }

  /** Both lists without their common member are again reorderings of each other. */
  lemma Matched(s: seq<Item>, t: seq<Item>) returns (i: nat)
    requires s != [] && multiset(s) == multiset(t)
    ensures i < |t| && t[i] == s[|s| - 1]
    ensures multiset(s[..|s| - 1]) == multiset(Without(t, i))
  {
    var n := |s| - 1;
    assert s[n] in multiset(s) && s[n] in t;
    i :| 0 <= i < |t| && t[i] == s[n];
    Removed(s, n);
    Removed(t, i);
    assert Without(s, n) == s[..n];
  }

  lemma SameLength(s: seq<Item>, t: seq<Item>)
    requires multiset(s) == multiset(t)
    ensures |s| == |t|
  {
    assert |multiset(s)| == |s| && |multiset(t)| == |t|;
  }

  lemma {:induction false} WithReordered(x: Item, s: seq<Item>, t: seq<Item>)
    requires multiset(s) == multiset(t)
    ensures With(x, s) == With(x, t)
    decreases |s|
  {
    SameLength(s, t);
    if s != [] {
      var i := Matched(s, t);
      WithReordered(x, s[..|s| - 1], Without(t, i));
      WithRemoved(x, t, i);
    }
  }

  /** All pairs of a list are all pairs of any reordering of it. */
  lemma {:induction false} PairsReordered(s: seq<Item>, t: seq<Item>)
    requires multiset(s) == multiset(t)
    ensures AllPairs(s) == AllPairs(t)
    decreases |s|
  {
    SameLength(s, t);
    if s != [] {
      var i := Matched(s, t);
      PairsReordered(s[..|s| - 1], Without(t, i));
      WithReordered(s[|s| - 1], s[..|s| - 1], Without(t, i));
      PairsRemoved(t, i);
    }
  }

  // ---- the two kinds -------------------------------------------------------------------------

  function OfKind(s: seq<Item>, kind: Kind): seq<Item> {
    if s == [] then []
    else if s[|s| - 1].kind == kind then OfKind(s[..|s| - 1], kind) + [s[|s| - 1]]
    else OfKind(s[..|s| - 1], kind)
  }

  lemma {:induction false} OfKindMembers(s: seq<Item>, kind: Kind)
    ensures forall x :: x in OfKind(s, kind) <==> x in s && x.kind == kind
  {
    if s != [] {
      var t, y := s[..|s| - 1], s[|s| - 1];
      assert s == t + [y];
      OfKindMembers(t, kind);
    }
  }

  lemma {:induction false} WithOfKind(x: Item, s: seq<Item>)
    ensures With(x, s) == With(x, OfKind(s, x.kind))
  {
    if s != [] {
      var t, y := s[..|s| - 1], s[|s| - 1];
      WithOfKind(x, t);
      if y.kind == x.kind {
        WithAppend(x, OfKind(t, x.kind), y);
      }
    }
  }

  /** Ranges of different kinds never collide, so the kinds can be swept one after the other. */
  lemma {:induction false} PairsByKind(s: seq<Item>)
    ensures AllPairs(s) == AllPairs(OfKind(s, UidRange)) + AllPairs(OfKind(s, GidRange))
  {
    if s != [] {
      var t, y := s[..|s| - 1], s[|s| - 1];
      PairsByKind(t);
      WithOfKind(y, t);
      PairsAppend(OfKind(t, y.kind), y);
    }
  }

  // ---- the sweep -------------------------------------------------------------------------------

  predicate KeyLe(x: Item, y: Item) {
    || x.start < y.start
    || (x.start == y.start && x.end < y.end)
    || (x.start == y.start && x.end == y.end && x.host < y.host)
    || (x.start == y.start && x.end == y.end && x.host == y.host && x.instance <= y.instance)
  }

  /** The members of `s` that reach beyond `at`. */
  function Reaching(s: seq<Item>, at: int): seq<Item> {
    if s == [] then []
    else if s[|s| - 1].end > at then Reaching(s[..|s| - 1], at) + [s[|s| - 1]]
    else Reaching(s[..|s| - 1], at)
  }

  lemma ReachingAppend(s: seq<Item>, x: Item, at: int)
    ensures Reaching(s + [x], at) == if x.end > at then Reaching(s, at) + [x] else Reaching(s, at)
  {
    assert (s + [x])[..|s|] == s;
  }

  lemma {:induction false} ReachingTwice(s: seq<Item>, at: int, later: int)
    requires at <= later
    ensures Reaching(Reaching(s, at), later) == Reaching(s, later)
  {
    if s != [] {
      var t, y := s[..|s| - 1], s[|s| - 1];
      ReachingTwice(t, at, later);
      if y.end > at {
        ReachingAppend(Reaching(t, at), y, later);
      }
    }
  }

  /** The sides of each report, without their order. */
  function Sides(errors: seq<Report>): seq<Pair> {
    seq(|errors|, i requires 0 <= i < |errors| => multiset{errors[i].first, errors[i].second})
  }

  /** The reports without any order. */
  ghost function Unordered(errors: seq<Report>): multiset<Pair> {
    multiset(Sides(errors))
  }

  /** The reports against one range, in the order of the earlier ones. */
  function Against(x: Item, s: seq<Item>): seq<Report> {
    if s == [] then []
    else if Collide(s[|s| - 1], x) then Against(x, s[..|s| - 1]) + [Report(s[|s| - 1], x)]
    else Against(x, s[..|s| - 1])
  }

  /** All colliding pairs, each reported at its later range. */
  function PairsInOrder(s: seq<Item>): seq<Report> {
    if s == [] then [] else PairsInOrder(s[..|s| - 1]) + Against(s[|s| - 1], s[..|s| - 1])
  }

  lemma AgainstAppend(x: Item, s: seq<Item>, y: Item)
    ensures Against(x, s + [y]) == if Collide(y, x) then Against(x, s) + [Report(y, x)] else Against(x, s)
  {
    assert (s + [y])[..|s|] == s;
  }

  lemma PairsInOrderAppend(s: seq<Item>, y: Item)
    ensures PairsInOrder(s + [y]) == PairsInOrder(s) + Against(y, s)
  {
    assert (s + [y])[..|s|] == s;
  }

  lemma UnorderedConcat(a: seq<Report>, b: seq<Report>)
    ensures Unordered(a + b) == Unordered(a) + Unordered(b)
  {
    assert Sides(a + b) == Sides(a) + Sides(b);
  }

  lemma UnorderedAppend(errors: seq<Report>, y: Item, x: Item)
    requires Collide(y, x)
    ensures Unordered(errors + [Report(y, x)]) == Unordered(errors) + Hit(y, x)
  {
    UnorderedConcat(errors, [Report(y, x)]);
    assert Sides([Report(y, x)]) == [multiset{y, x}];
  }

  lemma {:induction false} AgainstUnordered(x: Item, s: seq<Item>)
    ensures Unordered(Against(x, s)) == With(x, s)
  {
    if s != [] {
      var t, y := s[..|s| - 1], s[|s| - 1];
      AgainstUnordered(x, t);
      if Collide(y, x) {
        UnorderedAppend(Against(x, t), y, x);
      }
    }
  }

  /** The reports in sweep order are the all-pairs reference. */
  lemma {:induction false} PairsUnordered(s: seq<Item>)
    ensures Unordered(PairsInOrder(s)) == AllPairs(s)
    ensures AllTrue(PairsInOrder(s))
  {
    if s != [] {
      var t, y := s[..|s| - 1], s[|s| - 1];
      PairsUnordered(t);
      AgainstUnordered(y, t);
      AgainstTrue(y, t);
      UnorderedConcat(PairsInOrder(t), Against(y, t));
    }
  }

  lemma {:induction false} AgainstTrue(x: Item, s: seq<Item>)
    ensures AllTrue(Against(x, s))
  {
    if s != [] {
      AgainstTrue(x, s[..|s| - 1]);
    }
  }

  /** Behind the sweep line, reaching beyond the next start is the same as colliding with it. */
  lemma {:induction false} ReachingCollides(s: seq<Item>, x: Item)
    requires NonEmpty(x) && AllBehind(s, x)
    ensures Against(x, Reaching(s, x.start)) == Against(x, s)
    ensures AllCollide(Reaching(s, x.start), x)
  {
    if s != [] {
      var t, y := s[..|s| - 1], s[|s| - 1];
      BehindPrefix(s, x);
      ReachingCollides(t, x);
      if y.end > x.start {
        AgainstAppend(x, Reaching(t, x.start), y);
      }
    }
  }

  lemma BehindPrefix(s: seq<Item>, x: Item)
    requires s != [] && AllBehind(s, x)
    ensures AllBehind(s[..|s| - 1], x) && Behind(s[|s| - 1], x)
  {
    var t := s[..|s| - 1];
    forall i | 0 <= i < |t| ensures Behind(t[i], x) {
      assert t[i] == s[i];
    }
  }

  predicate AllCollide(s: seq<Item>, x: Item) {
    forall i | 0 <= i < |s| :: Collide(s[i], x)
  }

  /** Every report names two ranges that do collide. */
  predicate AllTrue(errors: seq<Report>) {
    forall i | 0 <= i < |errors| :: Collide(errors[i].first, errors[i].second)
  }

  predicate Behind(y: Item, x: Item) {
    NonEmpty(y) && y.kind == x.kind && y.start <= x.start
  }

  predicate AllBehind(s: seq<Item>, x: Item) {
    forall i | 0 <= i < |s| :: Behind(s[i], x)
  }

  /** Drop the ranges that the sweep line has passed. */
  method Prune(active: seq<Item>, at: int) returns (kept: seq<Item>)
    ensures kept == Reaching(active, at)
  {
    kept := [];
    for i := 0 to |active|
      invariant kept == Reaching(active[..i], at)
    {
      assert active[..i + 1][..i] == active[..i];
      if active[i].end > at {
        kept := kept + [active[i]];
      }
    }
    assert active[..|active|] == active;
  }

  /** Report the current range against every active one. */
  method ReportAgainst(active: seq<Item>, current: Item, errors: seq<Report>) returns (grown: seq<Report>)
    requires AllCollide(active, current)
    ensures grown == errors + Against(current, active)
  {
    grown := errors;
    assert active[..0] == [];
    for i := 0 to |active|
      invariant grown == errors + Against(current, active[..i])
    {
      assert active[..i + 1] == active[..i] + [active[i]];
      AgainstAppend(current, active[..i], active[i]);
      if current.start < active[i].end {
        grown := grown + [Report(active[i], current)];
      }
    }
    assert active[..|active|] == active;
  }

  /** The active list of the sweep before the `j`-th range. */
  function ActiveAt(ordered: seq<Item>, j: nat): seq<Item>
    requires j <= |ordered|
  {
    if j == 0 then [] else Reaching(ordered[..j - 1], ordered[j - 1].start) + [ordered[j - 1]]
  }

  /** One kind's ranges, as the sweep needs them. */
  ghost predicate Sweepable(ordered: seq<Item>) {
    && SortedBy(ordered, KeyLe)
    && (forall i | 0 <= i < |ordered| :: NonEmpty(ordered[i]))
    && (forall i, j | 0 <= i < j < |ordered| :: ordered[i].kind == ordered[j].kind)
  }

  lemma NextActive(ordered: seq<Item>, j: nat)
    requires j < |ordered|
    ensures ActiveAt(ordered, j + 1) == Reaching(ordered[..j], ordered[j].start) + [ordered[j]]
    ensures PairsInOrder(ordered[..j + 1]) == PairsInOrder(ordered[..j]) + Against(ordered[j], ordered[..j])
  {
    assert ordered[..j + 1] == ordered[..j] + [ordered[j]];
    PairsInOrderAppend(ordered[..j], ordered[j]);
  }

  lemma ReportsOn(a: seq<Report>, b: seq<Report>, c: seq<Report>)
    ensures (a + b) + c == a + (b + c)
  {
  }

  /** The sweep over the sorted ranges of one kind reports every colliding pair at its later range. */
  method SweepKind(ordered: seq<Item>, errors: seq<Report>) returns (grown: seq<Report>)
    requires Sweepable(ordered)
    ensures grown == errors + PairsInOrder(ordered)
  {
    grown := errors;
    var active: seq<Item> := [];
    assert ordered[..0] == [];
    for j := 0 to |ordered|
      invariant grown == errors + PairsInOrder(ordered[..j])
      invariant active == ActiveAt(ordered, j)
    {
      var current := ordered[j];
      active := Prune(active, current.start);
      SweepLine(ordered, j);
      grown := ReportAgainst(active, current, grown);
      active := active + [current];
      NextActive(ordered, j);
      ReportsOn(errors, PairsInOrder(ordered[..j]), Against(current, ordered[..j]));
    }
    assert ordered[..|ordered|] == ordered;
  }

  /**
   * Pruning the active list leaves what reaches beyond the new start among all
   * earlier ranges, and that is everything the new range collides with.
   */
  lemma SweepLine(ordered: seq<Item>, j: nat)
    requires j < |ordered| && Sweepable(ordered)
    ensures var at := ordered[j].start;
      && Reaching(ActiveAt(ordered, j), at) == Reaching(ordered[..j], at)
      && Against(ordered[j], Reaching(ordered[..j], at)) == Against(ordered[j], ordered[..j])
      && AllCollide(Reaching(ordered[..j], at), ordered[j])
  {
    var at := ordered[j].start;
    if j > 0 {
      assert KeyLe(ordered[j - 1], ordered[j]);
      ReachingTwice(ordered[..j - 1], ordered[j - 1].start, at);
      ReachingAppend(Reaching(ordered[..j - 1], ordered[j - 1].start), ordered[j - 1], at);
      ReachingAppend(ordered[..j - 1], ordered[j - 1], at);
      assert ordered[..j] == ordered[..j - 1] + [ordered[j - 1]];
    }
    forall i | 0 <= i < j ensures Behind(ordered[..j][i], ordered[j]) {
      assert KeyLe(ordered[i], ordered[j]);
    }
    ReachingCollides(ordered[..j], ordered[j]);
  }

  // ---- the whole fleet ----------------------------------------------------------------------

  /** The ranges that each host reported, in one list. */
  function FleetRanges(byHost: seq<seq<Item>>): seq<Item> {
    if byHost == [] then []
    else FleetRanges(byHost[..|byHost| - 1]) + byHost[|byHost| - 1]
  }

  method Flatten(byHost: seq<seq<Item>>) returns (all: seq<Item>)
    ensures all == FleetRanges(byHost)
  {
    all := [];
    for i := 0 to |byHost|
      invariant all == FleetRanges(byHost[..i])
    {
      assert byHost[..i + 1][..i] == byHost[..i];
      all := all + byHost[i];
    }
    assert byHost[..|byHost|] == byHost;
  }

  /**
   * `idmap_overlap_errors`: the reports are exactly the colliding pairs of the
   * whole fleet, each once, so there is none exactly when all ranges of a kind
   * are pairwise disjoint.
   */
  method IdmapOverlapErrors(byHost: seq<seq<Item>>) returns (errors: seq<Report>)
    requires forall x | x in FleetRanges(byHost) :: NonEmpty(x)
    ensures Unordered(errors) == AllPairs(FleetRanges(byHost))
    ensures AllTrue(errors)
    ensures errors == [] <==> PairwiseClear(FleetRanges(byHost))
  {
    var all := Flatten(byHost);
    ghost var uid, gid: seq<Report>;
    errors, uid := SweepSorted(all, UidRange, []);
    assert errors == uid;
    errors, gid := SweepSorted(all, GidRange, errors);
    BothKinds(all, uid, gid);
  }

  /** The reports of both kinds together are the reference of the whole fleet. */
  lemma BothKinds(all: seq<Item>, uid: seq<Report>, gid: seq<Report>)
    requires Unordered(uid) == AllPairs(OfKind(all, UidRange)) && AllTrue(uid)
    requires Unordered(gid) == AllPairs(OfKind(all, GidRange)) && AllTrue(gid)
    ensures Unordered(uid + gid) == AllPairs(all) && AllTrue(uid + gid)
    ensures uid + gid == [] <==> PairwiseClear(all)
  {
    UnorderedConcat(uid, gid);
    PairsByKind(all);
    AllPairsExactly(all);
    NoReports(uid + gid);
  }

  /** Sort one kind's ranges and sweep them. */
  method SweepSorted(all: seq<Item>, kind: Kind, errors: seq<Report>)
      returns (grown: seq<Report>, ghost more: seq<Report>)
    requires forall x | x in all :: NonEmpty(x)
    ensures grown == errors + more && Unordered(more) == AllPairs(OfKind(all, kind)) && AllTrue(more)
  {
    var ordered := Sort(OfKind(all, kind), KeyLe);
    OfKindMembers(all, kind);
    forall i | 0 <= i < |ordered| ensures ordered[i] in OfKind(all, kind) {
      assert ordered[i] in multiset(ordered);
    }
    grown := SweepKind(ordered, errors);
    more := PairsInOrder(ordered);
    PairsUnordered(ordered);
    PairsReordered(ordered, OfKind(all, kind));
  }

  lemma NoReports(errors: seq<Report>)
    ensures Unordered(errors) == multiset{} <==> errors == []
  {
    assert |Unordered(errors)| == |errors|;
  }
}
