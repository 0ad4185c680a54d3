/** Maximum bipartite matching by augmenting paths (gmock's MaxBipartiteMatchState). */
module BipartiteMatching {

  // matched[i][j]: element i (left) satisfies matcher j (right).
  datatype MatchMatrix = MatchMatrix(lhs: nat, rhs: nat, matched: seq<seq<bool>>) {
    ghost predicate Valid() {
      |matched| == lhs && forall i :: 0 <= i < lhs ==> |matched[i]| == rhs
    }

    predicate HasEdge(i: int, j: int)
      requires Valid() && 0 <= i < lhs && 0 <= j < rhs
    {
      matched[i][j]
    }
  }

  type Pair = (nat, nat)

  const UNUSED: int := -1

  // A list of edges without common ends.
  ghost predicate IsMatching(g: MatchMatrix, ps: seq<Pair>)
    requires g.Valid()
  {
    && (forall i :: 0 <= i < |ps| ==> ps[i].0 < g.lhs && ps[i].1 < g.rhs && g.HasEdge(ps[i].0, ps[i].1))
    && (forall i, j :: 0 <= i < j < |ps| ==> ps[i].0 != ps[j].0 && ps[i].1 != ps[j].1)
  }

  // ---------- the state of the search

  // left and right give the current matching, each entry UNUSED or mutually referent, where the entry of
  // right at `stale` is left out of account.
  ghost predicate MutualBut(g: MatchMatrix, left: seq<int>, right: seq<int>, stale: int)
    requires g.Valid()
  {
    && |left| == g.lhs && |right| == g.rhs
    && (forall l :: 0 <= l < g.lhs && left[l] != UNUSED ==>
          0 <= left[l] < g.rhs && left[l] != stale && right[left[l]] == l && g.HasEdge(l, left[l]))
    && (forall r :: 0 <= r < g.rhs && r != stale && right[r] != UNUSED ==>
          0 <= right[r] < g.lhs && left[right[r]] == r)
  }

  ghost predicate Mutual(g: MatchMatrix, left: seq<int>, right: seq<int>)
    requires g.Valid()
  {
    MutualBut(g, left, right, UNUSED)
  }

  // A dead region: every neighbour of dl is in dr, and every node of dr is matched into dl.
  ghost predicate Closed(g: MatchMatrix, right: seq<int>, dl: set<int>, dr: set<int>)
    requires g.Valid() && |right| == g.rhs
  {
    && (forall l :: l in dl ==> 0 <= l < g.lhs)
    && (forall r :: r in dr ==> 0 <= r < g.rhs && right[r] in dl)
    && (forall l, r :: l in dl && 0 <= r < g.rhs && g.HasEdge(l, r) ==> r in dr)
  }

  ghost function Unseen(seen: seq<bool>): set<int> {
    set r | 0 <= r < |seen| && !seen[r]
  }

  ghost function Marked(seen: seq<bool>): set<int> {
    set r | 0 <= r < |seen| && seen[r]
  }

  ghost function Mates(right: seq<int>, rs: set<int>): set<int> {
    set r | r in rs && 0 <= r < |right| :: right[r]
  }

  ghost predicate Grew(seen: seq<bool>, seen': seq<bool>) {
    |seen| == |seen'| && forall r :: 0 <= r < |seen| && seen[r] ==> seen'[r]
  }

  // Every neighbour of l has been seen.
  ghost predicate Exhausted(g: MatchMatrix, l: int, seen: seq<bool>)
    requires g.Valid() && |seen| == g.rhs
  {
    0 <= l < g.lhs && forall r :: 0 <= r < g.rhs && g.HasEdge(l, r) ==> seen[r]
  }

  // What a failed search leaves: the right nodes it has marked are all in use, by left nodes that lead
  // to marked nodes only.
  ghost predicate DeadEnds(g: MatchMatrix, right: seq<int>, seen: seq<bool>, seen': seq<bool>)
    requires g.Valid() && |right| == |seen| == |seen'| == g.rhs
  {
    forall r :: 0 <= r < g.rhs && !seen[r] && seen'[r] ==> Exhausted(g, right[r], seen')
  }

  // What a successful search from l does: l is matched anew, every other left node stays matched or
  // unmatched, and nothing hanging on the nodes seen before moves.
  ghost predicate Augmented(left: seq<int>, right: seq<int>, left': seq<int>, right': seq<int>, l: int,
      seen: seq<bool>)
  {
    && |left| == |left'| && |right| == |right'| == |seen| && 0 <= l < |left|
    && left'[l] != UNUSED
    && (forall x :: 0 <= x < |left| && x != l ==> (left[x] == UNUSED <==> left'[x] == UNUSED))
    && (forall x :: 0 <= x < |left| && x != l && 0 <= left[x] < |seen| && seen[left[x]] ==> left'[x] == left[x])
    && (forall r :: 0 <= r < |seen| && seen[r] ==> right'[r] == right[r])
  }

  // An edge from l to r along which the search may go on: r has not been seen.
  ghost predicate Frontier(g: MatchMatrix, left: seq<int>, right: seq<int>, seen: seq<bool>, l: int, r: int)
    requires g.Valid()
  {
    && Mutual(g, left, right) && |seen| == g.rhs && 0 <= l < g.lhs && 0 <= r < g.rhs
    && g.HasEdge(l, r) && !seen[r]
    && (left[l] != UNUSED ==> seen[left[l]])
  }

  /** Linking l to an unused right node. */
  lemma LinkUnused(g: MatchMatrix, left: seq<int>, right: seq<int>, seen: seq<bool>, l: int, r: int,
                   dl: set<int>, dr: set<int>)
    requires g.Valid() && Frontier(g, left, right, seen, l, r) && right[r] == UNUSED && Closed(g, right, dl, dr)
    ensures var left', right' := left[l := r], right[r := l];
            && MutualBut(g, left', right', left[l]) && Augmented(left, right, left', right', l, seen)
            && Closed(g, right', dl, dr) && l !in dl
  {
  }

  /** Linking l to a right node whose former mate has found another one. */
  lemma LinkFreed(g: MatchMatrix, left: seq<int>, right: seq<int>, seen: seq<bool>, l: int, r: int,
                  left1: seq<int>, right1: seq<int>, dl: set<int>, dr: set<int>)
    requires g.Valid() && Frontier(g, left, right, seen, l, r) && right[r] != UNUSED && Closed(g, right, dl, dr)
    requires MutualBut(g, left1, right1, r)
    requires Augmented(left, right, left1, right1, right[r], seen[r := true])
    requires Closed(g, right1, dl, dr) && right[r] !in dl
    ensures var left', right' := left1[l := r], right1[r := l];
            && MutualBut(g, left', right', left[l]) && Augmented(left, right, left', right', l, seen)
            && Closed(g, right', dl, dr) && l !in dl
  {
    var m := right[r];
    assert left[m] == r && m != l;
    assert left1[l] == left[l] && right1[r] == m;
  }

  /** A dead end below r makes r itself one. */
  lemma DeadEndBelow(g: MatchMatrix, right: seq<int>, seen0: seq<bool>, seen: seq<bool>, r: int, seen': seq<bool>)
    requires g.Valid() && |right| == |seen0| == |seen| == |seen'| == g.rhs && 0 <= r < g.rhs
    requires DeadEnds(g, right, seen0, seen) && Grew(seen[r := true], seen')
    requires DeadEnds(g, right, seen[r := true], seen') && Exhausted(g, right[r], seen')
    ensures DeadEnds(g, right, seen0, seen')
  {
  }

  lemma NothingNew(g: MatchMatrix, right: seq<int>, seen: seq<bool>)
    requires g.Valid() && |right| == |seen| == g.rhs
    ensures Grew(seen, seen) && DeadEnds(g, right, seen, seen)
  {
  }

  lemma GrewKeeps(g: MatchMatrix, left: seq<int>, right: seq<int>, l: int, seen0: seq<bool>, seen: seq<bool>)
    requires g.Valid() && Mutual(g, left, right) && 0 <= l < g.lhs && |seen0| == g.rhs && Grew(seen0, seen)
    requires left[l] != UNUSED ==> 0 <= left[l] < g.rhs && seen0[left[l]]
    ensures left[l] != UNUSED ==> seen[left[l]]
  {
  }

  lemma MateInRange(g: MatchMatrix, left: seq<int>, right: seq<int>, l: int)
    requires g.Valid() && Mutual(g, left, right) && 0 <= l < g.lhs
    ensures left[l] != UNUSED ==> 0 <= left[l] < g.rhs
  {
  }

  lemma UnseenShrinks(seen0: seq<bool>, before: seq<bool>, r: int)
    requires Grew(seen0, before) && 0 <= r < |before| && !before[r]
    ensures Unseen(before[r := true]) < Unseen(seen0) && Grew(before[r := true], before[r := true])
  {
    assert r in Unseen(seen0) && r !in Unseen(before[r := true]);
  }

  lemma GrewFurther(seen0: seq<bool>, before: seq<bool>, r: int, seen: seq<bool>)
    requires Grew(seen0, before) && 0 <= r < |before| && Grew(before[r := true], seen)
    ensures Grew(seen0, seen) && seen[r] && forall x :: 0 <= x < |before| && before[x] ==> seen[x]
  {
  }

  lemma MateOk(g: MatchMatrix, left: seq<int>, right: seq<int>, r: int)
    requires g.Valid() && Mutual(g, left, right) && 0 <= r < g.rhs && right[r] != UNUSED
    ensures 0 <= right[r] < g.lhs && left[right[r]] == r
  {
  }

  lemma AugmentedBefore(left: seq<int>, right: seq<int>, left': seq<int>, right': seq<int>, l: int,
                        seen0: seq<bool>, seen: seq<bool>)
    requires Grew(seen0, seen) && Augmented(left, right, left', right', l, seen)
    ensures Augmented(left, right, left', right', l, seen0)
  {
  }

  lemma AllTried(g: MatchMatrix, l: int, seen: seq<bool>)
    requires g.Valid() && 0 <= l < g.lhs && |seen| == g.rhs
    requires forall r :: 0 <= r < g.rhs && g.HasEdge(l, r) ==> seen[r]
    ensures Exhausted(g, l, seen)
  {
  }

  class MaxBipartiteMatchState {
    const graph: MatchMatrix
    const left: array<int>
    const right: array<int>

    ghost predicate Shaped() {
      graph.Valid() && left.Length == graph.lhs && right.Length == graph.rhs && left != right
    }

    constructor (g: MatchMatrix)
      requires g.Valid()
      ensures Shaped() && graph == g && fresh(left) && fresh(right)
      ensures forall l :: 0 <= l < g.lhs ==> left[l] == UNUSED
      ensures forall r :: 0 <= r < g.rhs ==> right[r] == UNUSED
    {
      graph := g;
      left := new int[g.lhs](_ => UNUSED);
      right := new int[g.rhs](_ => UNUSED);
    }

    /** Depth-first search from a left node for an unused right node. The search through a dead region
        fails; a search that succeeds leaves dead regions alone. */
    method TryAugment(ilhs: nat, seen: array<bool>, ghost dl: set<int>, ghost dr: set<int>) returns (found: bool)
      requires Shaped() && seen.Length == graph.rhs && ilhs < graph.lhs
      requires Mutual(graph, left[..], right[..]) && Closed(graph, right[..], dl, dr)
      requires left[ilhs] != UNUSED ==> seen[left[ilhs]]
      modifies left, right, seen
      decreases Unseen(seen[..])
      ensures Grew(old(seen[..]), seen[..])
      ensures !found ==>
                && left[..] == old(left[..]) && right[..] == old(right[..])
                && Exhausted(graph, ilhs, seen[..]) && DeadEnds(graph, right[..], old(seen[..]), seen[..])
      ensures found ==>
                && MutualBut(graph, left[..], right[..], old(left[ilhs]))
                && Augmented(old(left[..]), old(right[..]), left[..], right[..], ilhs, old(seen[..]))
                && Closed(graph, right[..], dl, dr) && ilhs !in dl
    {
      hide MutualBut, Closed, Augmented, Exhausted, DeadEnds, Grew, Unseen;
      ghost var left0, right0, seen0 := left[..], right[..], seen[..];
      NothingNew(graph, right0, seen0);
      MateInRange(graph, left0, right0, ilhs);
      var irhs := 0;
      while irhs < graph.rhs
        invariant 0 <= irhs <= graph.rhs
        invariant left[..] == left0 && right[..] == right0
        invariant Grew(seen0, seen[..])
        invariant forall r :: 0 <= r < irhs && graph.HasEdge(ilhs, r) ==> seen[r]
        invariant DeadEnds(graph, right0, seen0, seen[..])
      {
        if !seen[irhs] && graph.HasEdge(ilhs, irhs) {
          ghost var before := seen[..];
          GrewKeeps(graph, left0, right0, ilhs, seen0, before);
          UnseenShrinks(seen0, before, irhs);
          seen[irhs] := true;
          assert seen[..] == before[irhs := true];
          var open := right[irhs] == UNUSED;
          if open {
            LinkUnused(graph, left0, right0, before, ilhs, irhs, dl, dr);
          } else {
            MateOk(graph, left0, right0, irhs);
            open := TryAugment(right[irhs], seen, dl, dr);
            if open {
              LinkFreed(graph, left0, right0, before, ilhs, irhs, left[..], right[..], dl, dr);
            } else {
              DeadEndBelow(graph, right0, seen0, before, irhs, seen[..]);
            }
          }
          GrewFurther(seen0, before, irhs, seen[..]);
          if open {
            ghost var left1, right1 := left[..], right[..];
            left[ilhs] := irhs;
            right[irhs] := ilhs;
            assert left[..] == left1[ilhs := irhs] && right[..] == right1[irhs := ilhs];
            AugmentedBefore(left0, right0, left[..], right[..], ilhs, seen0, before);
            return true;
          }
        }
        irhs := irhs + 1;
      }
      AllTried(graph, ilhs, seen[..]);
      return false;
    }

    /** The edges of a maximum matching: no matching of the graph has more edges, although every left
        node is searched from only once. */
    method Compute() returns (result: seq<Pair>)
      requires Shaped()
      requires (forall l :: 0 <= l < graph.lhs ==> left[l] == UNUSED)
               && (forall r :: 0 <= r < graph.rhs ==> right[r] == UNUSED)
      modifies left, right
      ensures IsMatching(graph, result)
      ensures forall other :: IsMatching(graph, other) ==> |other| <= |result|
    {
      hide Augmented, Closed, Exhausted, DeadEnds, IsMatching;
      ghost var dl: set<int>, dr: set<int> := {}, {};
      EmptyRegion(graph, right[..]);
      for ilhs := 0 to graph.lhs
        invariant Mutual(graph, left[..], right[..]) && Closed(graph, right[..], dl, dr)
        invariant forall l :: 0 <= l < ilhs && left[l] == UNUSED ==> l in dl
        invariant forall l :: ilhs <= l < graph.lhs ==> left[l] == UNUSED
      {
        assert left[ilhs] == UNUSED;
        var seen := new bool[graph.rhs](_ => false);
        ghost var left0, right0, seen0 := left[..], right[..], seen[..];
        var found := TryAugment(ilhs, seen, dl, dr);
        if found {
          StillUnused(left0, right0, left[..], right[..], ilhs, seen0);
        } else {
          MoreDead(graph, left[..], right[..], ilhs, seen0, seen[..], dl, dr);
          ghost var marked := Marked(seen[..]);
          dl, dr := dl + {ilhs} + Mates(right0, marked), dr + marked;
        }
      }
      result := [];
      for ilhs := 0 to left.Length
        invariant result == PairsOf(left[..ilhs])
      {
        assert left[..ilhs + 1] == left[..ilhs] + [left[ilhs]];
        if left[ilhs] != UNUSED {
          result := result + [(ilhs, left[ilhs])];
        }
      }
      assert left[..] == left[..left.Length];
      PairsAreMatching(graph, left[..], right[..]);
      forall other | IsMatching(graph, other)
        ensures |other| <= |result|
      {
        NoLargerMatching(graph, left[..], right[..], dl, dr, other);
      }
    }
  }

  lemma EmptyRegion(g: MatchMatrix, right: seq<int>)
    requires g.Valid() && |right| == g.rhs
    ensures Closed(g, right, {}, {})
  {
  }

  lemma StillUnused(left: seq<int>, right: seq<int>, left': seq<int>, right': seq<int>, l: int, seen: seq<bool>)
    requires Augmented(left, right, left', right', l, seen)
    ensures left'[l] != UNUSED
    ensures forall x :: 0 <= x < |left| && x != l ==> (left[x] == UNUSED <==> left'[x] == UNUSED)
  {
  }

  /** What a failed search has explored joins the dead region. */
  lemma MoreDead(g: MatchMatrix, left: seq<int>, right: seq<int>, l: int, seen0: seq<bool>, seen: seq<bool>,
                 dl: set<int>, dr: set<int>)
    requires g.Valid() && |right| == |seen0| == |seen| == g.rhs && Closed(g, right, dl, dr)
    requires (forall r :: 0 <= r < g.rhs ==> !seen0[r]) && Exhausted(g, l, seen) && DeadEnds(g, right, seen0, seen)
    ensures Closed(g, right, dl + {l} + Mates(right, Marked(seen)), dr + Marked(seen))
  {
  }

  // The pairs a left vector stands for, in order.
  ghost function PairsOf(left: seq<int>): (ps: seq<Pair>)
    requires forall l :: 0 <= l < |left| ==> left[l] == UNUSED || left[l] >= 0
    ensures forall i :: 0 <= i < |ps| ==> ps[i].0 < |left| && left[ps[i].0] == ps[i].1
    ensures forall l :: 0 <= l < |left| && left[l] != UNUSED ==> (l, left[l]) in ps
    ensures forall i, j :: 0 <= i < j < |ps| ==> ps[i].0 < ps[j].0
  {
    if left == [] then []
    else
      var n := |left| - 1;
      if left[n] == UNUSED then PairsOf(left[..n])
      else
        var init := PairsOf(left[..n]);
        assert forall l :: 0 <= l < n && left[l] != UNUSED ==> (l, left[l]) in init + [(n, left[n])];
        assert (init + [(n, left[n])])[|init|] == (n, left[n]);
        init + [(n, left[n])]
  }

  lemma PairsAreMatching(g: MatchMatrix, left: seq<int>, right: seq<int>)
    requires g.Valid() && Mutual(g, left, right)
    ensures IsMatching(g, PairsOf(left))
  {
    var ps := PairsOf(left);
    forall i, j | 0 <= i < j < |ps|
      ensures ps[i].0 != ps[j].0 && ps[i].1 != ps[j].1
    {
      assert right[ps[i].1] == ps[i].0 && right[ps[j].1] == ps[j].0;
    }
  }

  // ---------- a vertex cover as large as the matching

  ghost function LeftsOutside(ps: seq<Pair>, dl: set<int>): set<int> {
    set i | 0 <= i < |ps| && ps[i].0 !in dl :: ps[i].0 as int
  }

  ghost function RightsInside(ps: seq<Pair>, dl: set<int>): set<int> {
    set i | 0 <= i < |ps| && ps[i].0 in dl :: ps[i].1 as int
  }

  /** Each edge of a matching is counted once, by its left end outside dl or by its right end. */
  lemma {:induction false} CountEdges(g: MatchMatrix, ps: seq<Pair>, dl: set<int>)
    requires g.Valid() && IsMatching(g, ps)
    ensures |ps| == |LeftsOutside(ps, dl)| + |RightsInside(ps, dl)|
  {
    hide LeftsOutside, RightsInside, IsMatching;
    if ps == [] {
      NoEnds(dl);
    } else {
      var n := |ps| - 1;
      var init, e := ps[..n], ps[n];
      assert ps == init + [e];
      InitMatches(g, ps);
      CountEdges(g, init, dl);
      EndsSnoc(init, e, dl);
      EndsNew(g, ps, dl);
    }
  }

  lemma NoEnds(dl: set<int>)
    ensures LeftsOutside([], dl) == {} && RightsInside([], dl) == {}
  {
  }

  lemma InitMatches(g: MatchMatrix, ps: seq<Pair>)
    requires g.Valid() && IsMatching(g, ps) && ps != []
    ensures IsMatching(g, ps[..|ps| - 1])
  {
  }

  // The ends of the last edge of a matching are not those of an earlier one.
  lemma EndsNew(g: MatchMatrix, ps: seq<Pair>, dl: set<int>)
    requires g.Valid() && IsMatching(g, ps) && ps != []
    ensures var init, e := ps[..|ps| - 1], ps[|ps| - 1];
            e.0 !in LeftsOutside(init, dl) && e.1 !in RightsInside(init, dl)
  {
    var init := ps[..|ps| - 1];
    assert forall i :: 0 <= i < |init| ==> init[i] == ps[i];
  }

  lemma EndsSnoc(ps: seq<Pair>, e: Pair, dl: set<int>)
    ensures LeftsOutside(ps + [e], dl) == LeftsOutside(ps, dl) + if e.0 in dl then {} else {e.0 as int}
    ensures RightsInside(ps + [e], dl) == RightsInside(ps, dl) + if e.0 in dl then {e.1 as int} else {}
  {
    var qs := ps + [e];
    assert forall i :: 0 <= i < |ps| ==> qs[i] == ps[i];
    assert qs[|ps|] == e;
  }

  lemma SubsetSize(a: set<int>, b: set<int>)
    requires a <= b
    ensures |a| <= |b|
  {
    assert b == a + (b - a);
  }

  /** The dead right nodes and the live left nodes touch every edge, and the matching at hand has an edge
      for each of them; so no matching is larger. */
  lemma NoLargerMatching(g: MatchMatrix, left: seq<int>, right: seq<int>, dl: set<int>, dr: set<int>, other: seq<Pair>)
    requires g.Valid() && Mutual(g, left, right) && Closed(g, right, dl, dr)
    requires forall l :: 0 <= l < g.lhs && left[l] == UNUSED ==> l in dl
    requires IsMatching(g, other)
    ensures |other| <= |PairsOf(left)|
  {
    var ps := PairsOf(left);
    PairsAreMatching(g, left, right);
    CountEdges(g, ps, dl);
    CountEdges(g, other, dl);
    forall x | x in LeftsOutside(other, dl)
      ensures x in LeftsOutside(ps, dl)
    {
      var p: Pair := (x, left[x]);
      assert p in ps;
    }
    forall y | y in RightsInside(other, dl)
      ensures y in RightsInside(ps, dl)
    {
      assert y in dr;
      var p: Pair := (right[y], y);
      assert p in ps;
    }
    SubsetSize(LeftsOutside(other, dl), LeftsOutside(ps, dl));
    SubsetSize(RightsInside(other, dl), RightsInside(ps, dl));
  }

  method FindMaxBipartiteMatching(g: MatchMatrix) returns (result: seq<Pair>)
    requires g.Valid()
    ensures IsMatching(g, result)
    ensures forall other :: IsMatching(g, other) ==> |other| <= |result|
  {
    var state := new MaxBipartiteMatchState(g);
    result := state.Compute();
  }

  // ---------- pairing every matcher

  // An element for each matcher, no element twice.
  ghost predicate IsAssignment(g: MatchMatrix, a: seq<nat>)
    requires g.Valid()
  {
    && |a| == g.rhs
    && (forall j :: 0 <= j < g.rhs ==> a[j] < g.lhs && g.HasEdge(a[j], j))
    && (forall i, j :: 0 <= i < j < g.rhs ==> a[i] != a[j])
  }

  ghost function Rights(ps: seq<Pair>): set<int> { set i | 0 <= i < |ps| :: ps[i].1 as int }

  ghost function Below(n: nat): (s: set<int>)
    ensures |s| == n && forall x :: x in s <==> 0 <= x < n
  {
    if n == 0 then {} else Below(n - 1) + {n - 1}
  }

  lemma RightsSize(g: MatchMatrix, ps: seq<Pair>)
    requires g.Valid() && IsMatching(g, ps)
    ensures |Rights(ps)| == |ps| && Rights(ps) <= Below(g.rhs) && |ps| <= g.rhs
  {
    var all := Below(g.lhs);
    CountEdges(g, ps, all);
    assert LeftsOutside(ps, all) == {};
    assert RightsInside(ps, all) == Rights(ps);
    SubsetSize(Rights(ps), Below(g.rhs));
  }

  lemma FullSubset(a: set<int>, b: set<int>)
    requires a <= b && |a| == |b|
    ensures a == b
  {
    assert b == a + (b - a);
  }

  lemma {:induction false} AssignmentFromMatching(ps: seq<Pair>, n: nat) returns (a: seq<nat>)
    requires forall j :: 0 <= j < n ==> j in Rights(ps)
    ensures |a| == n && forall j :: 0 <= j < n ==> (a[j], j) in ps
  {
    a := [];
    if n > 0 {
      a := AssignmentFromMatching(ps, n - 1);
      assert n - 1 in Rights(ps);
      var i :| 0 <= i < |ps| && ps[i].1 == n - 1;
      assert ps[i] == (ps[i].0, n - 1);
      a := a + [ps[i].0];
    }
  }

  /** A matching with as many edges as there are matchers is an assignment of elements to all of them. */
  lemma FullMatchingAssigns(g: MatchMatrix, ps: seq<Pair>)
    requires g.Valid() && IsMatching(g, ps) && |ps| == g.rhs
    ensures exists a :: IsAssignment(g, a)
  {
    RightsSize(g, ps);
    FullSubset(Rights(ps), Below(g.rhs));
    var a := AssignmentFromMatching(ps, g.rhs);
    assert IsAssignment(g, a);
  }

  lemma AssignmentMatches(g: MatchMatrix, a: seq<nat>) returns (ps: seq<Pair>)
    requires g.Valid() && IsAssignment(g, a)
    ensures IsMatching(g, ps) && |ps| == g.rhs
  {
    ps := seq(g.rhs, j requires 0 <= j < g.rhs => (a[j], j));
  }

  /** The elements can be paired with the matchers if and only if every matcher can be given an element of
      its own. */
  method FindPairing(matrix: MatchMatrix) returns (result: bool)
    requires matrix.Valid()
    ensures result <==> exists a :: IsAssignment(matrix, a)
  {
    var matches := FindMaxBipartiteMatching(matrix);
    var maxFlow := |matches|;
    result := maxFlow == matrix.rhs;
    if result {
      FullMatchingAssigns(matrix, matches);
    }
    if exists a :: IsAssignment(matrix, a) {
      AssignmentFills(matrix, matches);
    }
  }

  lemma AssignmentFills(g: MatchMatrix, matches: seq<Pair>)
    requires g.Valid() && IsMatching(g, matches) && exists a :: IsAssignment(g, a)
    requires forall other :: IsMatching(g, other) ==> |other| <= |matches|
    ensures |matches| == g.rhs
  {
    RightsSize(g, matches);
    var a :| IsAssignment(g, a);
    var ps := AssignmentMatches(g, a);
  }
}
