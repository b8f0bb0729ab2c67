/** The abstract value of one measure's linked list: the sequence of its
    nodes, each a pitch with its repeat count, in list order. `Append` is
    what `LinkedList.append` does to that value; `Build` is the value after
    appending a sequence of pitches to a fresh list. The lemmas relate
    `Build` to an independent description: the distinct input pitches in
    first-occurrence order, each counted with its multiplicity. */
module PitchCounts {

  datatype Entry = Entry(pitch: int, count: int)

  /** Some node carries `p`. */
  ghost predicate Contains(es: seq<Entry>, p: int) {
    exists k :: 0 <= k < |es| && es[k].pitch == p
  }

  /** No two nodes carry the same pitch. */
  predicate Unique(es: seq<Entry>) {
    forall a, b :: 0 <= a < b < |es| ==> es[a].pitch != es[b].pitch
  }

  /** Every count is at least one. */
  predicate Positive(es: seq<Entry>) {
    forall k :: 0 <= k < |es| ==> es[k].count >= 1
  }

  /** The sum of the counts. */
  function Total(es: seq<Entry>): int {
    if es == [] then 0 else Total(es[..|es| - 1]) + es[|es| - 1].count
  }

  /** The position the traversal of `append` stops at: the first node carrying
      `p`, or `|es|` when there is none. */
  function IndexOf(es: seq<Entry>, p: int): (i: nat)
    ensures i <= |es|
    ensures i < |es| ==> es[i].pitch == p
    ensures forall k :: 0 <= k < i ==> es[k].pitch != p
    ensures i == |es| <==> !Contains(es, p)
  {
    if es == [] then 0
    else if es[0].pitch == p then 0
    else
      var i := 1 + IndexOf(es[1..], p);
      assert forall k :: 1 <= k < |es| ==> es[k] == es[1..][k - 1];
      i
  }

  /** The effect of `append(p)`: the first node carrying `p` counts one more,
      or, when no node carries `p`, a node with count one goes at the tail. */
  function Append(es: seq<Entry>, p: int): (r: seq<Entry>)
    ensures Unique(es) ==> Unique(r)
    ensures Positive(es) ==> Positive(r)
  {
    var i := IndexOf(es, p);
    if i < |es| then es[i := Entry(p, es[i].count + 1)] else es + [Entry(p, 1)]
  }

  /** The list after appending `ps`, in order, to an empty list. */
  function Build(ps: seq<int>): seq<Entry> {
    if ps == [] then [] else Append(Build(ps[..|ps| - 1]), ps[|ps| - 1])
  }

  lemma BuildSnoc(ps: seq<int>, p: int)
    ensures Build(ps + [p]) == Append(Build(ps), p)
  {
    assert (ps + [p])[..|ps|] == ps;
  }

  /** The position of the first occurrence of `x` in `ps`. */
  function FirstIndex(ps: seq<int>, x: int): (i: nat)
    requires x in ps
    ensures i < |ps| && ps[i] == x && x !in ps[..i]
  {
    if ps[0] == x then 0
    else
      var i := 1 + FirstIndex(ps[1..], x);
      assert ps[..i] == [ps[0]] + ps[1..][..i - 1];
      i
  }

  // ---- single append ---------------------------------------------------

  /** Appending to an empty list gives one node holding the pitch with count one. */
  lemma AppendToEmpty(p: int)
    ensures Append([], p) == [Entry(p, 1)]
  {
  }

  /** Appending a pitch already present increments that node's count by one;
      the length, the order and every other node are unchanged. */
  lemma AppendExisting(es: seq<Entry>, p: int)
    requires Contains(es, p)
    ensures var r := Append(es, p); var i := IndexOf(es, p);
      && i < |es|
      && |r| == |es|
      && r[i].pitch == es[i].pitch == p
      && r[i].count == es[i].count + 1
      && forall k :: 0 <= k < |es| && k != i ==> r[k] == es[k]
  {
  }

  /** Appending a pitch not present adds one node with count one after all
      existing nodes, which are unchanged. */
  lemma AppendNew(es: seq<Entry>, p: int)
    requires !Contains(es, p)
    ensures var r := Append(es, p);
      && |r| == |es| + 1
      && r[..|es|] == es
      && r[|es|] == Entry(p, 1)
  {
  }

  lemma {:induction false} TotalUpdate(es: seq<Entry>, i: nat, e: Entry)
    requires i < |es|
    ensures Total(es[i := e]) == Total(es) - es[i].count + e.count
    decreases |es|
  {
    var n := |es| - 1;
    if i < n {
      TotalUpdate(es[..n], i, e);
      assert es[i := e][..n] == es[..n][i := e];
    } else {
      assert es[i := e][..n] == es[..n];
    }
  }

  /** Each append adds exactly one to the total count. */
  lemma AppendTotal(es: seq<Entry>, p: int)
    ensures Total(Append(es, p)) == Total(es) + 1
  {
    var i := IndexOf(es, p);
    if i < |es| {
      TotalUpdate(es, i, Entry(p, es[i].count + 1));
    } else {
      assert (es + [Entry(p, 1)])[..|es|] == es;
    }
  }

  /** Appending keeps the set of pitches of the list, plus `p`. */
  lemma AppendContains(es: seq<Entry>, p: int, x: int)
    ensures Contains(Append(es, p), x) <==> Contains(es, x) || x == p
  {
    var r := Append(es, p);
    var i := IndexOf(es, p);
    if Contains(es, x) {
      var k :| 0 <= k < |es| && es[k].pitch == x;
      assert r[k].pitch == x;
    }
    if x == p {
      if i < |es| { assert r[i].pitch == p; } else { assert r[|es|].pitch == p; }
    }
    if Contains(r, x) {
      var k :| 0 <= k < |r| && r[k].pitch == x;
      if k < |es| { assert es[k].pitch == x || x == p; }
    }
  }

  // ---- appending a whole measure ------------------------------------------

  /** The list built from any pitch sequence keeps the invariants: unique pitches, counts at least one. */
  lemma {:induction false} BuildWellFormed(ps: seq<int>)
    ensures Unique(Build(ps)) && Positive(Build(ps))
    decreases |ps|
  {
    if ps != [] {
      BuildWellFormed(ps[..|ps| - 1]);
    }
  }

  /** A pitch has a node exactly when it occurs in the input. */
  lemma {:induction false} BuildMembers(ps: seq<int>, x: int)
    ensures Contains(Build(ps), x) <==> x in ps
    decreases |ps|
  {
    if ps != [] {
      var n := |ps| - 1;
      BuildMembers(ps[..n], x);
      AppendContains(Build(ps[..n]), ps[n], x);
      assert x in ps <==> x in ps[..n] || x == ps[n] by {
        assert ps == ps[..n] + [ps[n]];
      }
    }
  }

  /** Each node's count is the number of occurrences of its pitch in the input. */
  lemma {:induction false} BuildCounts(ps: seq<int>)
    ensures forall k :: 0 <= k < |Build(ps)| ==> Build(ps)[k].count == multiset(ps)[Build(ps)[k].pitch]
    decreases |ps|
  {
    if ps != [] {
      var n := |ps| - 1;
      var pre, y := ps[..n], ps[n];
      var es := Build(pre);
      BuildCounts(pre);
      BuildWellFormed(pre);
      assert ps == pre + [y];
      assert multiset(ps) == multiset(pre) + multiset{y};
      var i := IndexOf(es, y);
      if i == |es| {
        BuildMembers(pre, y);
        assert multiset(pre)[y] == 0;
      }
    }
  }

  /** The counts add up to the number of pitches appended. */
  lemma {:induction false} BuildTotal(ps: seq<int>)
    ensures Total(Build(ps)) == |ps|
    decreases |ps|
  {
    if ps != [] {
      BuildTotal(ps[..|ps| - 1]);
      AppendTotal(Build(ps[..|ps| - 1]), ps[|ps| - 1]);
    }
  }

  /** The last pitch adds a node exactly when it is new. */
  lemma BuildLastLength(ps: seq<int>)
    requires ps != []
    ensures var n := |ps| - 1; |Build(ps)| == |Build(ps[..n])| + if ps[n] in ps[..n] then 0 else 1
  {
    var n := |ps| - 1;
    BuildMembers(ps[..n], ps[n]);
  }

  lemma DistinctLast(ps: seq<int>)
    requires ps != []
    ensures var n := |ps| - 1; (set x | x in ps) == (set x | x in ps[..n]) + {ps[n]}
  {
    var n := |ps| - 1;
    assert ps == ps[..n] + [ps[n]];
  }

  /** There are as many nodes as distinct pitches in the input. */
  lemma {:induction false} BuildSize(ps: seq<int>)
    ensures |Build(ps)| == |set x | x in ps|
    decreases |ps|
  {
    if ps != [] {
      var n := |ps| - 1;
      BuildSize(ps[..n]);
      BuildLastLength(ps);
      DistinctLast(ps);
      var before := set x | x in ps[..n];
      if ps[n] in ps[..n] {
        assert ps[n] in before;
        assert before + {ps[n]} == before;
      } else {
        assert ps[n] !in before;
        assert |before + {ps[n]}| == |before| + 1;
      }
    }
  }

  lemma FirstIndexPrefix(ps: seq<int>, y: int, x: int)
    requires x in ps
    ensures x in ps + [y] && FirstIndex(ps + [y], x) == FirstIndex(ps, x)
  {
    var i, q := FirstIndex(ps, x), ps + [y];
    assert q[i] == x && q[..i] == ps[..i];
  }

  /** The pitches of `es` occur in `ps`, and in the order of their first occurrences there. */
  ghost predicate InFirstOccurrenceOrder(es: seq<Entry>, ps: seq<int>) {
    && (forall k :: 0 <= k < |es| ==> es[k].pitch in ps)
    && (forall a, b :: 0 <= a < b < |es| ==> FirstIndex(ps, es[a].pitch) < FirstIndex(ps, es[b].pitch))
  }

  lemma AppendKeepsOrder(es: seq<Entry>, ps: seq<int>, y: int)
    requires InFirstOccurrenceOrder(es, ps)
    requires Contains(es, y) <==> y in ps
    ensures InFirstOccurrenceOrder(Append(es, y), ps + [y])
  {
    var r, qs := Append(es, y), ps + [y];
    forall k | 0 <= k < |es| ensures r[k].pitch == es[k].pitch && FirstIndex(qs, r[k].pitch) == FirstIndex(ps, es[k].pitch) {
      FirstIndexPrefix(ps, y, es[k].pitch);
    }
    if |r| > |es| {
      assert y !in ps;
      assert FirstIndex(qs, y) == |ps| by {
        assert qs[..|ps|] == ps;
      }
      assert r[|es|].pitch == y;
    }
  }

  /** Nodes appear in the order of their pitches' first occurrences in the input. */
  lemma {:induction false} BuildOrder(ps: seq<int>)
    ensures InFirstOccurrenceOrder(Build(ps), ps)
    decreases |ps|
  {
    if ps != [] {
      var n := |ps| - 1;
      var pre, y := ps[..n], ps[n];
      BuildOrder(pre);
      BuildMembers(pre, y);
      assert ps == pre + [y];
      AppendKeepsOrder(Build(pre), pre, y);
    }
  }

  /** The first three pitches of the example measure: 36 repeats, 38 is new. */
  lemma BuildExampleStart()
    ensures Build([36] + [38] + [36]) == [Entry(36, 2), Entry(38, 1)]
  {
    var p1 := [36];
    var p2 := p1 + [38];
    assert Build(p1) == [Entry(36, 1)] by { BuildSnoc([], 36); }
    assert Build(p2) == [Entry(36, 1), Entry(38, 1)] by { BuildSnoc(p1, 38); }
    BuildSnoc(p2, 36);
    assert IndexOf(Build(p2), 36) == 0;
  }

  /** The pitches 36, 38, 36, 42, 38, 38 give three nodes: 36 twice, 38 three times, 42 once. */
  lemma BuildExample()
    ensures Build([36, 38, 36, 42, 38, 38]) == [Entry(36, 2), Entry(38, 3), Entry(42, 1)]
  {
    var p3 := [36] + [38] + [36];
    var p4 := p3 + [42];
    var p5 := p4 + [38];
    var p6 := p5 + [38];
    BuildExampleStart();
    assert Build(p4) == [Entry(36, 2), Entry(38, 1), Entry(42, 1)] by { BuildSnoc(p3, 42); }
    assert Build(p5) == [Entry(36, 2), Entry(38, 2), Entry(42, 1)] by {
      BuildSnoc(p4, 38);
      assert Build(p4)[0].pitch != 38 && Build(p4)[1].pitch == 38;
      assert IndexOf(Build(p4), 38) == 1;
    }
    assert Build(p6) == [Entry(36, 2), Entry(38, 3), Entry(42, 1)] by {
      BuildSnoc(p5, 38);
      assert Build(p5)[0].pitch != 38 && Build(p5)[1].pitch == 38;
      assert IndexOf(Build(p5), 38) == 1;
    }
    assert p6 == [36, 38, 36, 42, 38, 38];
  }
}
