/**
 * Step 3 of analyzeStateMachine: getPathLength, a memoised depth-first walk
 * that gives every node the length of a longest path of transitions it starts,
 * skipping transitions into the initial node. The memo is the pathlength field
 * of the nodes: -1 means not visited, 0 means in progress (the guard against
 * cycles), and a positive value is final.
 */
module PathLength {
  import opened Graph

  /** Every stored transition ends at a node of the graph. */
  ghost predicate EdgesIn(edges: seq<seq<TransitionInfo>>) {
    forall h, j :: 0 <= h < |edges| && 0 <= j < |edges[h]| ==> edges[h][j].target < |edges|
  }

  /** The nodes the walk has not reached yet. */
  function Unvisited(memo: seq<int>): set<nat> {
    set i: nat | i < |memo| && memo[i] < 0
  }

  /**
   * What a walk does to the memo: a value already written stays, and an
   * unvisited node either stays unvisited or gets a final, positive value.
   */
  ghost predicate Settles(memo: seq<int>, memo': seq<int>) {
    && |memo'| == |memo|
    && forall i :: 0 <= i < |memo| ==>
         (memo[i] >= 0 ==> memo'[i] == memo[i]) && (memo[i] < 0 ==> memo'[i] == memo[i] || memo'[i] >= 1)
  }

  /**
   * Every value of 2 or more is one more than the value at the target of an
   * eligible transition of that node (one that does not enter the initial node).
   */
  ghost predicate Chain(edges: seq<seq<TransitionInfo>>, init: nat, memo: seq<int>)
    requires EdgesIn(edges) && |memo| == |edges|
  {
    forall i :: 0 <= i < |memo| && memo[i] >= 2 ==> HasWitness(edges, init, memo, i, memo[i] - 1)
  }

  /** Node i has an eligible transition whose target holds v. */
  ghost predicate HasWitness(edges: seq<seq<TransitionInfo>>, init: nat, memo: seq<int>, i: nat, v: int)
    requires EdgesIn(edges) && |memo| == |edges| && i < |edges|
  {
    exists j :: 0 <= j < |edges[i]| && edges[i][j].target != init && memo[edges[i][j].target] == v
  }

  lemma SettlesShrinks(memo: seq<int>, memo': seq<int>)
    requires Settles(memo, memo')
    ensures Unvisited(memo') <= Unvisited(memo)
    ensures |Unvisited(memo')| <= |Unvisited(memo)|
  {
    SubsetCard(Unvisited(memo'), Unvisited(memo));
  }

  lemma SubsetCard<U>(a: set<U>, b: set<U>)
    requires a <= b
    ensures |a| <= |b|
  {
    assert b == a + (b - a);
  }

  lemma SettlesTransitive(m0: seq<int>, m1: seq<int>, m2: seq<int>)
    requires Settles(m0, m1) && Settles(m1, m2)
    ensures Settles(m0, m2)
  {
  }

  /** A walk from a node marked in progress, then finished with v, settles the memo it started from. */
  lemma SettlesAround(memo: seq<int>, memo': seq<int>, h: nat, v: int)
    requires h < |memo| && memo[h] < 0 && v >= 1
    requires Settles(memo[h := 0], memo')
    ensures Settles(memo, memo'[h := v])
  {
    forall i | 0 <= i < |memo| && i != h ensures memo[h := 0][i] == memo[i] {
    }
  }

  /** Marking an unvisited node as in progress keeps the chain. */
  lemma ChainMark(edges: seq<seq<TransitionInfo>>, init: nat, memo: seq<int>, h: nat)
    requires EdgesIn(edges) && |memo| == |edges| && h < |memo| && memo[h] < 0
    ensures Chain(edges, init, memo) ==> Chain(edges, init, memo[h := 0])
  {
    var memo' := memo[h := 0];
    forall i | Chain(edges, init, memo) && 0 <= i < |memo'| && memo'[i] >= 2 ensures HasWitness(edges, init, memo', i, memo'[i] - 1) {
      var j :| 0 <= j < |edges[i]| && edges[i][j].target != init && memo[edges[i][j].target] == memo[i] - 1;
      assert memo'[edges[i][j].target] == memo[edges[i][j].target];
    }
  }

  /** Finishing an in-progress node with a witnessed value keeps the chain. */
  lemma ChainFinish(edges: seq<seq<TransitionInfo>>, init: nat, memo: seq<int>, h: nat, v: int)
    requires EdgesIn(edges) && |memo| == |edges| && h < |memo| && memo[h] == 0 && v >= 1
    requires v >= 2 ==> HasWitness(edges, init, memo, h, v - 1)
    ensures Chain(edges, init, memo) ==> Chain(edges, init, memo[h := v])
  {
    var memo' := memo[h := v];
    forall i | Chain(edges, init, memo) && 0 <= i < |memo'| && memo'[i] >= 2 ensures HasWitness(edges, init, memo', i, memo'[i] - 1) {
      var j :| 0 <= j < |edges[i]| && edges[i][j].target != init && memo[edges[i][j].target] == memo'[i] - 1;
      assert memo'[edges[i][j].target] == memo[edges[i][j].target];
    }
  }

  /**
   * getPathLength(h) on a memo: returns the value the memo then holds for h,
   * together with the memo after the walk.
   */
  function PathLengthOf(edges: seq<seq<TransitionInfo>>, init: nat, memo: seq<int>, h: nat): (r: (int, seq<int>))
    requires EdgesIn(edges) && |memo| == |edges| && h < |memo|
    ensures |r.1| == |memo| && r.0 == r.1[h] && r.0 >= 0
    ensures memo[h] >= 0 ==> r == (memo[h], memo)
    ensures memo[h] < 0 ==> r.0 >= 1
    ensures memo[h] < 0 ==> forall j :: 0 <= j < |edges[h]| && edges[h][j].target != init && edges[h][j].target != h ==>
      0 <= r.1[edges[h][j].target] < r.0
    ensures Settles(memo, r.1)
    ensures Chain(edges, init, memo) ==> Chain(edges, init, r.1)
    decreases |Unvisited(memo)|, 0
  {
    if memo[h] >= 0 then (memo[h], memo)
    else
      var memo1 := memo[h := 0];
      assert Unvisited(memo1) == Unvisited(memo) - {h};
      var w := WalkSuccessors(edges, init, memo1, edges[h], 0);
      var memo2 := w.1[h := w.0 + 1];
      SettlesAround(memo, w.1, h, w.0 + 1);
      ChainMark(edges, init, memo, h);
      ChainFinish(edges, init, w.1, h, w.0 + 1);
      (w.0 + 1, memo2)
  }

  /**
   * The loop of getPathLength over the transitions es of a node: each
   * transition not into the initial node is walked, and length becomes the
   * larger of itself and the value returned.
   */
  function WalkSuccessors(edges: seq<seq<TransitionInfo>>, init: nat, memo: seq<int>, es: seq<TransitionInfo>, length: int): (r: (int, seq<int>))
    requires EdgesIn(edges) && |memo| == |edges| && length >= 0
    requires forall j :: 0 <= j < |es| ==> es[j].target < |edges|
    ensures |r.1| == |memo| && r.0 >= length
    ensures r.0 == length || exists j :: 0 <= j < |es| && es[j].target != init && r.1[es[j].target] == r.0
    ensures forall j :: 0 <= j < |es| && es[j].target != init ==> 0 <= r.1[es[j].target] <= r.0
    ensures Settles(memo, r.1)
    ensures Chain(edges, init, memo) ==> Chain(edges, init, r.1)
    decreases |Unvisited(memo)|, 1, |es|
  {
    if es == [] then (length, memo)
    else if es[0].target == init then
      var w := WalkSuccessors(edges, init, memo, es[1..], length);
      assert forall j :: 0 <= j < |es[1..]| ==> es[1..][j] == es[j + 1];
      w
    else
      var p := PathLengthOf(edges, init, memo, es[0].target);
      SettlesShrinks(memo, p.1);
      var w := WalkSuccessors(edges, init, p.1, es[1..], if p.0 > length then p.0 else length);
      SettlesTransitive(memo, p.1, w.1);
      assert forall j :: 0 <= j < |es[1..]| ==> es[1..][j] == es[j + 1];
      assert w.0 == p.0 && p.0 > length ==> w.1[es[0].target] == w.0;
      w
  }

  /**
   * getPathLength: the recursive walk, writing into the shared memo array.
   * It does what PathLengthOf says, from the memo it finds.
   */
  method GetPathLength(edges: seq<seq<TransitionInfo>>, init: nat, pathlength: array<int>, h: nat) returns (r: int)
    requires EdgesIn(edges) && pathlength.Length == |edges| && h < |edges|
    modifies pathlength
    ensures (r, pathlength[..]) == PathLengthOf(edges, init, old(pathlength[..]), h)
    decreases |Unvisited(pathlength[..])|
  {
    ghost var memo0 := pathlength[..];
    if pathlength[h] < 0 {
      pathlength[h] := 0;
      ghost var memo1 := pathlength[..];
      assert memo1 == memo0[h := 0];
      assert Unvisited(memo1) == Unvisited(memo0) - {h};
      var es := edges[h];
      var length := 0;
      var i := 0;
      while i < |es|
        invariant 0 <= i <= |es| && length >= 0
        invariant |Unvisited(pathlength[..])| <= |Unvisited(memo1)|
        invariant WalkSuccessors(edges, init, pathlength[..], es[i..], length) == WalkSuccessors(edges, init, memo1, es, 0)
      {
        var t := es[i];
        assert es[i..][0] == t && es[i..][1..] == es[i + 1..];
        if t.target != init {
          ghost var before := pathlength[..];
          var l := GetPathLength(edges, init, pathlength, t.target);
          SettlesShrinks(before, pathlength[..]);
          length := if l > length then l else length;
        }
        i := i + 1;
      }
      pathlength[h] := length + 1;
    }
    r := pathlength[h];
  }

  /** The memo before any walk: every node unvisited. */
  function Unwalked(n: nat): (memo: seq<int>)
    ensures |memo| == n && forall i :: 0 <= i < n ==> memo[i] == -1
  {
    seq(n, _ => -1)
  }

  /**
   * The loop over the declared nodes after the walk from the initial node:
   * nodes 0 to k-1, in order, each walked if the memo still has it unvisited.
   */
  function FillFrom(edges: seq<seq<TransitionInfo>>, init: nat, memo: seq<int>, k: nat): (r: seq<int>)
    requires EdgesIn(edges) && |memo| == |edges| && k <= |memo|
    ensures Settles(memo, r)
    ensures forall i :: 0 <= i < k && memo[i] != 0 ==> r[i] >= 1
    ensures Chain(edges, init, memo) ==> Chain(edges, init, r)
    decreases k
  {
    if k == 0 then memo
    else
      var m := FillFrom(edges, init, memo, k - 1);
      if m[k - 1] < 0 then
        var r := PathLengthOf(edges, init, m, k - 1).1;
        SettlesTransitive(memo, m, r);
        r
      else m
  }

  /** The path lengths the analysis computes: the initial node first, then every node still unvisited. */
  function PathLengths(edges: seq<seq<TransitionInfo>>, init: nat): (r: seq<int>)
    requires EdgesIn(edges) && init < |edges|
    ensures |r| == |edges|
    ensures forall i :: 0 <= i < |r| ==> r[i] >= 1
  {
    var start := PathLengthOf(edges, init, Unwalked(|edges|), init).1;
    FillFrom(edges, init, start, |edges|)
  }

  /** Every value of 2 or more is one more than the value of an eligible successor. */
  lemma PathLengthsChain(edges: seq<seq<TransitionInfo>>, init: nat)
    requires EdgesIn(edges) && init < |edges|
    ensures Chain(edges, init, PathLengths(edges, init))
  {
    var start := PathLengthOf(edges, init, Unwalked(|edges|), init).1;
    assert Chain(edges, init, Unwalked(|edges|));
    assert FillFrom(edges, init, start, |edges|) == PathLengths(edges, init);
  }

  /**
   * Step 3 of analyzeStateMachine: getPathLength on the initial node, then on
   * every node whose pathlength is still negative, in declaration order.
   */
  method ComputePathLengths(edges: seq<seq<TransitionInfo>>, init: nat) returns (pl: seq<int>)
    requires EdgesIn(edges) && init < |edges|
    ensures pl == PathLengths(edges, init)
  {
    var pathlength := new int[|edges|](_ => -1);
    assert pathlength[..] == Unwalked(|edges|);
    var _ := GetPathLength(edges, init, pathlength, init);
    WalkRemaining(edges, init, pathlength);
    pl := pathlength[..];
  }

  /** One more turn of the loop: node k is walked if it is still unvisited. */
  lemma FillFromNext(edges: seq<seq<TransitionInfo>>, init: nat, memo: seq<int>, k: nat)
    requires EdgesIn(edges) && |memo| == |edges| && k < |memo|
    ensures var prev := FillFrom(edges, init, memo, k);
      FillFrom(edges, init, memo, k + 1) == if prev[k] < 0 then PathLengthOf(edges, init, prev, k).1 else prev
  {
  }

  /** The loop over the declared nodes that walks each one still unvisited. */
  method WalkRemaining(edges: seq<seq<TransitionInfo>>, init: nat, pathlength: array<int>)
    requires EdgesIn(edges) && pathlength.Length == |edges|
    modifies pathlength
    ensures pathlength[..] == FillFrom(edges, init, old(pathlength[..]), |edges|)
  {
    ghost var start := pathlength[..];
    var k := 0;
    while k < |edges|
      invariant 0 <= k <= |edges|
      invariant pathlength[..] == FillFrom(edges, init, start, k)
    {
      FillFromNext(edges, init, start, k);
      WalkIfUnvisited(edges, init, pathlength, k);
      k := k + 1;
    }
  }

  /** One turn of that loop: getPathLength on node k if its pathlength is still negative. */
  method WalkIfUnvisited(edges: seq<seq<TransitionInfo>>, init: nat, pathlength: array<int>, k: nat)
    requires EdgesIn(edges) && pathlength.Length == |edges| && k < |edges|
    modifies pathlength
    ensures pathlength[..] == if old(pathlength[k]) < 0 then PathLengthOf(edges, init, old(pathlength[..]), k).1 else old(pathlength[..])
  {
    if pathlength[k] < 0 {
      var _ := GetPathLength(edges, init, pathlength, k);
    }
  }

  /** A node whose every transition enters the initial node, or that has none, gets exactly 1. */
  lemma LeafLength(edges: seq<seq<TransitionInfo>>, init: nat, h: nat)
    requires EdgesIn(edges) && init < |edges| && h < |edges|
    requires forall j :: 0 <= j < |edges[h]| ==> edges[h][j].target == init
    ensures PathLengths(edges, init)[h] == 1
  {
    PathLengthsChain(edges, init);
  }

  /** A node with value 2 or more has a transition, not into the initial node, to a node with one less. */
  lemma LongerThroughSuccessor(edges: seq<seq<TransitionInfo>>, init: nat, h: nat)
    requires EdgesIn(edges) && init < |edges| && h < |edges|
    requires PathLengths(edges, init)[h] >= 2
    ensures exists j ::
      && 0 <= j < |edges[h]| && edges[h][j].target != init
      && PathLengths(edges, init)[edges[h][j].target] == PathLengths(edges, init)[h] - 1
  {
    var pl := PathLengths(edges, init);
    PathLengthsChain(edges, init);
    assert HasWitness(edges, init, pl, h, pl[h] - 1);
  }

  /** The nodes whose value lies between 1 and v. */
  function Below(memo: seq<int>, v: int): set<nat> {
    set i: nat | i < |memo| && 1 <= memo[i] <= v
  }

  lemma {:induction false} BelowCard(memo: seq<int>, v: int)
    ensures |Below(memo, v)| <= |memo|
  {
    if memo != [] {
      var pre := memo[..|memo| - 1];
      var last: nat := |memo| - 1;
      BelowCard(pre, v);
      assert Below(memo, v) <= Below(pre, v) + {last} by {
        forall i | i in Below(memo, v) ensures i in Below(pre, v) + {last} {
          if i < last {
            assert pre[i] == memo[i];
          }
        }
      }
      SubsetCard(Below(memo, v), Below(pre, v) + {last});
    }
  }

  /** Along the chain every value from 1 up to memo[h] is held by some node, so at least v nodes lie below v. */
  lemma {:induction false} ChainBelow(edges: seq<seq<TransitionInfo>>, init: nat, memo: seq<int>, h: nat, v: int)
    requires EdgesIn(edges) && |memo| == |edges| && Chain(edges, init, memo)
    requires forall i :: 0 <= i < |memo| ==> memo[i] >= 1
    requires h < |memo| && 0 <= v <= memo[h]
    ensures |Below(memo, v)| >= v
    decreases v
  {
    if v > 0 {
      var g := Holder(edges, init, memo, h, v);
      ChainBelow(edges, init, memo, h, v - 1);
      assert Below(memo, v - 1) + {g} <= Below(memo, v);
      SubsetCard(Below(memo, v - 1) + {g}, Below(memo, v));
    }
  }

  /** A node holding v, found by following the chain down from h. */
  lemma {:induction false} Holder(edges: seq<seq<TransitionInfo>>, init: nat, memo: seq<int>, h: nat, v: int) returns (g: nat)
    requires EdgesIn(edges) && |memo| == |edges| && Chain(edges, init, memo)
    requires h < |memo| && 1 <= v <= memo[h]
    ensures g < |memo| && memo[g] == v
    decreases memo[h] - v
  {
    if v == memo[h] {
      g := h;
    } else {
      assert HasWitness(edges, init, memo, h, memo[h] - 1);
      var j :| 0 <= j < |edges[h]| && edges[h][j].target != init && memo[edges[h][j].target] == memo[h] - 1;
      g := Holder(edges, init, memo, edges[h][j].target, v);
    }
  }

  /**
   * No path length exceeds the number of nodes: the value is the length of a
   * path through distinct nodes, so the int field cannot overflow.
   */
  lemma PathLengthBound(edges: seq<seq<TransitionInfo>>, init: nat, h: nat)
    requires EdgesIn(edges) && init < |edges| && h < |edges|
    ensures 1 <= PathLengths(edges, init)[h] <= |edges|
  {
    var pl := PathLengths(edges, init);
    PathLengthsChain(edges, init);
    ChainBelow(edges, init, pl, h, pl[h]);
    BelowCard(pl, pl[h]);
  }
}
