/** How a drained queue is cut into chunks: by assigned node in key order, then by size. */
module Chunks {
  import opened Types

  datatype Group = Group(node: Id, trades: seq<Match>)

  /** Appends a trade to its node's group, groups being kept in ascending node order. */
  function PushTo(gs: seq<Group>, m: Match): seq<Group> {
    if gs == [] || m.assignedNode < gs[0].node then [Group(m.assignedNode, [m])] + gs
    else if m.assignedNode == gs[0].node then [Group(gs[0].node, gs[0].trades + [m])] + gs[1..]
    else [gs[0]] + PushTo(gs[1..], m)
  }

  function GroupByNode(trades: seq<Match>): seq<Group> {
    if trades == [] then [] else PushTo(GroupByNode(trades[..|trades| - 1]), trades[|trades| - 1])
  }

  function Cut(trades: seq<Match>, k: nat): seq<seq<Match>>
    requires k > 0
    decreases |trades|
  {
    if trades == [] then []
    else
      var n := Min(k, |trades|);
      [trades[..n]] + Cut(trades[n..], k)
  }

  function CutAll(gs: seq<Group>, k: nat): seq<seq<Match>>
    requires k > 0
  {
    if gs == [] then [] else Cut(gs[0].trades, k) + CutAll(gs[1..], k)
  }

  /** The chunks of a drained queue. */
  function ChunksOf(trades: seq<Match>, k: nat): seq<seq<Match>>
    requires k > 0
  {
    CutAll(GroupByNode(trades), k)
  }

  function Concat<T>(ss: seq<seq<T>>): seq<T> {
    if ss == [] then [] else ss[0] + Concat(ss[1..])
  }

  lemma {:induction false} ConcatAppend<T>(a: seq<seq<T>>, b: seq<seq<T>>)
    ensures Concat(a + b) == Concat(a) + Concat(b)
  {
    if a == [] {
      assert a + b == b;
    } else {
      var x, tail := a[0], a[1..];
      assert (a + b)[0] == x && (a + b)[1..] == tail + b;
      ConcatAppend(tail, b);
      ConcatAssociates(x, Concat(tail), Concat(b));
    }
  }

  // ---- Chunks are well shaped ----

  /** Nonempty, at most `k` long, all for one node. */
  ghost predicate ChunkOk(c: seq<Match>, k: nat) {
    0 < |c| <= k && forall i :: 0 <= i < |c| ==> c[i].assignedNode == c[0].assignedNode
  }

  ghost predicate ChunksOk(cs: seq<seq<Match>>, k: nat) {
    forall i :: 0 <= i < |cs| ==> ChunkOk(cs[i], k)
  }

  ghost predicate OneNode(trades: seq<Match>, node: Id) {
    forall i :: 0 <= i < |trades| ==> trades[i].assignedNode == node
  }

  lemma {:induction false} CutIsOk(trades: seq<Match>, k: nat, node: Id)
    requires k > 0 && OneNode(trades, node)
    ensures ChunksOk(Cut(trades, k), k) && Concat(Cut(trades, k)) == trades
    decreases |trades|
  {
    if trades != [] {
      var n := Min(k, |trades|);
      var head, tail := trades[..n], trades[n..];
      CutIsOk(tail, k, node);
      assert ChunkOk(head, k);
      var rest := Cut(tail, k);
      assert ([head] + rest)[1..] == rest;
      assert head + tail == trades;
    }
  }

  ghost predicate GroupsOk(gs: seq<Group>) {
    && (forall i :: 0 <= i < |gs| ==> OneNode(gs[i].trades, gs[i].node))
    && (forall i, j :: 0 <= i < j < |gs| ==> gs[i].node < gs[j].node)
  }

  lemma GroupsCons(g: Group, gs: seq<Group>)
    requires GroupsOk(gs) && OneNode(g.trades, g.node)
    requires gs == [] || g.node < gs[0].node
    ensures GroupsOk([g] + gs)
  {
    var all := [g] + gs;
    forall i, j | 0 <= i < j < |all| ensures all[i].node < all[j].node {
      if i == 0 && j > 1 { assert gs[0].node < gs[j - 1].node; }
    }
  }

  lemma {:induction false} PushKeepsGroups(gs: seq<Group>, m: Match)
    requires GroupsOk(gs)
    ensures GroupsOk(PushTo(gs, m)) && PushTo(gs, m) != []
    ensures gs != [] ==> PushTo(gs, m)[0].node == (if m.assignedNode < gs[0].node then m.assignedNode else gs[0].node)
    ensures gs == [] ==> PushTo(gs, m)[0].node == m.assignedNode
  {
    if gs == [] || m.assignedNode < gs[0].node {
      GroupsCons(Group(m.assignedNode, [m]), gs);
    } else if m.assignedNode == gs[0].node {
      GroupsCons(Group(gs[0].node, gs[0].trades + [m]), gs[1..]);
    } else {
      PushKeepsGroups(gs[1..], m);
      GroupsCons(gs[0], PushTo(gs[1..], m));
    }
  }

  lemma {:induction false} GroupingIsOk(trades: seq<Match>)
    ensures GroupsOk(GroupByNode(trades))
  {
    if trades != [] {
      GroupingIsOk(trades[..|trades| - 1]);
      PushKeepsGroups(GroupByNode(trades[..|trades| - 1]), trades[|trades| - 1]);
    }
  }

  lemma {:induction false} CutAllIsOk(gs: seq<Group>, k: nat)
    requires k > 0 && GroupsOk(gs)
    ensures ChunksOk(CutAll(gs, k), k) && Concat(CutAll(gs, k)) == Members(gs)
  {
    if gs != [] {
      CutIsOk(gs[0].trades, k, gs[0].node);
      CutAllIsOk(gs[1..], k);
      ConcatAppend(Cut(gs[0].trades, k), CutAll(gs[1..], k));
    }
  }

  function Members(gs: seq<Group>): seq<Match> {
    if gs == [] then [] else gs[0].trades + Members(gs[1..])
  }

  // ---- Chunks partition the queue and keep each node's order ----

  function ForNode(trades: seq<Match>, node: Id): seq<Match> {
    if trades == [] then []
    else
      ForNode(trades[..|trades| - 1], node)
      + (if trades[|trades| - 1].assignedNode == node then [trades[|trades| - 1]] else [])
  }

  lemma {:induction false} ForNodeConcat(a: seq<Match>, b: seq<Match>, node: Id)
    ensures ForNode(a + b, node) == ForNode(a, node) + ForNode(b, node)
  {
    if b == [] {
      assert a + b == a;
    } else {
      var init, m := b[..|b| - 1], b[|b| - 1];
      assert (a + b)[..|a + b| - 1] == a + init && (a + b)[|a + b| - 1] == m;
      ForNodeConcat(a, init, node);
      ConcatAssociates(ForNode(a, node), ForNode(init, node), if m.assignedNode == node then [m] else []);
    }
  }

  lemma {:induction false} ForOneNode(trades: seq<Match>, own: Id, node: Id)
    requires OneNode(trades, own)
    ensures ForNode(trades, node) == if own == node then trades else []
  {
    if trades != [] {
      ForOneNode(trades[..|trades| - 1], own, node);
    }
  }

  lemma MembersCons(g: Group, gs: seq<Group>)
    ensures Members([g] + gs) == g.trades + Members(gs)
  {
    assert ([g] + gs)[1..] == gs;
  }

  lemma {:induction false} NodeAbsent(gs: seq<Group>, node: Id)
    requires GroupsOk(gs) && (gs == [] || node < gs[0].node)
    ensures ForNode(Members(gs), node) == []
  {
    if gs != [] {
      NodeAbsent(gs[1..], node);
      ForNodeConcat(gs[0].trades, Members(gs[1..]), node);
      ForOneNode(gs[0].trades, gs[0].node, node);
    }
  }

  /** Pushing a trade appends it to its node's trades and to nothing else. */
  lemma {:induction false} PushMembers(gs: seq<Group>, m: Match, node: Id)
    requires GroupsOk(gs)
    ensures ForNode(Members(PushTo(gs, m)), node)
            == ForNode(Members(gs), node) + (if m.assignedNode == node then [m] else [])
    ensures multiset(Members(PushTo(gs, m))) == multiset(Members(gs)) + multiset{m}
  {
    hide ForNode, Members;
    if gs == [] || m.assignedNode < gs[0].node {
      MembersCons(Group(m.assignedNode, [m]), gs);
      PushFirst([m], Members(gs), m, node);
      if m.assignedNode == node { NodeAbsent(gs, node); }
    } else {
      var g, tail := gs[0], gs[1..];
      assert gs == [g] + tail;
      GroupsTail(gs);
      assert OneNode(gs[0].trades, gs[0].node);
      MembersCons(g, tail);
      ForNodeConcat(g.trades, Members(tail), node);
      if m.assignedNode == g.node {
        PushAppend(g, tail, m, node);
      } else {
        PushMembers(tail, m, node);
        MembersCons(g, PushTo(tail, m));
        ForNodeConcat(g.trades, Members(PushTo(tail, m)), node);
        ConcatAssociates(ForNode(g.trades, node), ForNode(Members(tail), node),
            if m.assignedNode == node then [m] else []);
      }
    }
  }

  lemma PushFirst(head: seq<Match>, rest: seq<Match>, m: Match, node: Id)
    requires head == [m]
    ensures ForNode(head + rest, node) == (if m.assignedNode == node then [m] else []) + ForNode(rest, node)
  {
    ForNodeConcat(head, rest, node);
    ForOneNode(head, m.assignedNode, node);
  }

  lemma PushAppend(g: Group, tail: seq<Group>, m: Match, node: Id)
    requires GroupsOk(tail) && OneNode(g.trades, g.node) && (tail == [] || g.node < tail[0].node)
    requires m.assignedNode == g.node
    ensures var pushed := [Group(g.node, g.trades + [m])] + tail;
            && ForNode(Members(pushed), node)
               == ForNode(g.trades + Members(tail), node) + (if m.assignedNode == node then [m] else [])
            && multiset(Members(pushed)) == multiset(g.trades + Members(tail)) + multiset{m}
  {
    hide ForNode, Members, GroupsOk;
    MembersCons(Group(g.node, g.trades + [m]), tail);
    PushAppendNode(g.trades, m, Members(tail), g.node, node) by {
      if node == g.node { NodeAbsent(tail, node); }
    }
  }

  lemma PushAppendNode(own: seq<Match>, m: Match, rest: seq<Match>, home: Id, node: Id)
    requires OneNode(own, home) && m.assignedNode == home
    requires node == home ==> ForNode(rest, node) == []
    ensures ForNode((own + [m]) + rest, node)
            == ForNode(own + rest, node) + (if m.assignedNode == node then [m] else [])
  {
    ForOneNode(own + [m], home, node);
    ForOneNode(own, home, node);
    hide ForNode;
    ForNodeConcat(own + [m], rest, node);
    ForNodeConcat(own, rest, node);
  }

  lemma GroupsTail(gs: seq<Group>)
    requires GroupsOk(gs) && gs != []
    ensures GroupsOk(gs[1..]) && (|gs| > 1 ==> gs[0].node < gs[1].node)
  {
  }

  lemma {:induction false} GroupingKeepsTrades(trades: seq<Match>, node: Id)
    ensures ForNode(Members(GroupByNode(trades)), node) == ForNode(trades, node)
    ensures multiset(Members(GroupByNode(trades))) == multiset(trades)
  {
    if trades != [] {
      var init, m := trades[..|trades| - 1], trades[|trades| - 1];
      assert trades == init + [m];
      assert ForNode(trades, node) == ForNode(init, node) + (if m.assignedNode == node then [m] else []);
      assert GroupByNode(trades) == PushTo(GroupByNode(init), m);
      GroupingKeepsTrades(init, node);
      GroupingIsOk(init);
      hide ForNode, Members, GroupByNode, PushTo, GroupsOk;
      PushMembers(GroupByNode(init), m, node);
    }
  }

  /** The chunks of a queue: each nonempty, within size and for one node; together a permutation of
      the queue that keeps the order of every node's trades. */
  lemma ChunksPartition(trades: seq<Match>, k: nat, node: Id)
    requires k > 0
    ensures ChunksOk(ChunksOf(trades, k), k)
    ensures multiset(Concat(ChunksOf(trades, k))) == multiset(trades)
    ensures ForNode(Concat(ChunksOf(trades, k)), node) == ForNode(trades, node)
  {
    GroupingIsOk(trades);
    GroupingKeepsTrades(trades, node);
    hide ForNode, Members, GroupByNode, CutAll;
    CutAllIsOk(GroupByNode(trades), k);
  }

  // ---- Which chunks: the only ones as full as they can be, in node order ----

  /** A chunk and the next: for a later node, or for the same node with the first one full. */
  ghost predicate NextTo(a: seq<Match>, b: seq<Match>, k: nat) {
    && a != [] && b != []
    && (a[0].assignedNode < b[0].assignedNode || (a[0].assignedNode == b[0].assignedNode && |a| == k))
  }

  ghost predicate Packed(cs: seq<seq<Match>>, k: nat) {
    forall i :: 0 <= i < |cs| - 1 ==> NextTo(cs[i], cs[i + 1], k)
  }

  ghost predicate For(c: seq<Match>, node: Id) {
    c != [] && c[0].assignedNode == node
  }

  ghost predicate ForLater(cs: seq<seq<Match>>, node: Id) {
    forall i :: 0 <= i < |cs| ==> cs[i] != [] && node < cs[i][0].assignedNode
  }

  lemma {:induction false} CutPacked(trades: seq<Match>, k: nat, node: Id)
    requires k > 0 && OneNode(trades, node)
    ensures Packed(Cut(trades, k), k) && forall i :: 0 <= i < |Cut(trades, k)| ==> For(Cut(trades, k)[i], node)
    decreases |trades|
  {
    if trades != [] {
      var n := Min(k, |trades|);
      CutPacked(trades[n..], k, node);
      var rest := Cut(trades[n..], k);
      assert For(trades[..n], node);
      if rest != [] { assert For(rest[0], node) && n == k; }
      PackedCons(trades[..n], rest, k);
    }
  }

  lemma PackedCons(c: seq<Match>, cs: seq<seq<Match>>, k: nat)
    requires Packed(cs, k) && (cs != [] ==> NextTo(c, cs[0], k))
    ensures Packed([c] + cs, k)
  {
    var all := [c] + cs;
    forall i | 0 <= i < |all| - 1 ensures NextTo(all[i], all[i + 1], k) {
      if i > 0 { assert all[i] == cs[i - 1] && all[i + 1] == cs[i - 1 + 1]; }
    }
  }

  lemma PackedAppend(a: seq<seq<Match>>, b: seq<seq<Match>>, k: nat, node: Id)
    requires Packed(a, k) && Packed(b, k) && ForLater(b, node)
    requires forall i :: 0 <= i < |a| ==> For(a[i], node)
    ensures Packed(a + b, k)
  {
    forall i | 0 <= i < |a + b| - 1 ensures NextTo((a + b)[i], (a + b)[i + 1], k) {
      if i >= |a| { assert NextTo(b[i - |a|], b[i - |a| + 1], k); }
    }
  }

  lemma {:induction false} CutAllPacked(gs: seq<Group>, k: nat, below: Id)
    requires k > 0 && GroupsOk(gs)
    ensures Packed(CutAll(gs, k), k)
    ensures (forall i :: 0 <= i < |gs| ==> below < gs[i].node) ==> ForLater(CutAll(gs, k), below)
  {
    if gs != [] {
      var g, tail := gs[0], gs[1..];
      CutPacked(g.trades, k, g.node);
      CutAllPacked(tail, k, g.node);
      if forall i :: 0 <= i < |gs| ==> below < gs[i].node {
        assert forall i :: 0 <= i < |tail| ==> tail[i] == gs[i + 1];
        CutAllPacked(tail, k, below);
      }
      PackedAppend(Cut(g.trades, k), CutAll(tail, k), k, g.node);
    }
  }

  /** The first chunk holds what its node has first; its node is the least, and only a full chunk leaves
      anything of its node for later. */
  lemma {:induction false} FirstChunk(cs: seq<seq<Match>>, k: nat, node: Id)
    requires ChunksOk(cs, k) && Packed(cs, k) && cs != []
    ensures var own := cs[0][0].assignedNode;
            && ForNode(Concat(cs), node)
               == (if node == own then cs[0] else []) + ForNode(Concat(cs[1..]), node)
            && (node < own || (node == own && |cs[0]| < k) ==> ForNode(Concat(cs[1..]), node) == [])
  {
    var own := cs[0][0].assignedNode;
    assert ChunkOk(cs[0], k);
    assert OneNode(cs[0], own);
    ForNodeConcat(cs[0], Concat(cs[1..]), node);
    ForOneNode(cs[0], own, node);
    if (node < own || (node == own && |cs[0]| < k)) && |cs| > 1 {
      assert NextTo(cs[0], cs[0 + 1], k);
      PackedTail(cs, k);
      hide ForNode;
      FirstChunk(cs[1..], k, node);
    }
  }

  lemma PackedTail(cs: seq<seq<Match>>, k: nat)
    requires ChunksOk(cs, k) && Packed(cs, k) && cs != []
    ensures ChunksOk(cs[1..], k) && Packed(cs[1..], k)
  {
    forall i | 0 <= i < |cs[1..]| - 1 ensures NextTo(cs[1..][i], cs[1..][i + 1], k) {
      assert NextTo(cs[i + 1], cs[i + 1 + 1], k);
    }
  }

  ghost predicate SameByNode(a: seq<Match>, b: seq<Match>) {
    forall node :: ForNode(a, node) == ForNode(b, node)
  }

  /** Two packed cuts of the same trades start with the same chunk ... */
  lemma SameFirst(a: seq<seq<Match>>, b: seq<seq<Match>>, k: nat)
    requires ChunksOk(a, k) && Packed(a, k) && a != []
    requires ChunksOk(b, k) && Packed(b, k) && b != []
    requires SameByNode(Concat(a), Concat(b))
    ensures a[0] == b[0]
  {
    assert ChunkOk(a[0], k) && ChunkOk(b[0], k);
    var n, m := a[0][0].assignedNode, b[0][0].assignedNode;
    hide ForNode, Concat, Packed, ChunksOk;
    FirstChunk(a, k, n);
    FirstChunk(b, k, n);
    FirstChunk(a, k, m);
    FirstChunk(b, k, m);
    assert ForNode(Concat(a), n) == ForNode(Concat(b), n) && ForNode(Concat(a), m) == ForNode(Concat(b), m);
    SamePrefix(a[0], ForNode(Concat(a[1..]), n), b[0], ForNode(Concat(b[1..]), n), k);
  }

  lemma SamePrefix<T>(a: seq<T>, ra: seq<T>, b: seq<T>, rb: seq<T>, k: nat)
    requires a + ra == b + rb && |a| <= k && |b| <= k
    requires (|a| < k ==> ra == []) && (|b| < k ==> rb == [])
    ensures a == b && ra == rb
  {
    assert |a| + |ra| == |b| + |rb|;
    assert |a| == |b|;
    assert a == (a + ra)[..|a|] && b == (b + rb)[..|b|];
    assert ra == (a + ra)[|a|..] && rb == (b + rb)[|b|..];
  }

  /** ... and so are equal. */
  lemma {:induction false} PackedIsUnique(a: seq<seq<Match>>, b: seq<seq<Match>>, k: nat)
    requires ChunksOk(a, k) && Packed(a, k) && ChunksOk(b, k) && Packed(b, k)
    requires SameByNode(Concat(a), Concat(b))
    ensures a == b
  {
    if a == [] {
      if b != [] { NotEmpty(b, k); }
    } else if b == [] {
      NotEmpty(a, k);
    } else {
      SameFirst(a, b, k);
      PackedTail(a, k);
      PackedTail(b, k);
      forall node ensures ForNode(Concat(a[1..]), node) == ForNode(Concat(b[1..]), node) {
        FirstChunk(a, k, node);
        FirstChunk(b, k, node);
        assert ForNode(Concat(a), node) == ForNode(Concat(b), node);
        hide ForNode, Concat, Packed, ChunksOk;
        DropPrefix(if node == a[0][0].assignedNode then a[0] else [],
          ForNode(Concat(a[1..]), node), ForNode(Concat(b[1..]), node));
      }
      hide ForNode, Concat, Packed, ChunksOk;
      PackedIsUnique(a[1..], b[1..], k);
      assert a == [a[0]] + a[1..] && b == [b[0]] + b[1..];
    }
  }

  lemma DropPrefix<T>(p: seq<T>, a: seq<T>, b: seq<T>)
    requires p + a == p + b
    ensures a == b
  {
    assert a == (p + a)[|p|..] && b == (p + b)[|p|..];
  }

  lemma NotEmpty(cs: seq<seq<Match>>, k: nat)
    requires ChunksOk(cs, k) && Packed(cs, k) && cs != []
    ensures !SameByNode(Concat(cs), []) && !SameByNode([], Concat(cs))
  {
    assert ChunkOk(cs[0], k);
    var n := cs[0][0].assignedNode;
    FirstChunk(cs, k, n);
    assert ForNode(Concat(cs), n) != ForNode([], n);
  }

  /** The chunks of a queue are the only list of one-node chunks of at most `k` trades that holds each
      node's trades in queue order, takes the nodes in ascending order, and never starts a chunk for a node
      while the last one has room. */
  lemma ChunksAreTheOnly(trades: seq<Match>, k: nat, cs: seq<seq<Match>>)
    requires k > 0
    ensures ChunksOk(cs, k) && Packed(cs, k) && SameByNode(Concat(cs), trades) <==> cs == ChunksOf(trades, k)
  {
    GroupingIsOk(trades);
    CutAllPacked(GroupByNode(trades), k, 0);
    forall node ensures ForNode(Concat(ChunksOf(trades, k)), node) == ForNode(trades, node) {
      ChunksPartition(trades, k, node);
    }
    ChunksPartition(trades, k, 0);
    if ChunksOk(cs, k) && Packed(cs, k) && SameByNode(Concat(cs), trades) {
      hide ForNode, Concat, Packed, ChunksOk;
      PackedIsUnique(cs, ChunksOf(trades, k), k);
    }
  }
}
