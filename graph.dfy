/**
 * The graph that the canvas shows: reactflow nodes and edges as the frontend
 * builds them, the two per-node updates the agent pipeline applies (a new
 * label, a new CSS class), and the module-level id counter.
 */
module Graph {
  import opened Strings

  /** Canvas coordinates. reactflow keeps JavaScript numbers; they are
      modelled as exact reals, so floating-point rounding is not captured. */
  datatype Position = Position(x: real, y: real)

  /** The `data` record of a node: its text (reactflow's `data.label`;
      `label` is a Dafny keyword), emoji icon, accent colour and the name of
      the agent that produced it. */
  datatype NodeData = NodeData(text: string, icon: string, color: string, agentName: string)

  /** A reactflow node. `className` is absent on the seed node. */
  datatype Node = Node(id: string, nodeType: string, className: Option<string>, data: NodeData, position: Position)

  /** A reactflow edge. Every edge the frontend builds is of type
      `smoothstep` with a closed arrowhead coloured `#a1a1aa`; those
      presentation constants are not carried. */
  datatype Edge = Edge(id: string, source: string, target: string)

  /** The id of the one seed node present at start-up. */
  const SeedId: string := "1"

  /** The initial graph's only node. */
  const SeedNode: Node :=
    Node(SeedId, "custom", None,
         NodeData("My New Business Idea", "\U{1F4A1}", "#A855F7", "Starting Point"),
         Position(250.0, 5.0))

  /** Edge ids are derived from the two ends: `e-{source}-{target}`. */
  function EdgeId(source: string, target: string): string
  {
    "e-" + source + "-" + target
  }

  /** The edge the frontend draws from `source` to `target`. */
  function Connect(source: string, target: string): Edge
  {
    Edge(EdgeId(source, target), source, target)
  }

  /** In `x + "-" + y`, the first dash ends `x` when `x` has none. */
  lemma FirstDash(x: string, y: string)
    requires '-' !in x
    ensures Find(x + "-" + y, "-") == Some(|x|)
  {
    FindAbsentChar(x, '-');
    FindAppended(x, '-', y);
  }

  /** Edge ids determine both ends, provided the source ids carry no dash
      (numeric ids never do). */
  lemma EdgeIdInjective(a: string, b: string, c: string, d: string)
    requires '-' !in a && '-' !in c
    ensures EdgeId(a, b) == EdgeId(c, d) ==> a == c && b == d
  {
    if EdgeId(a, b) == EdgeId(c, d) {
      var s := EdgeId(a, b)[2..];
      assert s == a + "-" + b;
      assert s == c + "-" + d;
      FirstDash(a, b);
      FirstDash(c, d);
      assert |a| == |c|;
      assert a == s[..|a|] && c == s[..|c|];
      assert b == s[|a| + 1..] && d == s[|c| + 1..];
    }
  }

  /** One node's label replaced, as the stream updater does. */
  function Relabel(n: Node, id: string, text: string): Node
  {
    if n.id == id then n.(data := n.data.(text := text)) else n
  }

  /** `nodes.map(node => node.id === id ? {...node, data: {...node.data, label}} : node)` */
  function WithLabel(nodes: seq<Node>, id: string, text: string): (r: seq<Node>)
    ensures |r| == |nodes|
    ensures forall k :: 0 <= k < |r| ==> r[k].id == nodes[k].id && r[k].position == nodes[k].position
  {
    Map(nodes, (n: Node) => Relabel(n, id, text))
  }

  /** What the label update does to each node: the matching nodes get the
      new label and keep every other field; the others are untouched. */
  lemma WithLabelAt(nodes: seq<Node>, id: string, text: string, k: nat)
    requires k < |nodes|
    ensures var n, m := nodes[k], WithLabel(nodes, id, text)[k];
      if n.id == id then
        && m.data.text == text
        && m.data.icon == n.data.icon && m.data.color == n.data.color
        && m.data.agentName == n.data.agentName
        && m.className == n.className && m.nodeType == n.nodeType
        && m.position == n.position && m.id == n.id
      else m == n
  {
  }

  /** A later label update supersedes an earlier one. */
  lemma WithLabelTwice(nodes: seq<Node>, id: string, a: string, b: string)
    ensures WithLabel(WithLabel(nodes, id, a), id, b) == WithLabel(nodes, id, b)
  {
  }

  /** Updating a node that none of `nodes` shares an id with touches only it. */
  lemma WithLabelAppended(nodes: seq<Node>, n: Node, text: string)
    requires forall k :: 0 <= k < |nodes| ==> nodes[k].id != n.id
    ensures WithLabel(nodes + [n], n.id, text) == nodes + [n.(data := n.data.(text := text))]
  {
  }

  /** One node's CSS class replaced. */
  function Reclass(n: Node, id: string, cls: string): Node
  {
    if n.id == id then n.(className := Some(cls)) else n
  }

  /** `nodes.map(node => node.id === id ? {...node, className: cls} : node)` */
  function WithClass(nodes: seq<Node>, id: string, cls: string): (r: seq<Node>)
    ensures |r| == |nodes|
    ensures forall k :: 0 <= k < |r| ==> r[k].id == nodes[k].id && r[k].position == nodes[k].position
  {
    Map(nodes, (n: Node) => Reclass(n, id, cls))
  }

  /** The class update changes the class of the matching nodes and nothing else. */
  lemma WithClassAt(nodes: seq<Node>, id: string, cls: string, k: nat)
    requires k < |nodes|
    ensures var n, m := nodes[k], WithClass(nodes, id, cls)[k];
      if n.id == id then m.className == Some(cls) && m.data == n.data && m.id == n.id
         && m.nodeType == n.nodeType && m.position == n.position
      else m == n
  {
  }

  lemma WithClassAppended(nodes: seq<Node>, n: Node, cls: string)
    requires forall k :: 0 <= k < |nodes| ==> nodes[k].id != n.id
    ensures WithClass(nodes + [n], n.id, cls) == nodes + [n.(className := Some(cls))]
  {
  }

  /** The ids of `nodes` are pairwise distinct. */
  ghost predicate DistinctIds(nodes: seq<Node>)
  {
    forall i, j :: 0 <= i < j < |nodes| ==> nodes[i].id != nodes[j].id
  }

  /** `id` can never be issued again by a counter now at `next`. */
  ghost predicate Retired(id: string, next: nat)
  {
    forall k: nat :: next <= k ==> id != NatToString(k)
  }

  /** Every id issued below `next`, and the seed id when `next` is past it,
      is retired. */
  lemma IssuedIsRetired(m: nat, next: nat)
    requires m < next
    ensures Retired(NatToString(m), next)
  {
    forall k: nat | next <= k ensures NatToString(m) != NatToString(k) {
      NatToStringInjective(m, k);
    }
  }

  lemma SeedIsRetired(next: nat)
    requires next >= 2
    ensures Retired(SeedId, next)
  {
    assert NatToString(1) == SeedId;
    IssuedIsRetired(1, next);
  }

  /** The module-level `let id = 2` behind `getUniqueId`. */
  class IdCounter {
    var next: nat

    /** The counter starts at 2; "1" belongs to the seed node. */
    constructor ()
      ensures next == 2
    {
      next := 2;
    }

    /** `getUniqueId`: the current value as a decimal string, then increment. */
    method GetUniqueId() returns (id: string)
      modifies this
      ensures id == NatToString(old(next))
      ensures next == old(next) + 1
    {
      id := NatToString(next);
      next := next + 1;
    }
  }

  /** No node of `nodes` carries an id the counter can still issue. */
  ghost predicate AllRetired(nodes: seq<Node>, next: nat)
  {
    forall k :: 0 <= k < |nodes| ==> Retired(nodes[k].id, next)
  }

  /** Appending nodes that carry the next `|added|` issued ids keeps the ids
      of a graph distinct and keeps every id retired once the counter has
      moved past them. */
  lemma AppendIssued(nodes: seq<Node>, added: seq<Node>, start: nat)
    requires DistinctIds(nodes) && AllRetired(nodes, start)
    requires forall k :: 0 <= k < |added| ==> added[k].id == NatToString(start + k)
    ensures DistinctIds(nodes + added) && AllRetired(nodes + added, start + |added|)
  {
    var all := nodes + added;
    forall k | 0 <= k < |added| ensures Retired(added[k].id, start + |added|) {
      IssuedIsRetired(start + k, start + |added|);
    }
    forall i, j | 0 <= i < j < |all| ensures all[i].id != all[j].id {
      if j >= |nodes| {
        var q := j - |nodes|;
        assert all[j].id == NatToString(start + q);
        if i >= |nodes| {
          NatToStringInjective(start + (i - |nodes|), start + q);
        } else {
          assert Retired(nodes[i].id, start);
        }
      }
    }
  }

  /** The ids a counter standing at `start` hands out over `count` calls. */
  function IssuedIds(start: nat, count: nat): (r: seq<string>)
    ensures |r| == count
  {
    seq(count, k requires 0 <= k < count => NatToString(start + k))
  }

  /** The k-th call hands out the counter's start value plus k. */
  lemma IssuedIdAt(start: nat, count: nat, k: nat)
    requires k < count
    ensures IssuedIds(start, count)[k] == NatToString(start + k)
  {
  }

  /** Issued ids are pairwise distinct, carry no dash, and are all retired
      once the counter has moved past them. */
  lemma IssuedIdsFresh(start: nat, count: nat)
    ensures var ids := IssuedIds(start, count);
      && (forall i, j :: 0 <= i < j < count ==> ids[i] != ids[j])
      && (forall i :: 0 <= i < count ==> '-' !in ids[i] && Retired(ids[i], start + count))
  {
    var ids := IssuedIds(start, count);
    forall i, j | 0 <= i < j < count ensures ids[i] != ids[j] {
      NatToStringInjective(start + i, start + j);
    }
    forall i | 0 <= i < count ensures '-' !in ids[i] && Retired(ids[i], start + count) {
      NumeralHasNoDash(start + i);
      IssuedIsRetired(start + i, start + count);
    }
  }

  /** Numerals, hence numeric ids, contain no dash. */
  lemma NumeralHasNoDash(n: nat)
    ensures '-' !in NatToString(n)
  {
    var s := NatToString(n);
    assert forall i :: 0 <= i < |s| ==> s[i] != '-';
  }

  /** Ids issued later are numerically larger, hence distinct from earlier ones. */
  lemma IssuedIdsIncrease(m: nat, n: nat)
    requires m < n
    ensures NatToString(m) != NatToString(n)
    ensures DecimalValue(NatToString(m)) < DecimalValue(NatToString(n))
  {
    NatToStringInjective(m, n);
    DecimalValueOfNatToString(m);
    DecimalValueOfNatToString(n);
  }
}
