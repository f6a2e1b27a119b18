/**
 * The roadmap branch of the agent pipeline: the whole reply is read, the
 * lines that start with a digit become phases, and each phase becomes one
 * finished node, chained linearly below the node the roadmap was asked for.
 */
module Roadmap {
  import opened Strings
  import opened Graph

  /** Separates a phase's title from its description. */
  const Delimiter: string := " :: "

  /** The roadmap icon, U+1F5FA followed by the emoji variation selector. */
  const MapIcon: string := "\U{1F5FA}\U{FE0F}"

  /** `/^\d/.test(line.trim())` */
  predicate IsPhaseLine(line: string)
  {
    StartsWithDigit(Trim(line))
  }

  /** The phase lines of a reply, in reply order; each is kept untrimmed. */
  function Phases(text: string): seq<string>
  {
    Filter(Lines(text), (line: string) => IsPhaseLine(line))
  }

  /** The phases are exactly the lines of the reply that are phase lines. */
  lemma PhasesAreLines(text: string, p: string)
    ensures p in Phases(text) <==> p in Lines(text) && IsPhaseLine(p)
  {
    FilterMembers(Lines(text), (line: string) => IsPhaseLine(line), p);
  }

  /** A reply of one line yields that line exactly when it is a phase line. */
  lemma PhasesOfLine(line: string)
    requires '\n' !in line
    ensures Phases(line) == if IsPhaseLine(line) then [line] else []
  {
    FindAbsentChar(line, '\n');
    SplitWithout(line, "\n");
  }

  /** Lines are judged one by one: the phases of two stacked blocks of text
      are the phases of the first followed by those of the second. */
  lemma PhasesAround(a: string, b: string)
    ensures Phases(a + "\n" + b) == Phases(a) + Phases(b)
  {
    SplitAround(a, '\n', b);
    assert a + "\n" + b == a + ['\n'] + b;
    FilterAppend(Lines(a), Lines(b), (line: string) => IsPhaseLine(line));
  }

  /** `const [title, description] = phase.split(' :: ')` and the label
      `${title.trim()}\n\n${description ? description.trim() : ''}`; pieces
      after the second are dropped. */
  function PhaseLabel(phase: string): string
  {
    var parts := Split(phase, Delimiter);
    Trim(parts[0]) + "\n\n" + (if |parts| > 1 then Trim(parts[1]) else "")
  }

  /** Without a delimiter the label is the trimmed line and an empty description. */
  lemma PhaseLabelUndelimited(phase: string)
    requires !Contains(phase, Delimiter)
    ensures PhaseLabel(phase) == Trim(phase) + "\n\n"
  {
    SplitWithout(phase, Delimiter);
  }

  /** A title joined to a description by the delimiter labels the node with
      the trimmed title, a blank line and the trimmed description. The title
      must not itself end in " ::", or the delimiter would be found earlier. */
  lemma PhaseLabelOf(title: string, description: string)
    requires !Contains(title, Delimiter) && !EndsWith(title, " ::")
    requires !Contains(description, Delimiter)
    ensures PhaseLabel(title + Delimiter + description) == Trim(title) + "\n\n" + Trim(description)
  {
    var s := title + Delimiter + description;
    var n := |title|;
    DelimiterAfter(title, description);
    assert s[..n] == title;
    assert s[n + 4..] == description;
    SplitWithout(description, Delimiter);
  }

  /** The first delimiter of `title + Delimiter + description` is the one
      placed after the title. */
  lemma DelimiterAfter(title: string, description: string)
    requires !Contains(title, Delimiter) && !EndsWith(title, " ::")
    ensures Find(title + Delimiter + description, Delimiter) == Some(|title|)
  {
    var s := title + Delimiter + description;
    var n := |title|;
    assert s[n..n + 4] == Delimiter;
    forall j | 0 <= j < n ensures !MatchAt(s, Delimiter, j) {
      if j + 4 <= n {
        NoDelimiterInTitle(title, description, j);
      } else {
        NoDelimiterAcross(title, description, j);
      }
    }
    FindIs(s, Delimiter, n);
  }

  lemma NoDelimiterInTitle(title: string, description: string, j: nat)
    requires !Contains(title, Delimiter) && j + 4 <= |title|
    ensures !MatchAt(title + Delimiter + description, Delimiter, j)
  {
    assert !MatchAt(title, Delimiter, j);
    assert title + Delimiter + description == title + (Delimiter + description);
    MatchInExtension(title, Delimiter + description, Delimiter, j);
  }

  lemma NoDelimiterAcross(title: string, description: string, j: nat)
    requires !EndsWith(title, " ::") && j < |title| < j + 4
    ensures !MatchAt(title + Delimiter + description, Delimiter, j)
  {
    var s := title + Delimiter + description;
    var n := |title|;
    var w := s[j..j + 4];
    assert s[n] == ' ';
    if j == n - 1 {
      assert w[1] == ' ' && Delimiter[1] == ':';
    } else if j == n - 2 {
      assert w[2] == ' ' && Delimiter[2] == ':';
    } else {
      assert w[..3] == title[n - 3..];
      assert Delimiter[..3] == " ::";
    }
  }

  /** The node a phase becomes: class `new-node`, the phase's label, the
      roadmap icon, colour `#3b82f6`, agent "Planner", at the source's x and
      200 units further down per phase. */
  function PhaseNode(id: string, text: string, index: nat, origin: Position): Node
  {
    Node(id, "custom", Some("new-node"),
         NodeData(text, MapIcon, "#3b82f6", "Planner"),
         Position(origin.x, origin.y + 200.0 * ((index + 1) as real)))
  }

  /** The labels of the chain's nodes, one per phase. */
  function PhaseLabels(phases: seq<string>): (r: seq<string>)
    ensures |r| == |phases|
  {
    Map(phases, (p: string) => PhaseLabel(p))
  }

  /** The chain's nodes for the given labels and ids. */
  function ChainNodes(labels: seq<string>, ids: seq<string>, origin: Position): (r: seq<Node>)
    requires |labels| == |ids|
    ensures |r| == |ids|
  {
    seq(|ids|, k requires 0 <= k < |ids| => PhaseNode(ids[k], labels[k], k, origin))
  }

  /** The k-th chain edge: into the k-th new node, from the previous new
      node or, for the first, from the source. */
  function Link(sourceId: string, ids: seq<string>, k: nat): Edge
    requires k < |ids|
  {
    Connect(if k == 0 then sourceId else ids[k - 1], ids[k])
  }

  /** The edges linking `sourceId` to the first chained node and each node
      to the next. */
  function ChainEdges(sourceId: string, ids: seq<string>): (r: seq<Edge>)
    ensures |r| == |ids|
  {
    seq(|ids|, k requires 0 <= k < |ids| => Link(sourceId, ids, k))
  }

  /** The chain is a path: one edge per node, the first from the source, the
      k-th from node k-1 to node k, each with id `e-{source}-{target}`. */
  lemma ChainIsPath(sourceId: string, labels: seq<string>, ids: seq<string>, origin: Position)
    requires |labels| == |ids|
    ensures var ns, es := ChainNodes(labels, ids, origin), ChainEdges(sourceId, ids);
      && |es| == |ns|
      && (|es| > 0 ==> es[0].source == sourceId)
      && (forall k :: 0 < k < |es| ==> es[k].source == ns[k - 1].id)
      && (forall k :: 0 <= k < |es| ==> es[k].target == ns[k].id)
      && (forall k :: 0 <= k < |es| ==> es[k].id == EdgeId(es[k].source, es[k].target))
  {
  }

  /** The k-th new node carries the k-th id and the k-th label, and sits at
      (x, y + 200 (k + 1)), below the source. */
  lemma ChainPlacement(labels: seq<string>, ids: seq<string>, origin: Position)
    requires |labels| == |ids|
    ensures var ns := ChainNodes(labels, ids, origin);
      forall k :: 0 <= k < |ns| ==>
        && ns[k].id == ids[k] && ns[k].data.text == labels[k]
        && ns[k].position == Position(origin.x, origin.y + 200.0 * ((k + 1) as real))
  {
  }

  /** The k-th label is the label of the k-th phase. */
  lemma PhaseLabelsAt(phases: seq<string>, k: nat)
    requires k < |phases|
    ensures PhaseLabels(phases)[k] == PhaseLabel(phases[k])
  {

  }

  /** For a list of phases and a counter at `start`, the k-th node gets the
      k-th issued id and the k-th phase's label. */
  lemma ChainOfPhases(phases: seq<string>, start: nat, origin: Position)
    ensures var ns := ChainNodes(PhaseLabels(phases), IssuedIds(start, |phases|), origin);
      forall k :: 0 <= k < |ns| ==>
        && ns[k].id == NatToString(start + k)
        && ns[k].data.text == PhaseLabel(phases[k])
        && ns[k].position == Position(origin.x, origin.y + 200.0 * ((k + 1) as real))
  {
    var labels, ids := PhaseLabels(phases), IssuedIds(start, |phases|);
    ChainPlacement(labels, ids, origin);
    forall k | 0 <= k < |phases|
      ensures ids[k] == NatToString(start + k) && labels[k] == PhaseLabel(phases[k])
    {
      IssuedIdAt(start, |phases|, k);
      PhaseLabelsAt(phases, k);
    }
  }

  /** The chain's edge ids are pairwise distinct when its node ids are and
      no id involved has a dash. */
  lemma ChainEdgeIdsDistinct(sourceId: string, ids: seq<string>)
    requires '-' !in sourceId
    requires forall i :: 0 <= i < |ids| ==> '-' !in ids[i]
    requires forall i, j :: 0 <= i < j < |ids| ==> ids[i] != ids[j]
    ensures var es := ChainEdges(sourceId, ids);
      forall i, j :: 0 <= i < j < |es| ==> es[i].id != es[j].id
  {
    var es := ChainEdges(sourceId, ids);
    forall i, j | 0 <= i < j < |es| ensures es[i].id != es[j].id {
      EdgeIdInjective(es[i].source, es[i].target, es[j].source, es[j].target);
    }
  }

  /** One more node of the chain is added at the end. */
  lemma ChainNodesGrow(labels: seq<string>, ids: seq<string>, origin: Position, i: nat)
    requires |labels| == |ids| && i < |ids|
    ensures ChainNodes(labels, ids, origin)[..i + 1]
         == ChainNodes(labels, ids, origin)[..i] + [PhaseNode(ids[i], labels[i], i, origin)]
  {
    var c := ChainNodes(labels, ids, origin);
    assert c[..i + 1] == c[..i] + [c[i]];
  }

  /** One more edge of the chain is added at the end. */
  lemma ChainEdgesGrow(sourceId: string, ids: seq<string>, i: nat)
    requires i < |ids|
    ensures ChainEdges(sourceId, ids)[..i + 1] == ChainEdges(sourceId, ids)[..i] + [Link(sourceId, ids, i)]
  {
    var c := ChainEdges(sourceId, ids);
    assert c[..i + 1] == c[..i] + [c[i]];
  }

  /** `phases.forEach(...)`: per phase, one id from the counter, one node and
      one edge from the previous node (first the source). The labels, a pure
      function of each phase, are passed in already computed. */
  method BuildChain(labels: seq<string>, sourceId: string, origin: Position, counter: IdCounter)
    returns (newNodes: seq<Node>, newEdges: seq<Edge>)
    modifies counter
    ensures counter.next == old(counter.next) + |labels|
    ensures newNodes == ChainNodes(labels, IssuedIds(old(counter.next), |labels|), origin)
    ensures newEdges == ChainEdges(sourceId, IssuedIds(old(counter.next), |labels|))
  {
    ghost var ids := IssuedIds(counter.next, |labels|);
    ghost var start := counter.next;
    var previousNodeId := sourceId;
    newNodes, newEdges := [], [];
    var index := 0;
    while index < |labels|
      invariant 0 <= index <= |labels|
      invariant counter.next == start + index
      invariant newNodes == ChainNodes(labels, ids, origin)[..index]
      invariant newEdges == ChainEdges(sourceId, ids)[..index]
      invariant previousNodeId == if index == 0 then sourceId else ids[index - 1]
    {
      assert ids[index] == NatToString(counter.next);
      var newNodeId := counter.GetUniqueId();
      ChainNodesGrow(labels, ids, origin, index);
      ChainEdgesGrow(sourceId, ids, index);
      newNodes := newNodes + [PhaseNode(newNodeId, labels[index], index, origin)];
      newEdges := newEdges + [Connect(previousNodeId, newNodeId)];
      previousNodeId := newNodeId;
      index := index + 1;
    }
  }
}
