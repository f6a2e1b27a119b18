/**
 * The canvas component's state and its handlers, performed step by step as
 * the component does: the context menu, the agent invocation (with the
 * roadmap's per-phase loop and the chunk-by-chunk stream loop), "select &
 * expand idea" and the focused node. Each handler is proved to leave the
 * state the pure model in `Pipeline` and `Selection` describes.
 */
module Canvas {
  import opened Strings
  import opened Graph
  import opened Roadmap
  import opened Pipeline
  import opened Selection

  /** Where `handleCreateFocusedNode` anchors the new node: the open
      dialog's source node, else the node the menu is open on. */
  function FocusAnchor(modal: Option<SelectionModal>, menu: Option<NodeRef>): (r: Option<Anchor>)
    ensures r.None? <==> modal.None? && menu.None?
    ensures modal.Some? ==> r == Some(modal.value.sourceNode)
  {
    if modal.Some? then Some(modal.value.sourceNode)
    else if menu.Some? then Some(Anchor(menu.value.id, menu.value.position))
    else None
  }

  /** The `App` component. The id counter is module-level state shared by
      every instance, so it is a separate object. */
  class App {
    var nodes: seq<Node>
    var edges: seq<Edge>
    var menu: Option<NodeRef>
    var selectionModal: Option<SelectionModal>
    var isLoading: bool
    var score: nat
    const ids: IdCounter

    /** The graph, the counter and the score. */
    function State(): FlowState
      reads this, ids
    {
      FlowState(nodes, edges, ids.next, score)
    }

    /** Node ids are distinct and none of them can be issued again. */
    ghost predicate Valid()
      reads this, ids
    {
      Fresh(State())
    }

    /** The initial state: the seed node, no edges, no menu, no dialog, not
        loading, score 0. The counter must already be past the seed id. */
    constructor (counter: IdCounter)
      requires counter.next >= 2
      ensures ids == counter && ids.next == old(counter.next)
      ensures nodes == [SeedNode] && edges == [] && score == 0
      ensures menu == None && selectionModal == None && !isLoading
      ensures Valid()
    {
      ids := counter;
      nodes := [SeedNode];
      edges := [];
      menu := None;
      selectionModal := None;
      isLoading := false;
      score := 0;
      SeedIsRetired(counter.next);
    }

    /** `onNodeContextMenu`: outside a `.react-flow` pane nothing happens;
        otherwise the menu opens on the node's id, data and position. */
    method OpenContextMenu(node: Node, insidePane: bool)
      modifies this
      ensures menu == if insidePane then Some(NodeRef(node.id, node.data, node.position)) else old(menu)
      ensures State() == old(State()) && selectionModal == old(selectionModal) && isLoading == old(isLoading)
    {
      if insidePane {
        menu := Some(NodeRef(node.id, node.data, node.position));
      }
    }

    /** `onPaneClick`: the menu and the selection dialog close. */
    method PaneClick()
      modifies this
      ensures menu == None && selectionModal == None
      ensures State() == old(State()) && isLoading == old(isLoading)
    {
      menu := None;
      selectionModal := None;
    }

    /** The dialog's "Close" button. */
    method CloseSelection()
      modifies this
      ensures selectionModal == None
      ensures State() == old(State()) && menu == old(menu) && isLoading == old(isLoading)
    {
      selectionModal := None;
    }

    /** Appends a node and the edge into it from `from`. */
    method Append(n: Node, from: string)
      modifies this
      ensures nodes == old(nodes) + [n] && edges == old(edges) + [Connect(from, n.id)]
      ensures score == old(score) && menu == old(menu) && selectionModal == old(selectionModal)
      ensures isLoading == old(isLoading)
    {
      nodes := nodes + [n];
      edges := edges + [Connect(from, n.id)];
    }

    /** The read loop: each chunk is appended to the text so far and node
        `id` is relabelled with it. Returns the whole text. */
    method StreamInto(id: string, chunks: seq<string>) returns (full: string)
      modifies this
      ensures full == Concat(chunks)
      ensures nodes == Streamed(old(nodes), id, chunks)
      ensures edges == old(edges) && score == old(score) && menu == old(menu)
      ensures selectionModal == old(selectionModal) && isLoading == old(isLoading)
    {
      ghost var before := nodes;
      full := "";
      var i := 0;
      while i < |chunks|
        invariant 0 <= i <= |chunks|
        invariant full == Concat(chunks[..i])
        invariant nodes == Streamed(before, id, chunks[..i])
        invariant edges == old(edges) && score == old(score) && menu == old(menu)
        invariant selectionModal == old(selectionModal) && isLoading == old(isLoading)
      {
        StreamedStep(before, id, chunks, i);
        ConcatStep(chunks, i);
        full := full + chunks[i];
        nodes := WithLabel(nodes, id, full);
        i := i + 1;
      }
      assert chunks[..i] == chunks;
    }

    /** The roadmap's nodes and edges for the phase labels, and the score. */
    method FanOut(source: NodeRef, labels: seq<string>)
      modifies this, ids
      ensures State() == ChainOnto(old(State()), source, labels)
      ensures menu == old(menu) && selectionModal == old(selectionModal) && isLoading == old(isLoading)
    {
      var newNodes, newEdges := BuildChain(labels, source.id, source.position, ids);
      nodes := nodes + newNodes;
      edges := edges + newEdges;
      score := score + ScoreStep;
    }

    /** The roadmap branch: the whole reply is read, then fanned out. */
    method Roadmap(source: NodeRef, reply: Reply, request: Request) returns (outcome: Outcome)
      modifies this, ids
      ensures var r := RoadmapRun(old(State()), source, reply, request);
        State() == r.after && outcome == r.outcome
      ensures menu == old(menu) && selectionModal == old(selectionModal) && isLoading == old(isLoading)
    {
      match reply
      case Refused =>
        outcome := Alerted;
      case NoBody =>
        FanOut(source, PhaseLabels(Phases("")));
        outcome := Succeeded;
      case Stream(chunks, completes) =>
        if completes {
          FanOut(source, PhaseLabels(Phases(Concat(chunks))));
          outcome := Succeeded;
        } else {
          outcome := Alerted;
        }
    }

    /** The automatic critique of the finished brainstorm node. */
    method Critique(brainstorm: Node, prompt: string, reply: Reply, sent: seq<Request>)
      returns (requests: seq<Request>, outcome: Outcome)
      modifies this, ids
      ensures var r := CriticRun(old(State()), brainstorm, prompt, reply, sent);
        State() == r.after && requests == r.requests && outcome == r.outcome
      ensures menu == old(menu) && selectionModal == old(selectionModal) && isLoading == old(isLoading)
    {
      requests := sent + [Request(Endpoint(CriticAgent), prompt)];
      match reply
      case Refused =>
        outcome := Alerted;
      case NoBody =>
        outcome := Stopped;
      case Stream(chunks, completes) =>
        ghost var s := State();
        var criticId := ids.GetUniqueId();
        var critic := CriticNode(criticId, brainstorm.position);
        Append(critic, brainstorm.id);
        var full := StreamInto(criticId, chunks);
        assert State() == StreamNode(s, critic, brainstorm.id, chunks);
        if completes {
          nodes := WithClass(nodes, criticId, DoneClass);
          score := score + ScoreStep;
          outcome := Succeeded;
        } else {
          outcome := Alerted;
        }
    }

    /** Every agent but the roadmap: the placeholder first, then the request,
        the stream, the `new-node` class, and the critique or the score. */
    method StreamAgent(agentType: string, source: NodeRef, customPrompt: string,
                       reply: Reply, criticReply: Reply, request: Request)
      returns (requests: seq<Request>, outcome: Outcome)
      modifies this, ids
      ensures var r := PlaceholderRun(old(State()), agentType, source, customPrompt, reply, criticReply, request);
        State() == r.after && requests == r.requests && outcome == r.outcome
      ensures menu == old(menu) && selectionModal == old(selectionModal) && isLoading == old(isLoading)
    {
      ghost var s := State();
      var firstId := ids.GetUniqueId();
      var first := Placeholder(firstId, source, Present(agentType, customPrompt));
      Append(first, source.id);
      assert State() == Attach(s, first, source.id);
      requests := [request];
      match reply
      case Refused =>
        outcome := Alerted;
      case NoBody =>
        outcome := Alerted;
      case Stream(chunks, completes) =>
        var full := StreamInto(firstId, chunks);
        ghost var s1 := StreamNode(s, first, source.id, chunks);
        assert State() == s1;
        if !completes {
          outcome := Alerted;
        } else {
          nodes := WithClass(nodes, firstId, DoneClass);
          ghost var s2 := s1.(nodes := WithClass(s1.nodes, firstId, DoneClass));
          assert State() == s2;
          if ChainsCritic(agentType, customPrompt) {
            requests, outcome := Critique(first, full, criticReply, requests);
            assert PlaceholderRun(s, agentType, source, customPrompt, reply, criticReply, request)
                == CriticRun(s2, first, full, criticReply, [request]);
          } else {
            score := score + ScoreStep;
            outcome := Succeeded;
          }
        }
    }

    /** `handleAgentInvoke`: the menu closes, the loading overlay shows while
        the agent runs and hides however it ends; the graph, the counter and
        the score end as `Invoke` says, and the state stays valid. */
    method InvokeAgent(agentType: string, source: NodeRef, customPrompt: string,
                       reply: Reply, criticReply: Reply)
      returns (requests: seq<Request>, outcome: Outcome)
      requires Valid()
      modifies this, ids
      ensures var r := Invoke(old(State()), agentType, source, customPrompt, reply, criticReply);
        State() == r.after && requests == r.requests && outcome == r.outcome
      ensures menu == None && !isLoading && selectionModal == old(selectionModal)
      ensures Valid() && Grows(old(State()), State())
    {
      ghost var s := State();
      menu := None;
      isLoading := true;
      var request := Request(Endpoint(agentType), PromptToSend(customPrompt, source.data.text));
      if agentType == RoadmapAgent {
        requests := [request];
        outcome := Roadmap(source, reply, request);
      } else {
        requests, outcome := StreamAgent(agentType, source, customPrompt, reply, criticReply, request);
      }
      isLoading := false;
      ghost var r := Invoke(s, agentType, source, customPrompt, reply, criticReply);
      assert State() == r.after;
      InvokeKeepsFresh(s, agentType, source, customPrompt, reply, criticReply);
      assert Fresh(r.after) && Grows(s, r.after);
    }

    /** `handleCreateFocusedNode`: without a dialog or a menu nothing
        happens; otherwise the focused node is added below the anchor and
        the dialog closes. Either way no dialog is open afterwards. */
    method CreateFocusedNode(idea: string)
      requires Valid()
      modifies this, ids
      ensures State() == FocusedState(old(State()), FocusAnchor(old(selectionModal), old(menu)), idea)
      ensures selectionModal == None
      ensures menu == old(menu) && isLoading == old(isLoading)
      ensures Valid() && Grows(old(State()), State())
    {
      if selectionModal.None? && menu.None? {
        GrowsRefl(State());
        return;
      }
      AddFocused(FocusAnchor(selectionModal, menu).value, idea);
    }

    /** The focused node with the next id below `anchor`, linked from it; the
        dialog closes. */
    method AddFocused(anchor: Anchor, idea: string)
      requires Valid()
      modifies this, ids
      ensures State() == Focus(old(State()), anchor, idea)
      ensures selectionModal == None && menu == old(menu) && isLoading == old(isLoading)
      ensures Valid() && Grows(old(State()), State())
    {
      ghost var s := State();
      var cleaned := CleanIdea(idea);
      var id := ids.GetUniqueId();
      Append(FocusedNode(id, anchor, cleaned), anchor.id);
      selectionModal := None;
      ghost var f := Focus(s, anchor, idea);
      assert State() == f;
      FocusAppends(s, anchor, idea);
      assert Fresh(f) && Grows(s, f);
    }

    /** `handleSelectIdea`: without a menu nothing happens; otherwise the
        numbered lines of the node's text open the selection dialog, or,
        when there are none, the whole text becomes a focused node; the menu
        closes. */
    method SelectIdea()
      requires Valid()
      modifies this, ids
      ensures old(menu).None? ==> State() == old(State()) && menu == None && selectionModal == old(selectionModal)
      ensures old(menu).Some? ==>
        var m := old(menu).value;
        var ideas := CandidateIdeas(m.data.text);
        && menu == None
        && if |ideas| > 0 then
             selectionModal == Some(SelectionModal(Anchor(m.id, m.position), ideas)) && State() == old(State())
           else
             selectionModal == None
             && State() == FocusedState(old(State()), FocusAnchor(old(selectionModal), old(menu)), m.data.text)
      ensures isLoading == old(isLoading)
      ensures Valid() && Grows(old(State()), State())
    {
      ghost var s := State();
      if menu.None? {
        GrowsRefl(s);
        return;
      }
      var m := menu.value;
      var ideas := CandidateIdeas(m.data.text);
      if |ideas| > 0 {
        selectionModal := Some(SelectionModal(Anchor(m.id, m.position), ideas));
        GrowsRefl(s);
      } else {
        CreateFocusedNode(m.data.text);
      }
      menu := None;
    }
  }
}
