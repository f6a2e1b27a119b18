/**
 * The canvas component's agent pipeline: the context menu, one agent
 * invocation from request to finished nodes (the roadmap fan-out, or a
 * placeholder node that a streamed reply fills in, possibly followed by an
 * automatic critique), and "select & expand idea".
 *
 * The network is abstracted: what an endpoint answers is given as a `Reply`,
 * already decoded to text chunks. `Invoke` states what one invocation does to
 * the canvas; the `App` class performs it step by step and is proved to match.
 */
module Pipeline {
  import opened Strings
  import opened Graph
  import opened Roadmap

  /** The node an action is invoked on, as the context menu captured it:
      its id, data and position (the menu's screen offsets are not carried). */
  datatype NodeRef = NodeRef(id: string, data: NodeData, position: Position)

  /** The `sourceNode` a selection dialog remembers. */
  datatype Anchor = Anchor(id: string, position: Position)

  /** The open "Select an Idea to Expand" dialog. */
  datatype SelectionModal = SelectionModal(sourceNode: Anchor, ideas: seq<string>)

  /** What an endpoint does with a request: the fetch rejects, the response
      has no body, or the body streams the given chunks and then either ends
      normally or fails. */
  datatype Reply = Refused | NoBody | Stream(chunks: seq<string>, completes: bool)

  /** A POST with body `{ prompt }`. */
  datatype Request = Request(url: string, prompt: string)

  /** How an invocation ends: it reaches the score update, it lands in the
      `catch` (an alert), or the critic's body-less reply ends it silently. */
  datatype Outcome = Succeeded | Alerted | Stopped

  /** Icon, colour and agent name of a streamed node. */
  datatype Presentation = Presentation(icon: string, color: string, agentName: string)

  /** The part of the component state an invocation changes. */
  datatype FlowState = FlowState(nodes: seq<Node>, edges: seq<Edge>, next: nat, score: nat)

  /** The state after an invocation, the requests it sent and how it ended. */
  datatype Run = Run(after: FlowState, requests: seq<Request>, outcome: Outcome)

  const RoadmapAgent: string := "roadmap"
  const BrainstormAgent: string := "brainstorm"
  const CriticAgent: string := "criticize"
  const TasksAgent: string := "tasks"

  /** Class of a node whose text is still streaming, and of a finished one. */
  const ThinkingClass: string := "new-node thinking"
  const DoneClass: string := "new-node"

  /** Points added to the creativity score by each successful invocation. */
  const ScoreStep: nat := 10

  /** `http://localhost:8080/${agentType}` */
  function Endpoint(agentType: string): string
  {
    "http://localhost:8080/" + agentType
  }

  /** `customPrompt || sourceNode.data.label`: an absent custom prompt is
      modelled as the empty string, which JavaScript treats alike. */
  function PromptToSend(customPrompt: string, text: string): string
  {
    if customPrompt != "" then customPrompt else text
  }

  /** The presentation table of a streamed node. A custom prompt decides
      before the agent kind and keeps the default agent name. */
  function Present(agentType: string, customPrompt: string): Presentation
  {
    if customPrompt != "" then Presentation("\U{1F4AC}", "#c084fc", "Refined Idea")
    else if agentType == BrainstormAgent then Presentation("\U{1F9E0}", "#2dd4bf", "Brainstormer")
    else if agentType == CriticAgent then Presentation("\U{1F9D0}", "#f87171", "Critic")
    else if agentType == TasksAgent then Presentation("\U{1F528}", "#fbbf24", "Task Manager")
    else Presentation("\U{1F4A1}", "#fff", "Refined Idea")
  }

  /** The speech-balloon icon marks exactly the runs with a custom prompt,
      and the default agent name is kept exactly when a custom prompt is
      given or the kind is none of the three named agents. */
  lemma PresentedAs(agentType: string, customPrompt: string)
    ensures var p := Present(agentType, customPrompt);
      && (p.icon == "\U{1F4AC}" <==> customPrompt != "")
      && (p.agentName == "Refined Idea" <==>
            customPrompt != "" || agentType !in {BrainstormAgent, CriticAgent, TasksAgent})
  {
  }

  /** A plain brainstorm (no custom prompt) is followed by a critique. */
  predicate ChainsCritic(agentType: string, customPrompt: string)
  {
    agentType == BrainstormAgent && customPrompt == ""
  }

  /** `fullResponse += chunk` over all chunks, from the empty string. */
  function Concat(chunks: seq<string>): string
  {
    if chunks == [] then "" else Concat(chunks[..|chunks| - 1]) + chunks[|chunks| - 1]
  }

  /** The accumulated text of a concatenation of chunk lists is the text of
      the first followed by the text of the second. */
  lemma {:induction false} ConcatAppend(a: seq<string>, b: seq<string>)
    ensures Concat(a + b) == Concat(a) + Concat(b)
    decreases |b|
  {
    if b != [] {
      var b' := b[..|b| - 1];
      assert (a + b)[..|a + b| - 1] == a + b';
      ConcatAppend(a, b');
    } else {
      assert a + b == a;
    }
  }

  /** The shown text only grows: each later snapshot extends the earlier one. */
  lemma ConcatPrefix(chunks: seq<string>, i: nat, j: nat)
    requires i <= j <= |chunks|
    ensures StartsWith(Concat(chunks[..j]), Concat(chunks[..i]))
  {
    assert chunks[..j] == chunks[..i] + chunks[i..j];
    ConcatAppend(chunks[..i], chunks[i..j]);
  }

  /** One more chunk appends exactly that chunk. */
  lemma ConcatStep(chunks: seq<string>, i: nat)
    requires i < |chunks|
    ensures Concat(chunks[..i + 1]) == Concat(chunks[..i]) + chunks[i]
  {
    assert chunks[..i + 1][..i] == chunks[..i];
  }

  /** The nodes after the chunks have streamed into node `id`: the labels
      are rewritten once per chunk, so without chunks nothing changes. */
  function Streamed(nodes: seq<Node>, id: string, chunks: seq<string>): seq<Node>
  {
    if chunks == [] then nodes else WithLabel(nodes, id, Concat(chunks))
  }

  /** Streaming one more chunk rewrites the label to the text so far. */
  lemma StreamedStep(nodes: seq<Node>, id: string, chunks: seq<string>, i: nat)
    requires i < |chunks|
    ensures Streamed(nodes, id, chunks[..i + 1])
         == WithLabel(Streamed(nodes, id, chunks[..i]), id, Concat(chunks[..i]) + chunks[i])
  {
    ConcatStep(chunks, i);
    if i > 0 {
      WithLabelTwice(nodes, id, Concat(chunks[..i]), Concat(chunks[..i + 1]));
    }
  }

  /** The placeholder for a streamed reply: empty label, class
      `new-node thinking`, 200 units below the source. */
  function Placeholder(id: string, source: NodeRef, p: Presentation): Node
  {
    Node(id, "custom", Some(ThinkingClass), NodeData("", p.icon, p.color, p.agentName),
         Position(source.position.x, source.position.y + 200.0))
  }

  /** The critic's node, 400 units to the right of the brainstorm node. */
  function CriticNode(id: string, brainstorm: Position): Node
  {
    Node(id, "custom", Some(ThinkingClass), NodeData("", "\U{1F9D0}", "#f87171", "Critic"),
         Position(brainstorm.x + 400.0, brainstorm.y))
  }

  /** Appends a node with the next id and an edge into it from `from`. */
  function Attach(s: FlowState, n: Node, from: string): FlowState
  {
    s.(nodes := s.nodes + [n], edges := s.edges + [Connect(from, n.id)], next := s.next + 1)
  }

  /** A chain of nodes with the given labels below the source, and the
      score for it. */
  function ChainOnto(s: FlowState, source: NodeRef, labels: seq<string>): FlowState
  {
    var ids := IssuedIds(s.next, |labels|);
    FlowState(s.nodes + ChainNodes(labels, ids, source.position),
              s.edges + ChainEdges(source.id, ids),
              s.next + |labels|, s.score + ScoreStep)
  }

  /** The roadmap fan-out for a reply text: one chained node per phase. */
  function Fanout(s: FlowState, source: NodeRef, text: string): FlowState
  {
    ChainOnto(s, source, PhaseLabels(Phases(text)))
  }

  /** The roadmap branch: the whole reply is read as text (a missing body
      reads as the empty text); a failed read is alerted and adds nothing. */
  function RoadmapRun(s: FlowState, source: NodeRef, reply: Reply, request: Request): Run
  {
    match reply
    case Refused => Run(s, [request], Alerted)
    case NoBody => Run(Fanout(s, source, ""), [request], Succeeded)
    case Stream(chunks, completes) =>
      if completes then Run(Fanout(s, source, Concat(chunks)), [request], Succeeded)
      else Run(s, [request], Alerted)
  }

  /** Node `n` attached below `from` and filled by the streamed chunks. */
  function StreamNode(s: FlowState, n: Node, from: string, chunks: seq<string>): FlowState
  {
    var s1 := Attach(s, n, from);
    s1.(nodes := Streamed(s1.nodes, n.id, chunks))
  }

  /** The automatic critique of a brainstorm: the brainstorm text is sent to
      the critic; a missing body ends the run silently. */
  function CriticRun(s: FlowState, brainstorm: Node, prompt: string, reply: Reply, sent: seq<Request>): Run
  {
    var requests := sent + [Request(Endpoint(CriticAgent), prompt)];
    match reply
    case Refused => Run(s, requests, Alerted)
    case NoBody => Run(s, requests, Stopped)
    case Stream(chunks, completes) =>
      var n := CriticNode(NatToString(s.next), brainstorm.position);
      var s1 := StreamNode(s, n, brainstorm.id, chunks);
      if completes then
        Run(s1.(nodes := WithClass(s1.nodes, n.id, DoneClass), score := s1.score + ScoreStep), requests, Succeeded)
      else Run(s1, requests, Alerted)
  }

  /** Every other agent: a placeholder is attached before the request is
      sent, then filled by the streamed reply. */
  function PlaceholderRun(s: FlowState, agentType: string, source: NodeRef, customPrompt: string,
                          reply: Reply, criticReply: Reply, request: Request): Run
  {
    var n := Placeholder(NatToString(s.next), source, Present(agentType, customPrompt));
    match reply
    case Refused => Run(Attach(s, n, source.id), [request], Alerted)
    case NoBody => Run(Attach(s, n, source.id), [request], Alerted)
    case Stream(chunks, completes) =>
      var s1 := StreamNode(s, n, source.id, chunks);
      if !completes then Run(s1, [request], Alerted)
      else
        var s2 := s1.(nodes := WithClass(s1.nodes, n.id, DoneClass));
        if ChainsCritic(agentType, customPrompt) then CriticRun(s2, n, Concat(chunks), criticReply, [request])
        else Run(s2.(score := s2.score + ScoreStep), [request], Succeeded)
  }

  /** `handleAgentInvoke(agentType, sourceNode, customPrompt)` when the
      agent answers `reply` and, if a critique follows, the critic answers
      `criticReply`. */
  function Invoke(s: FlowState, agentType: string, source: NodeRef, customPrompt: string,
                  reply: Reply, criticReply: Reply): Run
  {
    var request := Request(Endpoint(agentType), PromptToSend(customPrompt, source.data.text));
    if agentType == RoadmapAgent then RoadmapRun(s, source, reply, request)
    else PlaceholderRun(s, agentType, source, customPrompt, reply, criticReply, request)
  }

  /** The text a reply streams: the concatenated chunks, empty without a body. */
  function TextOf(reply: Reply): string
  {
    if reply.Stream? then Concat(reply.chunks) else ""
  }

  /** The reply's stream was read to its end. */
  predicate Completed(reply: Reply)
  {
    reply.Stream? && reply.completes
  }

  /** Node ids are distinct and none can be issued again. */
  ghost predicate Fresh(s: FlowState)
  {
    DistinctIds(s.nodes) && AllRetired(s.nodes, s.next)
  }

  /** Attaching a node with an empty label and streaming into it appends the
      node with the streamed text as its label, and no other node changes. */
  lemma StreamNodeAppends(s: FlowState, n: Node, from: string, chunks: seq<string>)
    requires forall k :: 0 <= k < |s.nodes| ==> s.nodes[k].id != n.id
    requires n.data.text == ""
    ensures StreamNode(s, n, from, chunks)
         == Attach(s, n.(data := n.data.(text := Concat(chunks))), from)
  {
    if chunks == [] {
      assert n.(data := n.data.(text := Concat(chunks))) == n;
    } else {
      WithLabelAppended(s.nodes, n, Concat(chunks));
    }
  }

  /** The issued id is new to every node of a fresh state. */
  lemma NextIdIsNew(s: FlowState, k: nat)
    requires AllRetired(s.nodes, s.next) && k < |s.nodes|
    ensures s.nodes[k].id != NatToString(s.next) && s.nodes[k].id != NatToString(s.next + 1)
  {
    assert Retired(s.nodes[k].id, s.next);
  }

  /** A streamed node as its stream leaves it: the text streamed so far as
      label, and class `new-node` once the stream completed. */
  function Filled(n: Node, reply: Reply): Node
  {
    n.(data := n.data.(text := TextOf(reply)),
       className := Some(if Completed(reply) then DoneClass else ThinkingClass))
  }

  /** Marking the last attached node done touches only that node. */
  lemma MarkDoneAppends(s: FlowState, n: Node, from: string)
    requires forall k :: 0 <= k < |s.nodes| ==> s.nodes[k].id != n.id
    ensures var a := Attach(s, n, from);
      a.(nodes := WithClass(a.nodes, n.id, DoneClass)) == Attach(s, n.(className := Some(DoneClass)), from)
  {
    WithClassAppended(s.nodes, n, DoneClass);
  }

  /** The critique in closed form: it sends the brainstorm text to the critic
      and, when the critic streams, attaches the filled critic node with the
      next id to the right of the brainstorm node. */
  lemma CriticStage(s: FlowState, brainstorm: Node, prompt: string, reply: Reply, sent: seq<Request>)
    requires AllRetired(s.nodes, s.next)
    ensures var r := CriticRun(s, brainstorm, prompt, reply, sent);
      && r.requests == sent + [Request(Endpoint(CriticAgent), prompt)]
      && r.outcome == (if Completed(reply) then Succeeded else if reply == NoBody then Stopped else Alerted)
      && r.after == if reply.Stream? then
           Attach(s, Filled(CriticNode(NatToString(s.next), brainstorm.position), reply), brainstorm.id)
             .(score := s.score + (if reply.completes then ScoreStep else 0))
         else s
  {
    if reply.Stream? {
      var n := CriticNode(NatToString(s.next), brainstorm.position);
      forall k | 0 <= k < |s.nodes| ensures s.nodes[k].id != n.id {
        NextIdIsNew(s, k);
      }
      StreamNodeAppends(s, n, brainstorm.id, reply.chunks);
      if reply.completes {
        MarkDoneAppends(s, n.(data := n.data.(text := Concat(reply.chunks))), brainstorm.id);
      }
    }
  }

  /** A streamed agent in closed form: the filled placeholder is attached
      below the source; a completed plain brainstorm then hands over to the
      critique, anything else ends here. */
  lemma PlaceholderStage(s: FlowState, agentType: string, source: NodeRef, customPrompt: string,
                         reply: Reply, criticReply: Reply, request: Request)
    requires AllRetired(s.nodes, s.next)
    ensures var r := PlaceholderRun(s, agentType, source, customPrompt, reply, criticReply, request);
      var n := Placeholder(NatToString(s.next), source, Present(agentType, customPrompt));
      var s1 := Attach(s, Filled(n, reply), source.id);
      if ChainsCritic(agentType, customPrompt) && Completed(reply) then
        r == CriticRun(s1, n, TextOf(reply), criticReply, [request])
      else if Completed(reply) then
        r == Run(s1.(score := s1.score + ScoreStep), [request], Succeeded)
      else
        r == Run(s1, [request], Alerted)
  {
    var n := Placeholder(NatToString(s.next), source, Present(agentType, customPrompt));
    forall k | 0 <= k < |s.nodes| ensures s.nodes[k].id != n.id {
      NextIdIsNew(s, k);
    }
    match reply
    case Refused =>
      assert Filled(n, reply) == n;
    case NoBody =>
      assert Filled(n, reply) == n;
    case Stream(chunks, completes) =>
      StreamNodeAppends(s, n, source.id, chunks);
      var t := n.(data := n.data.(text := Concat(chunks)));
      if completes {
        MarkDoneAppends(s, t, source.id);
      } else {
        assert Filled(n, reply) == t;
      }
  }

  /** The roadmap branch in closed form: the fan-out of the reply's text
      when the text could be read, no change otherwise. */
  lemma RoadmapStage(s: FlowState, source: NodeRef, reply: Reply, request: Request)
    ensures var r := RoadmapRun(s, source, reply, request);
      && r.requests == [request]
      && r.outcome == (if reply == Refused || (reply.Stream? && !reply.completes) then Alerted else Succeeded)
      && r.after == if r.outcome == Succeeded then Fanout(s, source, TextOf(reply)) else s
  {
  }

  /** The requests of one invocation: first the agent's endpoint with the
      custom prompt, or the source's label when there is none; then, only
      after a completed plain brainstorm, the critic's endpoint with the
      whole brainstorm text. */
  lemma InvokeRequests(s: FlowState, agentType: string, source: NodeRef, customPrompt: string,
                       reply: Reply, criticReply: Reply)
    requires AllRetired(s.nodes, s.next)
    ensures var r := Invoke(s, agentType, source, customPrompt, reply, criticReply);
      && 1 <= |r.requests| <= 2
      && r.requests[0].url == Endpoint(agentType)
      && r.requests[0].prompt == (if customPrompt != "" then customPrompt else source.data.text)
      && (|r.requests| == 2 <==>
            agentType == BrainstormAgent && customPrompt == "" && Completed(reply))
      && (|r.requests| == 2 ==>
            r.requests[1] == Request(Endpoint(CriticAgent), TextOf(reply)))
  {
    var request := Request(Endpoint(agentType), PromptToSend(customPrompt, source.data.text));
    if agentType == RoadmapAgent {
      RoadmapStage(s, source, reply, request);
    } else {
      PlaceholderRequests(s, agentType, source, customPrompt, reply, criticReply, request);
    }
  }

  lemma PlaceholderRequests(s: FlowState, agentType: string, source: NodeRef, customPrompt: string,
                            reply: Reply, criticReply: Reply, request: Request)
    requires AllRetired(s.nodes, s.next)
    ensures var r := PlaceholderRun(s, agentType, source, customPrompt, reply, criticReply, request);
      && r.requests[..1] == [request]
      && |r.requests| == (if ChainsCritic(agentType, customPrompt) && Completed(reply) then 2 else 1)
      && (|r.requests| == 2 ==> r.requests[1] == Request(Endpoint(CriticAgent), TextOf(reply)))
  {
    PlaceholderStage(s, agentType, source, customPrompt, reply, criticReply, request);
    if ChainsCritic(agentType, customPrompt) && Completed(reply) {
      var n := Placeholder(NatToString(s.next), source, Present(agentType, customPrompt));
      var s1 := Attach(s, Filled(n, reply), source.id);
      AttachKeepsRetired(s, Filled(n, reply), source.id);
      CriticStage(s1, n, TextOf(reply), criticReply, [request]);
    }
  }

  /** Attaching the node with the next id keeps every id retired. */
  lemma AttachKeepsRetired(s: FlowState, n: Node, from: string)
    requires AllRetired(s.nodes, s.next) && n.id == NatToString(s.next)
    ensures AllRetired(Attach(s, n, from).nodes, s.next + 1)
  {
    var a := Attach(s, n, from);
    forall k | 0 <= k < |a.nodes| ensures Retired(a.nodes[k].id, s.next + 1) {
      if k == |s.nodes| {
        IssuedIsRetired(s.next, s.next + 1);
      } else {
        assert Retired(s.nodes[k].id, s.next);
      }
    }
  }

  /** How an invocation ends, and the score: 10 points exactly when it
      succeeds. The roadmap succeeds unless the fetch or the read fails; a
      streamed agent succeeds when its stream, and the critique's when one
      follows, completes; only a critic reply without a body stops silently. */
  lemma InvokeOutcome(s: FlowState, agentType: string, source: NodeRef, customPrompt: string,
                      reply: Reply, criticReply: Reply)
    requires AllRetired(s.nodes, s.next)
    ensures var r := Invoke(s, agentType, source, customPrompt, reply, criticReply);
      && r.after.score == s.score + (if r.outcome == Succeeded then 10 else 0)
      && (r.outcome == Succeeded <==>
            if agentType == "roadmap" then reply != Refused && (reply.Stream? ==> reply.completes)
            else Completed(reply) && (ChainsCritic(agentType, customPrompt) ==> Completed(criticReply)))
      && (r.outcome == Stopped <==>
            agentType != "roadmap" && ChainsCritic(agentType, customPrompt) && Completed(reply) && criticReply == NoBody)
  {
    var request := Request(Endpoint(agentType), PromptToSend(customPrompt, source.data.text));
    if agentType == RoadmapAgent {
      RoadmapStage(s, source, reply, request);
    } else {
      PlaceholderOutcome(s, agentType, source, customPrompt, reply, criticReply, request);
    }
  }

  lemma PlaceholderOutcome(s: FlowState, agentType: string, source: NodeRef, customPrompt: string,
                           reply: Reply, criticReply: Reply, request: Request)
    requires AllRetired(s.nodes, s.next)
    ensures var r := PlaceholderRun(s, agentType, source, customPrompt, reply, criticReply, request);
      && r.after.score == s.score + (if r.outcome == Succeeded then ScoreStep else 0)
      && (r.outcome == Succeeded <==> Completed(reply) && (ChainsCritic(agentType, customPrompt) ==> Completed(criticReply)))
      && (r.outcome == Stopped <==> ChainsCritic(agentType, customPrompt) && Completed(reply) && criticReply == NoBody)
  {
    PlaceholderStage(s, agentType, source, customPrompt, reply, criticReply, request);
    if ChainsCritic(agentType, customPrompt) && Completed(reply) {
      var n := Placeholder(NatToString(s.next), source, Present(agentType, customPrompt));
      AttachKeepsRetired(s, Filled(n, reply), source.id);
      CriticStage(Attach(s, Filled(n, reply), source.id), n, TextOf(reply), criticReply, [request]);
    }
  }

  /** Every agent but the roadmap appends its placeholder right after the
      existing nodes: the next id, 200 units below the source, an edge from
      the source, the whole streamed text as label, and class `new-node`
      exactly when the stream completed. Only a critique adds more, and the
      earlier nodes and edges are kept. */
  lemma PlaceholderFilled(s: FlowState, agentType: string, source: NodeRef, customPrompt: string,
                          reply: Reply, criticReply: Reply, request: Request)
    requires AllRetired(s.nodes, s.next)
    ensures var r := PlaceholderRun(s, agentType, source, customPrompt, reply, criticReply, request);
      var p := Present(agentType, customPrompt);
      var critiqued := ChainsCritic(agentType, customPrompt) && Completed(reply) && criticReply.Stream?;
      && |r.after.nodes| == |s.nodes| + (if critiqued then 2 else 1)
      && |r.after.edges| == |s.edges| + (if critiqued then 2 else 1)
      && r.after.next == s.next + (if critiqued then 2 else 1)
      && r.after.nodes[..|s.nodes| + 1]
         == s.nodes + [Node(NatToString(s.next), "custom", Some(if Completed(reply) then "new-node" else "new-node thinking"),
                            NodeData(TextOf(reply), p.icon, p.color, p.agentName),
                            Position(source.position.x, source.position.y + 200.0))]
      && r.after.edges[..|s.edges| + 1] == s.edges + [Connect(source.id, NatToString(s.next))]
  {
    PlaceholderStage(s, agentType, source, customPrompt, reply, criticReply, request);
    var n := Placeholder(NatToString(s.next), source, Present(agentType, customPrompt));
    var s1 := Attach(s, Filled(n, reply), source.id);
    if ChainsCritic(agentType, customPrompt) && Completed(reply) {
      AttachKeepsRetired(s, Filled(n, reply), source.id);
      CriticStage(s1, n, TextOf(reply), criticReply, [request]);
      if criticReply.Stream? {
        var r := PlaceholderRun(s, agentType, source, customPrompt, reply, criticReply, request);
        assert r.after.nodes[..|s.nodes| + 1] == s1.nodes;
        assert r.after.edges[..|s.edges| + 1] == s1.edges;
      }
    }
  }

  /** A critique follows a completed plain brainstorm whose critic streams:
      its node takes the next id after the placeholder's, sits 400 units to
      the right of the placeholder, is linked from it, shows the critique
      streamed so far and is marked done once that stream completes. */
  lemma CritiqueAppended(s: FlowState, agentType: string, source: NodeRef, customPrompt: string,
                         reply: Reply, criticReply: Reply, request: Request)
    requires AllRetired(s.nodes, s.next)
    requires ChainsCritic(agentType, customPrompt) && Completed(reply) && criticReply.Stream?
    ensures var r := PlaceholderRun(s, agentType, source, customPrompt, reply, criticReply, request);
      && |r.after.nodes| == |s.nodes| + 2 && |r.after.edges| == |s.edges| + 2
      && r.after.nodes[|s.nodes| + 1]
         == Node(NatToString(s.next + 1), "custom",
                 Some(if Completed(criticReply) then "new-node" else "new-node thinking"),
                 NodeData(TextOf(criticReply), "\U{1F9D0}", "#f87171", "Critic"),
                 Position(source.position.x + 400.0, source.position.y + 200.0))
      && r.after.edges[|s.edges| + 1] == Connect(NatToString(s.next), NatToString(s.next + 1))
  {
    PlaceholderStage(s, agentType, source, customPrompt, reply, criticReply, request);
    var n := Placeholder(NatToString(s.next), source, Present(agentType, customPrompt));
    AttachKeepsRetired(s, Filled(n, reply), source.id);
    CriticStage(Attach(s, Filled(n, reply), source.id), n, TextOf(reply), criticReply, [request]);
  }

  /** The roadmap's new nodes, appended after the existing ones: one per
      phase of the reply, in reply order, with consecutive fresh ids, the
      phase's label, at the source's x and 200 units further down per phase. */
  lemma FanoutNodes(s: FlowState, source: NodeRef, text: string)
    ensures var f, phases := Fanout(s, source, text), Phases(text);
      var added := f.nodes[|s.nodes|..];
      && f.nodes == s.nodes + added && |added| == |phases|
      && f.next == s.next + |phases| && f.score == s.score + 10
      && forall k :: 0 <= k < |added| ==>
           && added[k].id == NatToString(s.next + k)
           && added[k].data.text == PhaseLabel(phases[k])
           && added[k].position == Position(source.position.x, source.position.y + 200.0 * ((k + 1) as real))
  {
    PhaseChainNodes(s, source, Phases(text));
  }

  /** The same for any list of phases. */
  lemma PhaseChainNodes(s: FlowState, source: NodeRef, phases: seq<string>)
    ensures var f := ChainOnto(s, source, PhaseLabels(phases));
      var added := f.nodes[|s.nodes|..];
      && f.nodes == s.nodes + added && |added| == |phases|
      && f.next == s.next + |phases| && f.score == s.score + 10
      && forall k :: 0 <= k < |added| ==>
           && added[k].id == NatToString(s.next + k)
           && added[k].data.text == PhaseLabel(phases[k])
           && added[k].position == Position(source.position.x, source.position.y + 200.0 * ((k + 1) as real))
  {
    var labels := PhaseLabels(phases);
    var ids := IssuedIds(s.next, |labels|);
    var f := ChainOnto(s, source, labels);
    var added := f.nodes[|s.nodes|..];
    assert added == ChainNodes(labels, ids, source.position);
    ChainOfPhases(phases, s.next, source.position);
  }

  /** The roadmap's new edges, appended after the existing ones, chain the
      source to the first new node and each new node to the next. */
  lemma FanoutEdges(s: FlowState, source: NodeRef, text: string)
    ensures var f := Fanout(s, source, text);
      var ns, es := f.nodes[|s.nodes|..], f.edges[|s.edges|..];
      && |s.edges| <= |f.edges| && |s.nodes| <= |f.nodes|
      && f.edges == s.edges + es && |es| == |ns|
      && (|es| > 0 ==> es[0].source == source.id)
      && (forall k :: 0 < k < |es| ==> es[k].source == ns[k - 1].id)
      && (forall k :: 0 <= k < |es| ==> es[k].target == ns[k].id)
      && (forall k :: 0 <= k < |es| ==> es[k].id == EdgeId(es[k].source, es[k].target))
  {
    var labels := PhaseLabels(Phases(text));
    var ids := IssuedIds(s.next, |labels|);
    var f := Fanout(s, source, text);
    assert f.nodes[|s.nodes|..] == ChainNodes(labels, ids, source.position);
    assert f.edges[|s.edges|..] == ChainEdges(source.id, ids);
    ChainIsPath(source.id, labels, ids, source.position);
  }

  /** `t` extends `s`: the old nodes and edges are kept as prefixes and the
      counter has moved on by exactly the number of nodes added. */
  predicate Grows(s: FlowState, t: FlowState)
  {
    && |s.nodes| <= |t.nodes| && |s.edges| <= |t.edges|
    && t.nodes[..|s.nodes|] == s.nodes && t.edges[..|s.edges|] == s.edges
    && t.next == s.next + (|t.nodes| - |s.nodes|)
  }

  lemma GrowsRefl(s: FlowState)
    ensures Grows(s, s)
  {
    assert s.nodes[..|s.nodes|] == s.nodes && s.edges[..|s.edges|] == s.edges;
  }

  lemma GrowsTrans(a: FlowState, b: FlowState, c: FlowState)
    requires Grows(a, b) && Grows(b, c)
    ensures Grows(a, c)
  {
    assert c.nodes[..|a.nodes|] == c.nodes[..|b.nodes|][..|a.nodes|];
    assert c.edges[..|a.edges|] == c.edges[..|b.edges|][..|a.edges|];
  }

  /** Attaching a node that carries the next id keeps a state fresh. */
  lemma AttachKeepsFresh(s: FlowState, n: Node, from: string)
    requires Fresh(s) && n.id == NatToString(s.next)
    ensures Fresh(Attach(s, n, from)) && Grows(s, Attach(s, n, from))
  {
    AppendIssued(s.nodes, [n], s.next);
    var a := Attach(s, n, from);
    assert a.nodes[..|s.nodes|] == s.nodes;
    assert a.edges[..|s.edges|] == s.edges;
  }

  /** The roadmap fan-out keeps a state fresh. */
  lemma FanoutKeepsFresh(s: FlowState, source: NodeRef, text: string)
    requires Fresh(s)
    ensures Fresh(Fanout(s, source, text)) && Grows(s, Fanout(s, source, text))
  {
    var f := Fanout(s, source, text);
    FanoutNodes(s, source, text);
    FanoutEdges(s, source, text);
    AppendIssued(s.nodes, f.nodes[|s.nodes|..], s.next);
    assert f.nodes[..|s.nodes|] == s.nodes;
    assert f.edges[..|s.edges|] == s.edges;
  }

  /** The roadmap branch keeps a state fresh. */
  lemma RoadmapKeepsFresh(s: FlowState, source: NodeRef, reply: Reply, request: Request)
    requires Fresh(s)
    ensures var r := RoadmapRun(s, source, reply, request);
      Fresh(r.after) && Grows(s, r.after)
  {
    RoadmapStage(s, source, reply, request);
    FanoutKeepsFresh(s, source, TextOf(reply));
    assert s.nodes[..|s.nodes|] == s.nodes && s.edges[..|s.edges|] == s.edges;
  }

  /** A streamed agent, and the critique after it, keep a state fresh. */
  lemma PlaceholderKeepsFresh(s: FlowState, agentType: string, source: NodeRef, customPrompt: string,
                              reply: Reply, criticReply: Reply, request: Request)
    requires Fresh(s)
    ensures var r := PlaceholderRun(s, agentType, source, customPrompt, reply, criticReply, request);
      Fresh(r.after) && Grows(s, r.after)
  {
    PlaceholderStage(s, agentType, source, customPrompt, reply, criticReply, request);
    var n := Placeholder(NatToString(s.next), source, Present(agentType, customPrompt));
    var s1 := Attach(s, Filled(n, reply), source.id);
    AttachKeepsFresh(s, Filled(n, reply), source.id);
    if ChainsCritic(agentType, customPrompt) && Completed(reply) {
      CriticStage(s1, n, TextOf(reply), criticReply, [request]);
      if criticReply.Stream? {
        var c := Filled(CriticNode(NatToString(s1.next), n.position), criticReply);
        AttachKeepsFresh(s1, c, n.id);
        GrowsTrans(s, s1, Attach(s1, c, n.id));
      }
    }
  }

  /** No invocation ever gives two nodes the same id or hands out an id
      already in use: a fresh state stays fresh, the existing nodes and
      edges are kept in place, and the counter moves on by exactly the
      number of nodes added. */
  lemma InvokeKeepsFresh(s: FlowState, agentType: string, source: NodeRef, customPrompt: string,
                         reply: Reply, criticReply: Reply)
    requires Fresh(s)
    ensures var r := Invoke(s, agentType, source, customPrompt, reply, criticReply);
      Fresh(r.after) && Grows(s, r.after)
  {
    var request := Request(Endpoint(agentType), PromptToSend(customPrompt, source.data.text));
    if agentType == RoadmapAgent {
      RoadmapKeepsFresh(s, source, reply, request);
    } else {
      PlaceholderKeepsFresh(s, agentType, source, customPrompt, reply, criticReply, request);
    }
  }
}
