/**
 * "Select & Expand Idea": the numbered lines of a node's text are offered
 * as ideas; the chosen idea, with its numbering removed, becomes a focused
 * node below the node it came from.
 */
module Selection {
  import opened Strings
  import opened Graph
  import opened Roadmap
  import opened Pipeline

  /** `text.split('\n').map(line => line.trim()).filter(line => /^\d/.test(line))` */
  function CandidateIdeas(text: string): seq<string>
  {
    Filter(Map(Lines(text), (line: string) => Trim(line)), (line: string) => StartsWithDigit(line))
  }

  /** An idea is offered exactly when it is the trimmed form of a line of the
      text and starts with a digit. */
  lemma CandidateIdeasAre(text: string, idea: string)
    ensures idea in CandidateIdeas(text) <==>
      StartsWithDigit(idea) && exists k :: 0 <= k < |Lines(text)| && Trim(Lines(text)[k]) == idea
  {
    var trimmed := Map(Lines(text), (line: string) => Trim(line));
    FilterMembers(trimmed, (line: string) => StartsWithDigit(line), idea);
    if idea in trimmed {
      var k :| 0 <= k < |trimmed| && trimmed[k] == idea;
      assert Trim(Lines(text)[k]) == idea;
    }
  }

  /** Every offered idea is already trimmed and starts with a digit. */
  lemma CandidateIdeasTrimmed(text: string, k: nat)
    requires k < |CandidateIdeas(text)|
    ensures var idea := CandidateIdeas(text)[k];
      StartsWithDigit(idea) && Trim(idea) == idea
  {
    var idea := CandidateIdeas(text)[k];
    CandidateIdeasAre(text, idea);
    var j :| 0 <= j < |Lines(text)| && Trim(Lines(text)[j]) == idea;
    TrimIdempotent(Lines(text)[j]);
  }

  /** Trimming and then keeping what starts with a digit is keeping the
      phase lines and then trimming them. */
  lemma {:induction false} TrimThenKeep(lines: seq<string>)
    ensures Filter(Map(lines, (line: string) => Trim(line)), (line: string) => StartsWithDigit(line))
         == Map(Filter(lines, (line: string) => IsPhaseLine(line)), (line: string) => Trim(line))
    decreases |lines|
  {
    if lines != [] {
      TrimThenKeep(lines[1..]);
      var trimmed := Map(lines, (line: string) => Trim(line));
      var rest := Filter(lines[1..], (line: string) => IsPhaseLine(line));
      var head := if IsPhaseLine(lines[0]) then [lines[0]] else [];
      assert trimmed == [Trim(lines[0])] + Map(lines[1..], (line: string) => Trim(line));
      assert trimmed[0] == Trim(lines[0]) && trimmed[1..] == Map(lines[1..], (line: string) => Trim(line));
      assert Filter(lines, (line: string) => IsPhaseLine(line)) == head + rest;
      MapAppend(head, rest, (line: string) => Trim(line));
    }
  }

  /** The ideas a node offers are its roadmap phases, trimmed: the two
      features judge the same lines. */
  lemma IdeasArePhases(text: string)
    ensures CandidateIdeas(text) == Map(Phases(text), (line: string) => Trim(line))
    ensures |CandidateIdeas(text)| == |Phases(text)|
  {
    TrimThenKeep(Lines(text));
  }

  /** The number of leading ASCII digits. */
  function LeadingDigits(s: string): (n: nat)
    ensures n <= |s| && AllDigits(s[..n])
    ensures n < |s| ==> !IsDigit(s[n])
    decreases |s|
  {
    if |s| > 0 && IsDigit(s[0]) then 1 + LeadingDigits(s[1..]) else 0
  }

  /** `s.replace(...)` with the pattern `^\d+\.\s*`: a leading run of digits followed by a
      dot, and the whitespace after it, is removed. */
  function StripNumbering(s: string): string
  {
    var n := LeadingDigits(s);
    if 0 < n < |s| && s[n] == '.' then TrimStart(s[n + 1..]) else s
  }

  /** The focused node's text: numbering removed, then trimmed. */
  function CleanIdea(idea: string): string
  {
    Trim(StripNumbering(idea))
  }

  /** Whitespace already dropped at the start is not dropped again. */
  lemma TrimAfterTrimStart(s: string)
    ensures Trim(TrimStart(s)) == Trim(s)
  {
    var t := TrimStart(s);
    assert TrimStart(t) == t;
  }

  /** A numeral, a dot and a text leave the trimmed text. */
  lemma CleanNumbered(n: nat, text: string)
    ensures CleanIdea(NatToString(n) + "." + text) == Trim(text)
  {
    var d := NatToString(n);
    var s := d + "." + text;
    assert s == d + ("." + text);
    LeadingDigitsOf(d, "." + text);
    assert s[|d|] == '.' && s[|d| + 1..] == text;
    assert StripNumbering(s) == TrimStart(text);
    TrimAfterTrimStart(text);
  }

  /** The digits a numeral begins with are exactly the numeral's. */
  lemma {:induction false} LeadingDigitsOf(d: string, rest: string)
    requires AllDigits(d)
    requires rest == [] || !IsDigit(rest[0])
    ensures LeadingDigits(d + rest) == |d|
    decreases |d|
  {
    if d != [] {
      assert (d + rest)[1..] == d[1..] + rest;
      LeadingDigitsOf(d[1..], rest);
    } else {
      assert d + rest == rest;
    }
  }

  /** Text that does not open with digits and a dot is only trimmed. */
  lemma CleanUnnumbered(idea: string)
    requires var n := LeadingDigits(idea); n == 0 || n == |idea| || idea[n] != '.'
    ensures CleanIdea(idea) == Trim(idea)
  {
    assert StripNumbering(idea) == idea;
  }

  /** The focused text is trimmed. */
  lemma CleanIdeaTrimmed(idea: string)
    ensures Trim(CleanIdea(idea)) == CleanIdea(idea)
  {
    TrimIdempotent(StripNumbering(idea));
  }

  /** The focused node for a cleaned idea: class `new-node`, icon U+1F3AF, colour `#facc15`,
      agent "Focused Idea", 200 units below its anchor. */
  function FocusedNode(id: string, anchor: Anchor, cleaned: string): Node
  {
    Node(id, "custom", Some(DoneClass), NodeData(cleaned, "\U{1F3AF}", "#facc15", "Focused Idea"),
         Position(anchor.position.x, anchor.position.y + 200.0))
  }

  /** `handleCreateFocusedNode` once its anchor is known: the focused node
      with the next id and an edge from the anchor. */
  function Focus(s: FlowState, anchor: Anchor, idea: string): FlowState
  {
    Attach(s, FocusedNode(NatToString(s.next), anchor, CleanIdea(idea)), anchor.id)
  }

  /** The state `handleCreateFocusedNode` leaves: unchanged without an
      anchor, focused below it otherwise. */
  function FocusedState(s: FlowState, anchor: Option<Anchor>, idea: string): FlowState
  {
    if anchor.Some? then Focus(s, anchor.value, idea) else s
  }

  /** Focusing appends one node with a fresh id, linked from its anchor, and
      keeps a state fresh; the score does not change. */
  lemma FocusAppends(s: FlowState, anchor: Anchor, idea: string)
    requires Fresh(s)
    ensures var f := Focus(s, anchor, idea);
      && Fresh(f) && Grows(s, f)
      && |f.nodes| == |s.nodes| + 1 && f.score == s.score
      && f.nodes[|s.nodes|].data.text == CleanIdea(idea)
      && f.edges == s.edges + [Connect(anchor.id, f.nodes[|s.nodes|].id)]
  {
    AttachKeepsFresh(s, FocusedNode(NatToString(s.next), anchor, CleanIdea(idea)), anchor.id);
  }
}
