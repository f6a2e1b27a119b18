# Cognitive canvas frontend core, modelled in Dafny

This project models the browser side of an AI-assisted idea canvas. The
canvas is a graph of idea nodes joined by arrows. Right-clicking a node opens
a context menu whose actions call remote agents.

The model covers three parts of the frontend:

- **The canvas component** (`App.tsx`), which covers four things:
  - the id counter behind `getUniqueId`;
  - the context menu and pane clicks;
  - one agent invocation, `handleAgentInvoke`, from request to finished nodes:
    - the roadmap fan-out into a chain of phase nodes;
    - or a placeholder node that the streamed reply fills in chunk by chunk, followed by an automatic critique after a plain brainstorm;
  - "select & expand idea" (`handleSelectIdea`, `handleCreateFocusedNode`).
- **The task card** (`TaskNode.tsx`): the parser that turns a task-manager node's text into task cards, each with a category, an effort estimate, a title and a description.
- **The workspace panel** (`WorkspacePanel.tsx`): the catalog of saved canvases with save, load, rename, delete and new-canvas, the active-canvas mark, and the browser storage entry the catalog is written back to.

Modules:

| file | module | content |
|---|---|---|
| `strings.dfy` | `Strings` | JavaScript string primitives the source relies on (`trim`, `split`, `join`, `includes`, `filter`, `map`), decimal numerals; `Option` |
| `graph.dfy` | `Graph` | nodes, edges, edge ids, the by-id label and class updates, the id counter class `IdCounter` |
| `roadmap.dfy` | `Roadmap` | phase lines, phase labels, the chain of phase nodes and edges, and the imperative `forEach` that builds it |
| `pipeline.dfy` | `Pipeline` | what one agent invocation does to the canvas, as functions on a `FlowState` value, with its properties |
| `selection.dfy` | `Selection` | candidate ideas, the numbering strip, the focused node |
| `app.dfy` | `Canvas` | the component as the class `App`, whose methods perform each handler step by step and are proved to match the functions of `Pipeline` and `Selection` |
| `tasks.dfy` | `TaskParser` | the task-card parser |
| `workspace.dfy` | `Workspace` | the catalog functions and the class `WorkspacePanel` |

Abstractions:

- The network is a parameter. What an endpoint does with a request is a `Reply`:
  - the fetch rejects;
  - or the response has no body;
  - or the body yields a given list of already decoded text chunks, and then ends or fails.
- `Date.now()` and the answers to `confirm` are method parameters.
- The optional `customPrompt` is a string, where the empty string stands for "absent"; JavaScript's `||` and `if` treat the two alike.
- Positions are reals.

Behaviour of the code worth noting:

- The tasks agent's node shows 🔨 "Task Manager" (App.tsx:103).
- Roadmap phases are the lines whose trimmed text starts with a digit (App.tsx:79). No `Phase N:` pattern is involved.
- A failed invocation alerts and leaves the placeholder node as it was, still marked `thinking` (App.tsx:146-151).
- Loading a canvas does not reseed the id counter. It only hands back the stored nodes and edges (WorkspacePanel.tsx:63-67).
- Canvas ids are unique only per millisecond (WorkspacePanel.tsx:49). Two saves in the same millisecond share an id, and deleting one deletes both (`Workspace.SameInstantSaves`).

## Model

| member | source | states |
|---|---|---|
| Strings.Trim | frontend/src/TaskNode.tsx:32 | `trim()` leaves no whitespace at either end |
| Strings.TrimInfix | frontend/src/TaskNode.tsx:32 | what `trim()` keeps is an infix of the text whose dropped start and end are all whitespace; with the row above, this fixes the result |
| Strings.Split | frontend/src/TaskNode.tsx:35 | `split` gives at least one piece and no piece contains the separator |
| Strings.Join | frontend/src/TaskNode.tsx:36 | definition of `join`: the pieces with the separator between neighbours; its partner is Strings.JoinSplit |
| Strings.Lines | frontend/src/TaskNode.tsx:41-42 | `split('\n')` gives at least one line and no line holds a newline |
| Strings.NatToString | frontend/src/App.tsx:36 | `${n}` is a non-empty digit string; its partners are Strings.NatToStringInjective and Strings.DecimalValueOfNatToString |
| Strings.DecimalValue | frontend/src/TaskNode.tsx:26 | definition of `parseInt` on a digit run; it inverts Strings.NatToString by Strings.DecimalValueOfNatToString |
| Strings.TrimIdempotent | frontend/src/TaskNode.tsx:38 | trimming twice is trimming once, so the trimmed title is stable |
| Strings.JoinSplit | frontend/src/TaskNode.tsx:35-36 | joining the pieces of a split with the same separator gives the text back |
| Strings.SplitAt | frontend/src/TaskNode.tsx:35 | splitting at the first separator gives the text before it, then the pieces of the rest |
| Strings.FilterMembers | frontend/src/TaskNode.tsx:43-50 | `filter` keeps exactly the elements that pass the test |
| Strings.FilterAppend | frontend/src/TaskNode.tsx:43-50 | `filter` distributes over concatenation |
| Strings.Map | frontend/src/TaskNode.tsx:51 | `map` keeps the length and applies the function at every index |
| Strings.NatToStringInjective | frontend/src/App.tsx:36 | distinct counter values give distinct decimal ids |
| Strings.DecimalValueOfNatToString | frontend/src/TaskNode.tsx:26 | `parseInt` of a numeral gives back its number |
| Graph.FirstDash | frontend/src/App.tsx:106 | in `e-{source}-{target}`, the first dash after the prefix ends a dash-free source id |
| Graph.EdgeId | frontend/src/App.tsx:106 | definition of the edge id `e-{source}-{target}`; Graph.EdgeIdInjective shows it determines both ends |
| Graph.EdgeIdInjective | frontend/src/App.tsx:106 | for dash-free source ids, an edge id determines its source and target |
| Graph.WithLabel | frontend/src/App.tsx:119 | the by-id label update keeps the length, every id and every position |
| Graph.WithLabelAt | frontend/src/App.tsx:119 | the matching node gets the new label and keeps all its other fields; every other node is unchanged |
| Graph.WithLabelTwice | frontend/src/App.tsx:119 | a later label update supersedes an earlier one |
| Graph.WithLabelAppended | frontend/src/App.tsx:107-119 | updating a freshly appended node changes that node only |
| Graph.WithClass | frontend/src/App.tsx:123 | the by-id class update keeps the length, every id and every position |
| Graph.WithClassAt | frontend/src/App.tsx:123 | only the matching nodes change, and only in their class |
| Graph.WithClassAppended | frontend/src/App.tsx:123 | marking a freshly appended node done changes that node only |
| Graph.IssuedIsRetired | frontend/src/App.tsx:35-36 | an id already handed out is never handed out again |
| Graph.SeedIsRetired | frontend/src/App.tsx:21-35 | starting at 2, the counter never issues the seed node's id "1" |
| Graph.IdCounter.constructor | frontend/src/App.tsx:35 | the counter starts at 2 |
| Graph.IdCounter.GetUniqueId | frontend/src/App.tsx:36 | returns the current value as a decimal string and increments the counter |
| Graph.AppendIssued | frontend/src/App.tsx:36 | appending nodes carrying the next issued ids keeps the ids distinct and retired |
| Graph.IssuedIdAt | frontend/src/App.tsx:85 | the k-th call hands out the start value plus k |
| Graph.IssuedIdsFresh | frontend/src/App.tsx:85 | ids issued in a row are pairwise distinct, dash-free and retired |
| Graph.NumeralHasNoDash | frontend/src/App.tsx:36 | numeric ids contain no dash |
| Graph.IssuedIdsIncrease | frontend/src/App.tsx:36 | later ids are numerically larger |
| Roadmap.IsPhaseLine | frontend/src/App.tsx:79 | definition of the filter test: the trimmed line starts with a digit |
| Roadmap.Phases | frontend/src/App.tsx:79 | definition of the phases: the lines of the reply passing Roadmap.IsPhaseLine, characterised by Roadmap.PhasesAreLines |
| Roadmap.PhaseLabel | frontend/src/App.tsx:84-86 | definition of a phase's label: trimmed title, a blank line, trimmed description or nothing; stated by Roadmap.PhaseLabelOf and Roadmap.PhaseLabelUndelimited |
| Roadmap.PhaseNode | frontend/src/App.tsx:86 | definition of a phase node: the id, the 🗺️ Planner presentation, class `new-node`, and the position 200·(index+1) below the source; stated by Roadmap.ChainPlacement |
| Roadmap.PhasesAreLines | frontend/src/App.tsx:79 | the phases are exactly the lines whose trimmed text starts with a digit |
| Roadmap.PhasesOfLine | frontend/src/App.tsx:79 | a single line is one phase or none |
| Roadmap.PhasesAround | frontend/src/App.tsx:79 | lines are judged one by one, so the phases of stacked blocks concatenate |
| Roadmap.PhaseLabelUndelimited | frontend/src/App.tsx:84-86 | a phase without ` :: ` is labelled by its trimmed text and a blank line |
| Roadmap.PhaseLabelOf | frontend/src/App.tsx:84-86 | `title :: description` is labelled by the trimmed title, a blank line and the trimmed description |
| Roadmap.DelimiterAfter | frontend/src/App.tsx:84 | the first ` :: ` occurrence is the one after the title |
| Roadmap.NoDelimiterInTitle | frontend/src/App.tsx:84 | no ` :: ` match starts inside the title |
| Roadmap.NoDelimiterAcross | frontend/src/App.tsx:84 | no ` :: ` match straddles the end of the title |
| Roadmap.PhaseLabels | frontend/src/App.tsx:83-86 | one label per phase |
| Roadmap.PhaseLabelsAt | frontend/src/App.tsx:86 | the k-th label is the label of the k-th phase |
| Roadmap.ChainNodes | frontend/src/App.tsx:86 | one node per id |
| Roadmap.ChainEdges | frontend/src/App.tsx:88 | one edge per node |
| Roadmap.ChainIsPath | frontend/src/App.tsx:80-90 | the edges form a path from the source node through the new nodes in order |
| Roadmap.ChainPlacement | frontend/src/App.tsx:86 | node k carries the k-th id and label and sits 200·(k+1) below the source |
| Roadmap.ChainOfPhases | frontend/src/App.tsx:83-86 | with issued ids, phase node k has id start+k and the label of phase k, 200·(k+1) below the source |
| Roadmap.ChainEdgeIdsDistinct | frontend/src/App.tsx:88 | for dash-free distinct ids, the chain's edge ids are pairwise distinct |
| Roadmap.ChainNodesGrow | frontend/src/App.tsx:87 | each `forEach` step appends the next phase node |
| Roadmap.ChainEdgesGrow | frontend/src/App.tsx:89 | each `forEach` step appends the next link |
| Roadmap.BuildChain | frontend/src/App.tsx:80-91 | the loop builds exactly the chain of nodes and edges and draws one id per phase |
| Pipeline.Present | frontend/src/App.tsx:97-103 | definition of the placeholder's icon, colour and agent name by the `if` chain; characterised by Pipeline.PresentedAs |
| Pipeline.RoadmapRun | frontend/src/App.tsx:76-93 | definition of the roadmap path on a refused, bodiless or streamed reply; its closed form is Pipeline.RoadmapStage |
| Pipeline.CriticRun | frontend/src/App.tsx:125-143 | definition of the automatic critique; its closed form is Pipeline.CriticStage |
| Pipeline.PlaceholderRun | frontend/src/App.tsx:95-145 | definition of the placeholder path; its closed form is Pipeline.PlaceholderStage |
| Pipeline.Invoke | frontend/src/App.tsx:69-152 | definition of one agent invocation; its properties are Pipeline.InvokeRequests, Pipeline.InvokeOutcome and Pipeline.InvokeKeepsFresh |
| Pipeline.PresentedAs | frontend/src/App.tsx:97-103 | the speech-balloon icon marks exactly the custom-prompt runs; the default agent name is kept exactly when there is a custom prompt or the kind is none of the three named agents |
| Pipeline.ConcatAppend | frontend/src/App.tsx:114-120 | the accumulated text of two chunk runs is the first text followed by the second |
| Pipeline.ConcatPrefix | frontend/src/App.tsx:118 | an earlier partial text is a prefix of a later one: streaming only appends |
| Pipeline.ConcatStep | frontend/src/App.tsx:118 | each chunk is appended to the accumulated text |
| Pipeline.StreamedStep | frontend/src/App.tsx:118-119 | each chunk step relabels the node with the accumulated text |
| Pipeline.StreamNodeAppends | frontend/src/App.tsx:105-120 | attaching an empty node and streaming into it appends the node labelled with the whole reply, and no other node changes |
| Pipeline.NextIdIsNew | frontend/src/App.tsx:96-128 | the next two issued ids belong to no existing node |
| Pipeline.MarkDoneAppends | frontend/src/App.tsx:123 | clearing `thinking` on a freshly attached node is attaching it done |
| Pipeline.CriticStage | frontend/src/App.tsx:125-143 | the critique: request to the critic with the brainstorm text; a body-less reply ends silently; otherwise a critic node 400 to the right, linked from the brainstorm node, and 10 points when its stream ends |
| Pipeline.PlaceholderStage | frontend/src/App.tsx:96-145 | placeholder then stream, then the critique for a plain completed brainstorm, 10 points after other completed runs, and an alert otherwise |
| Pipeline.RoadmapStage | frontend/src/App.tsx:76-93 | one request; a refused fetch or broken stream alerts and changes nothing; otherwise the fan-out of the reply text |
| Pipeline.InvokeRequests | frontend/src/App.tsx:72-126 | the first request goes to the agent's endpoint with the custom prompt or the node text; a second, to the critic with the reply, is sent exactly after a plain completed brainstorm |
| Pipeline.PlaceholderRequests | frontend/src/App.tsx:110-126 | the placeholder path sends one request, or two when the critique follows |
| Pipeline.AttachKeepsRetired | frontend/src/App.tsx:96 | attaching the node with the next id keeps all ids retired |
| Pipeline.InvokeOutcome | frontend/src/App.tsx:75-151 | the score rises by 10 exactly on success; when an invocation succeeds, and when it stops silently |
| Pipeline.PlaceholderOutcome | frontend/src/App.tsx:110-145 | the same for the placeholder path |
| Pipeline.PlaceholderFilled | frontend/src/App.tsx:96-123 | exactly the placeholder (and the critic node when critiqued) is appended: id, class, text, presentation and position, linked from the source |
| Pipeline.CritiqueAppended | frontend/src/App.tsx:128-142 | the critic node's id, class, text, icon, colour, name and position, and its edge from the brainstorm node |
| Pipeline.FanoutNodes | frontend/src/App.tsx:83-92 | the phases are appended in order with consecutive fresh ids, their labels and positions; 10 points |
| Pipeline.PhaseChainNodes | frontend/src/App.tsx:83-92 | the same for any list of phases |
| Pipeline.FanoutEdges | frontend/src/App.tsx:88-93 | the new edges chain the source to the phase nodes in order, with `e-source-target` ids |
| Pipeline.GrowsRefl | frontend/src/App.tsx:92-93 | a state grows into itself |
| Pipeline.GrowsTrans | frontend/src/App.tsx:92-93 | growth composes |
| Pipeline.AttachKeepsFresh | frontend/src/App.tsx:107-108 | attaching a node with the next id keeps ids distinct and unissuable, and only appends |
| Pipeline.FanoutKeepsFresh | frontend/src/App.tsx:92-93 | the fan-out keeps ids fresh and only appends |
| Pipeline.RoadmapKeepsFresh | frontend/src/App.tsx:76-93 | the roadmap path keeps ids fresh and only appends |
| Pipeline.PlaceholderKeepsFresh | frontend/src/App.tsx:96-143 | the placeholder path keeps ids fresh and only appends |
| Pipeline.InvokeKeepsFresh | frontend/src/App.tsx:69-152 | every invocation, whatever the replies, keeps node ids distinct and unissuable and never removes or reorders nodes or edges |
| Selection.CandidateIdeas | frontend/src/App.tsx:156 | definition of the offered ideas: the lines trimmed, then those starting with a digit; characterised by Selection.CandidateIdeasAre |
| Selection.StripNumbering | frontend/src/App.tsx:168 | definition of `replace(/^\d+\.\s*/, '')`: stated by Selection.CleanNumbered and Selection.CleanUnnumbered |
| Selection.CleanIdea | frontend/src/App.tsx:168 | definition of the cleaned label: the numbering stripped, then trimmed; stated by Selection.CleanIdeaTrimmed |
| Selection.FocusedNode | frontend/src/App.tsx:169 | definition of the focused node: id, 🎯 Focused Idea presentation, class `new-node`, 200 below the anchor |
| Selection.Focus | frontend/src/App.tsx:165-173 | definition of adding the focused node and its edge; stated by Selection.FocusAppends |
| Selection.CandidateIdeasAre | frontend/src/App.tsx:156 | an idea is offered exactly when it is a trimmed line of the text starting with a digit |
| Selection.CandidateIdeasTrimmed | frontend/src/App.tsx:156 | every offered idea is trimmed and starts with a digit |
| Selection.TrimThenKeep | frontend/src/App.tsx:156 | trimming then keeping digit lines is keeping phase lines then trimming |
| Selection.IdeasArePhases | frontend/src/App.tsx:156 | the offered ideas are the roadmap phases (the lines App.tsx:79 keeps), trimmed, and there are as many |
| Selection.LeadingDigits | frontend/src/App.tsx:168 | the leading run of ASCII digits is maximal |
| Selection.TrimAfterTrimStart | frontend/src/App.tsx:168 | whitespace dropped after the numbering is not dropped twice |
| Selection.CleanNumbered | frontend/src/App.tsx:168 | `n.` followed by a text cleans to the trimmed text |
| Selection.LeadingDigitsOf | frontend/src/App.tsx:168 | the digit run of a numeral followed by a non-digit is the numeral |
| Selection.CleanUnnumbered | frontend/src/App.tsx:168 | text that does not open with digits and a dot is only trimmed |
| Selection.CleanIdeaTrimmed | frontend/src/App.tsx:168 | the focused text is trimmed |
| Selection.FocusAppends | frontend/src/App.tsx:169-172 | focusing appends one fresh node labelled with the cleaned idea and one edge from the anchor; the score is unchanged |
| Canvas.FocusAnchor | frontend/src/App.tsx:166-167 | there is no anchor exactly when neither a dialog nor a menu is open; the dialog's source node wins |
| Canvas.App.constructor | frontend/src/App.tsx:21-45 | one seed node, no edges, score 0, nothing open, not loading |
| Canvas.App.OpenContextMenu | frontend/src/App.tsx:47-62 | inside the canvas pane the menu captures the node's id, data and position |
| Canvas.App.PaneClick | frontend/src/App.tsx:64-67 | closes the menu and the dialog |
| Canvas.App.CloseSelection | frontend/src/App.tsx:238 | closes the dialog only |
| Canvas.App.Append | frontend/src/App.tsx:107-108 | appends one node and its edge |
| Canvas.App.StreamInto | frontend/src/App.tsx:114-120 | the loop's text is the concatenation of all chunks and the node shows it |
| Canvas.App.FanOut | frontend/src/App.tsx:80-93 | the chain is appended and the counter advanced as specified |
| Canvas.App.Roadmap | frontend/src/App.tsx:76-93 | performs the roadmap path as `RoadmapRun` specifies |
| Canvas.App.Critique | frontend/src/App.tsx:125-143 | performs the critique as `CriticRun` specifies |
| Canvas.App.StreamAgent | frontend/src/App.tsx:95-145 | performs the placeholder path as `PlaceholderRun` specifies |
| Canvas.App.InvokeAgent | frontend/src/App.tsx:69-152 | the new state, requests and outcome are those of `Invoke`; the menu is closed and loading is over; ids stay fresh and the state only grows |
| Canvas.App.CreateFocusedNode | frontend/src/App.tsx:165-174 | without an anchor nothing changes; otherwise the focused node is added below the anchor; the dialog closes |
| Canvas.App.AddFocused | frontend/src/App.tsx:167-173 | adds the focused node below a known anchor and closes the dialog |
| Canvas.App.SelectIdea | frontend/src/App.tsx:154-163 | without a menu nothing but closing; with numbered lines the dialog opens on them; otherwise the whole text is focused; the menu closes |
| TaskParser.StripMarker | frontend/src/TaskNode.tsx:30 | definition of removing a leading marker and the blanks after it |
| TaskParser.Effort | frontend/src/TaskNode.tsx:26 | definition of the estimate: the first note's number, else 2; stated by TaskParser.FirstNote, TaskParser.NoteEffort and TaskParser.NoNoteDefault |
| TaskParser.ParseTask | frontend/src/TaskNode.tsx:13-39 | definition of `parseTask`; stated by TaskParser.TitleAndDescription, TaskParser.UnmarkedParse and TaskParser.DashlessParse |
| TaskParser.IsTaskLine | frontend/src/TaskNode.tsx:43-50 | definition of the filter: a non-blank trimmed line starting with a marker or containing `Effort:` |
| TaskParser.Tasks | frontend/src/TaskNode.tsx:41-51 | definition of the cards: the task lines parsed in order; stated by TaskParser.TasksAround, TaskParser.TasksOfLine and TaskParser.TaskFromLine |
| TaskParser.CategoryOf | frontend/src/TaskNode.tsx:14-24 | a category other than plain exactly when the untrimmed line starts with a marker |
| TaskParser.SkipSpaces | frontend/src/TaskNode.tsx:15 | the blank run is maximal |
| TaskParser.SkipDigits | frontend/src/TaskNode.tsx:15 | the digit run is maximal |
| TaskParser.NoteTail | frontend/src/TaskNode.tsx:15 | definition of the regular expression after its key: blanks, the digits taken from the text, an optional `h` or `H`, then `)` |
| TaskParser.NoteAt | frontend/src/TaskNode.tsx:15 | a note found at j starts at j, ends inside the text and carries a non-empty run of digits; its exact shape is TaskParser.NoteAtIff |
| TaskParser.NoteAfterKey | frontend/src/TaskNode.tsx:15 | the same, for the part after the key; its shape is TaskParser.NoteAfterKeyShape |
| TaskParser.NoteAfterKeyShape | frontend/src/TaskNode.tsx:15 | a note found after the key has the full shape: blanks, its digits read from the text, an optional `h` or `H`, and `)` |
| TaskParser.NoteAtIff | frontend/src/TaskNode.tsx:15 | a note is found at j exactly when a key in any letter case starts there and the rest of the note follows |
| TaskParser.FindNote | frontend/src/TaskNode.tsx:15-31 | a found note starts at or after the search start and really is a note there |
| TaskParser.RemoveNote | frontend/src/TaskNode.tsx:31 | removing the note never lengthens the text, and leaves it unchanged exactly when no note is found |
| TaskParser.EmptyMessage | frontend/src/TaskNode.tsx:63-65 | a message is shown exactly when no task is found: the node text, or "Generating tasks..." when it is empty |
| TaskParser.TitleHasNoDash | frontend/src/TaskNode.tsx:35-38 | the title contains no dash and is trimmed |
| TaskParser.TitleAndDescription | frontend/src/TaskNode.tsx:29-38 | the title is the trimmed text before the first dash and the description the trimmed text after it, or the whole text and nothing |
| TaskParser.TasksAround | frontend/src/TaskNode.tsx:41-51 | tasks of stacked blocks concatenate: lines are judged one by one |
| TaskParser.TasksOfLine | frontend/src/TaskNode.tsx:41-51 | a one-line text gives one task exactly when the line is a task line |
| TaskParser.EmptyNodeWaits | frontend/src/TaskNode.tsx:63-65 | an empty node shows "Generating tasks..." |
| TaskParser.TaskFromLine | frontend/src/TaskNode.tsx:41-51 | every task is the parse of a task line of the text |
| TaskParser.NoteNeedsParen | frontend/src/TaskNode.tsx:15 | a note begins with a parenthesis |
| TaskParser.FindNoteLeftmost | frontend/src/TaskNode.tsx:15-31 | no note starts before the one found |
| TaskParser.FindNoteNone | frontend/src/TaskNode.tsx:15-31 | when no note is found, none starts at any later position |
| TaskParser.NoNoteFrom | frontend/src/TaskNode.tsx:15 | where no note starts, none is found |
| TaskParser.NoNote | frontend/src/TaskNode.tsx:15 | text without an opening parenthesis holds no note |
| TaskParser.NoNoteDefault | frontend/src/TaskNode.tsx:26-31 | a line without a note estimates 2 hours and keeps its text |
| TaskParser.FindNoteAt | frontend/src/TaskNode.tsx:15 | a note with none before it is the one found |
| TaskParser.LeftmostNote | frontend/src/TaskNode.tsx:15 | the first note after a parenthesis-free text is the one found |
| TaskParser.KeySpellings | frontend/src/TaskNode.tsx:15 | `(effort:`, `(Effort:`, `(EFFORT:` and mixed case all open a note, as the `i` flag allows |
| TaskParser.BlankRun | frontend/src/TaskNode.tsx:15 | the blank run ends at the first non-blank placed after blanks |
| TaskParser.NoteOfShape | frontend/src/TaskNode.tsx:15 | a key in any letter case, any blank run, digits, an optional `h` or `H` and `)` make a note carrying those digits |
| TaskParser.FirstNote | frontend/src/TaskNode.tsx:15-31 | the first note fixes the effort to its number and is exactly what is cut out, even after earlier parentheses |
| TaskParser.CapitalNote | frontend/src/TaskNode.tsx:15 | `(Effort: `, digits, `h)` make a note carrying those digits |
| TaskParser.NoteAfterPrefix | frontend/src/TaskNode.tsx:15 | `(Effort: nh)` after any prefix is a note there carrying n's digits |
| TaskParser.NoteFound | frontend/src/TaskNode.tsx:15 | `(Effort: nh)` after a parenthesis-free text is the note the search finds |
| TaskParser.NoteRemoved | frontend/src/TaskNode.tsx:31 | cutting `(Effort: nh)` out of a line leaves the text before and after it |
| TaskParser.NoteEffort | frontend/src/TaskNode.tsx:15-26 | `text (Effort: nh) ...` after a parenthesis-free text estimates n hours |
| TaskParser.DigitRun | frontend/src/TaskNode.tsx:15 | the digit run covers exactly the digits placed there |
| TaskParser.TrimIndented | frontend/src/TaskNode.tsx:44 | trimming a line indented by one blank drops the blank |
| TaskParser.UnmarkedParse | frontend/src/TaskNode.tsx:13-38 | a line without marker, note or dash is a plain task titled by the trimmed line, 2 hours, no description |
| TaskParser.DashlessParse | frontend/src/TaskNode.tsx:29-38 | a line whose cleaned text has no dash is titled by that text and has no description |
| TaskParser.TrimIndentedMarker | frontend/src/TaskNode.tsx:44 | an indented marked line trims to the marker and the text |
| TaskParser.IndentedIsTaskLine | frontend/src/TaskNode.tsx:43-50 | a marker after a leading blank makes a task line |
| TaskParser.IndentedParse | frontend/src/TaskNode.tsx:14-30 | the parser, looking at the untrimmed line, misses that marker |
| TaskParser.IndentedMarker | frontend/src/TaskNode.tsx:14-50 | the filter and the parser disagree: an indented marked line is a task line but is parsed as a plain task with the marker in its title |
| Workspace.Snapshot | frontend/src/WorkspacePanel.tsx:47-55 | definition of a new canvas: id `canvas-{now}`, the name, the nodes and edges, created and modified now |
| Workspace.Saved | frontend/src/WorkspacePanel.tsx:57 | definition of the catalog after a save: the snapshot first; stated with Workspace.SaveThenDelete |
| Workspace.Without | frontend/src/WorkspacePanel.tsx:72 | definition of the delete filter; stated by Workspace.WithoutListed, Workspace.WithoutAbsent and Workspace.WithoutTwice |
| Workspace.Restored | frontend/src/WorkspacePanel.tsx:30-35 | definition of the start-up read: the stored catalog, or none; stated by Workspace.PersistRoundTrip |
| Workspace.CanvasIdInjective | frontend/src/WorkspacePanel.tsx:49 | two saves get the same id exactly when they happen in the same millisecond |
| Workspace.Renamed | frontend/src/WorkspacePanel.tsx:89-93 | the rename keeps the length, order, ids, nodes, edges and creation times; the matching canvases get the name and time; the others are untouched |
| Workspace.WithoutListed | frontend/src/WorkspacePanel.tsx:72 | after a delete exactly the canvases with other ids remain listed |
| Workspace.WithoutAbsent | frontend/src/WorkspacePanel.tsx:72 | deleting an id no canvas has changes nothing |
| Workspace.WithoutTwice | frontend/src/WorkspacePanel.tsx:72 | deleting is idempotent |
| Workspace.SaveThenDelete | frontend/src/WorkspacePanel.tsx:47-72 | deleting the canvas just saved restores the catalog when no earlier save shares its millisecond |
| Workspace.SameInstantSaves | frontend/src/WorkspacePanel.tsx:49-72 | two saves in one millisecond share an id and one delete removes both |
| Workspace.RenamedListed | frontend/src/WorkspacePanel.tsx:89-93 | renaming keeps the listed ids |
| Workspace.RenameAbsent | frontend/src/WorkspacePanel.tsx:89-93 | renaming an id no canvas has changes nothing |
| Workspace.RenameTwice | frontend/src/WorkspacePanel.tsx:89-93 | the later of two renames wins |
| Workspace.DeleteRenamed | frontend/src/WorkspacePanel.tsx:72-93 | deleting a renamed canvas is deleting the canvas |
| Workspace.Persisted | frontend/src/WorkspacePanel.tsx:38-42 | the storage keeps its old content exactly when the catalog is empty or already stored |
| Workspace.PersistRoundTrip | frontend/src/WorkspacePanel.tsx:30-42 | a non-empty catalog is read back at start-up as written |
| Workspace.LastDeleteReturns | frontend/src/WorkspacePanel.tsx:38-72 | deleting the only canvas is not written back, so it is there again after a reload |
| Workspace.WorkspacePanel.constructor | frontend/src/WorkspacePanel.tsx:21-35 | everything closed and empty, the catalog read from the storage |
| Workspace.WorkspacePanel.Toggle | frontend/src/WorkspacePanel.tsx:132 | opens or closes the panel |
| Workspace.WorkspacePanel.SetSaveDialog | frontend/src/WorkspacePanel.tsx:225 | opens or closes the save dialog |
| Workspace.WorkspacePanel.SetCanvasName | frontend/src/WorkspacePanel.tsx:467 | typing in the save dialog |
| Workspace.WorkspacePanel.SetEditName | frontend/src/WorkspacePanel.tsx:308 | typing in the rename field |
| Workspace.WorkspacePanel.SaveCanvas | frontend/src/WorkspacePanel.tsx:44-61 | a blank name changes nothing; otherwise the snapshot goes first under the trimmed name with id `canvas-{now}`, becomes active, is stored, and the dialog closes and clears |
| Workspace.WorkspacePanel.LoadCanvas | frontend/src/WorkspacePanel.tsx:63-67 | hands back exactly the canvas's nodes and edges, marks it active, closes the panel, leaves the catalog alone |
| Workspace.WorkspacePanel.DeleteCanvas | frontend/src/WorkspacePanel.tsx:69-77 | a refusal changes nothing; otherwise the canvases with the id go and the active mark clears exactly when it was that id |
| Workspace.WorkspacePanel.StartEdit | frontend/src/WorkspacePanel.tsx:79-83 | opens the rename field on the canvas with its name |
| Workspace.WorkspacePanel.SaveEdit | frontend/src/WorkspacePanel.tsx:85-96 | a blank name changes nothing; otherwise the rename with the trimmed name and time, and the field closes |
| Workspace.WorkspacePanel.CancelEdit | frontend/src/WorkspacePanel.tsx:98-102 | closes and clears the rename field, catalog untouched |
| Workspace.WorkspacePanel.NewCanvas | frontend/src/WorkspacePanel.tsx:104-116 | the reset happens exactly when no confirmation is needed or it is given; it clears the active mark and closes the panel; a refusal changes nothing |

The handlers `InvokeAgent`, `SelectIdea`, `CreateFocusedNode` and
`AddFocused` of `Canvas.App` require and keep the invariant `Valid`: node ids
are distinct and none can still be issued by the counter. The menu handlers
`OpenContextMenu`, `PaneClick` and `CloseSelection` leave `State()`, on which
`Valid` depends, unchanged. The steps `Append`, `StreamInto`, `FanOut`,
`Roadmap`, `Critique` and `StreamAgent` neither require nor ensure `Valid`
(`Append` with an arbitrary node can break it); they are proved equal to the
`Pipeline` functions, whose `KeepsFresh` lemmas give `InvokeAgent` its `Valid`.
Every method of `Workspace.WorkspacePanel` except `LoadCanvas` keeps its own
`Valid`: the active canvas, when there is one, is in the catalog, and a
non-empty catalog is what the storage holds. `LoadCanvas` keeps it only for a
canvas that is in the catalog (see below).

## Left out

- The HTTP endpoints, `fetch`, `ReadableStream.getReader` and `TextDecoder` are abstracted as a `Reply` of decoded chunks. Decoding of multibyte sequences split across chunks is not modelled.
- Concurrency: several invocations interleaving between their awaits are not modelled; one invocation runs at a time, and its React state updates are applied in order.
- `console.error` and the text of `alert` are not modelled; an alerted run is recorded as the outcome `Alerted`.
- `localStorage` and `JSON.parse`/`stringify` are modelled as an optional stored catalog with no serialisation.
- The mount-time read of the storage is folded into the constructor of `WorkspacePanel`.
- The screen offsets of the context menu (App.tsx:55-56) are not carried; they only place the menu on screen.
- `onConnect`/`addEdge` (App.tsx:41) is reactflow library code and is not part of this model.
- Node dragging through `onNodesChange`/`onEdgesChange` is reactflow library code and is not part of this model.
- JSX, styles and hover handlers are not modelled. The tasks button appearing only on 🗺️ nodes (App.tsx:219-223) is a rendering condition and is not stated.
- `formatDate` is locale-dependent date formatting and is not modelled.
- `ZoomSlider.tsx` and `CustomNode.tsx` are not part of this model.
- The Python agent services are not part of this model.
- `App.tsx` does not render `WorkspacePanel`. The panel's `onLoadCanvas` and `onNewCanvas` callbacks are modelled as the values `LoadCanvas` and `NewCanvas` return.
- Positions are reals; IEEE double rounding of `y + 200 * (index + 1)` and `x + 400` is not modelled.
- Graph.IdCounter.GetUniqueId: the counter is an unbounded natural. In JavaScript `id` is a double, so from 2^53 on `id++` no longer changes it and ids repeat, and from 10^21 on `${id}` prints exponent notation. The uniqueness proved by `Graph.IssuedIdsFresh` and `Pipeline.InvokeKeepsFresh` therefore holds for fewer than 2^53 issued ids.
- TaskParser.Effort: `parseInt` is exact on unbounded integers here, while JavaScript loses precision beyond 2^53.
- Strings are sequences of code points: an emoji such as 🚀 is one character, not a UTF-16 surrogate pair. This matters for nothing the source does with it, since it only compares and strips whole markers.
- JavaScript's `\s` and `trim()` recognise the Unicode white-space and line-terminator set; `Strings.IsSpace` lists those code points. Unicode case folding is not used: the `i` flag only matters for the ASCII letters of `Effort` and `h`.
- Roadmap.BuildChain takes the phase labels already computed, because the label of each phase is a pure function of the reply text; the loop itself, its id draws and its pushes are modelled.
- Workspace.WorkspacePanel.SaveEdit: `Date.now()` is read once per matching canvas in the source; the model uses one time for all, which differs only when several canvases share the id.
- Workspace.WorkspacePanel.LoadCanvas: keeps `Valid` only for a canvas that is in the catalog, as the rendered list guarantees; the source takes the canvas object from that list (WorkspacePanel.tsx:277).
