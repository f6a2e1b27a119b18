/**
 * The workspace panel: a catalog of saved canvases (named snapshots of the
 * graph), most recent first, with save, load, rename, delete and "new
 * canvas", an active-canvas mark, and the browser storage the catalog is
 * written back to.
 */
module Workspace {
  import opened Strings
  import opened Graph

  /** A saved canvas. Timestamps are milliseconds, as `Date.now()` gives them. */
  datatype Canvas = Canvas(id: string, name: string, nodes: seq<Node>, edges: seq<Edge>,
                           createdAt: nat, lastModified: nat)

  /** The id of a canvas saved at `now`: `canvas-{now}`. */
  function CanvasId(now: nat): string
  {
    "canvas-" + NatToString(now)
  }

  /** Two saves get the same id exactly when they happen in the same
      millisecond. */
  lemma CanvasIdInjective(t: nat, u: nat)
    ensures CanvasId(t) == CanvasId(u) <==> t == u
  {
    assert CanvasId(t)[7..] == NatToString(t);
    assert CanvasId(u)[7..] == NatToString(u);
    NatToStringInjective(t, u);
  }

  /** Some canvas of the catalog has the id. */
  predicate Listed(cs: seq<Canvas>, id: string)
  {
    exists c :: c in cs && c.id == id
  }

  /** The canvas a save at `now` records. */
  function Snapshot(name: string, now: nat, nodes: seq<Node>, edges: seq<Edge>): Canvas
  {
    Canvas(CanvasId(now), name, nodes, edges, now, now)
  }

  /** `[newCanvas, ...canvases]` */
  function Saved(cs: seq<Canvas>, name: string, now: nat, nodes: seq<Node>, edges: seq<Edge>): seq<Canvas>
  {
    [Snapshot(name, now, nodes, edges)] + cs
  }

  /** `canvases.filter(c => c.id !== id)` */
  function Without(cs: seq<Canvas>, id: string): seq<Canvas>
  {
    Filter(cs, (c: Canvas) => c.id != id)
  }

  /** `canvases.map(c => c.id === id ? {...c, name, lastModified: now} : c)`:
      the canvases with the id get the name and the time, and every other
      field and every other canvas is kept, in place. */
  function Renamed(cs: seq<Canvas>, id: string, name: string, now: nat): (r: seq<Canvas>)
    ensures |r| == |cs|
    ensures forall k :: 0 <= k < |cs| ==>
      && r[k].id == cs[k].id && r[k].nodes == cs[k].nodes && r[k].edges == cs[k].edges
      && r[k].createdAt == cs[k].createdAt
    ensures forall k :: 0 <= k < |cs| ==>
      if cs[k].id == id then r[k].name == name && r[k].lastModified == now else r[k] == cs[k]
  {
    Map(cs, (c: Canvas) => if c.id == id then c.(name := name, lastModified := now) else c)
  }

  /** After a delete, exactly the canvases with other ids are listed. */
  lemma WithoutListed(cs: seq<Canvas>, id: string, other: string)
    ensures Listed(Without(cs, id), other) <==> Listed(cs, other) && other != id
  {
    if Listed(Without(cs, id), other) {
      var c :| c in Without(cs, id) && c.id == other;
      FilterMembers(cs, (c: Canvas) => c.id != id, c);
    }
    if Listed(cs, other) && other != id {
      var c :| c in cs && c.id == other;
      FilterMembers(cs, (c: Canvas) => c.id != id, c);
    }
  }

  /** Deleting an id nobody has changes nothing. */
  lemma {:induction false} WithoutAbsent(cs: seq<Canvas>, id: string)
    requires !Listed(cs, id)
    ensures Without(cs, id) == cs
    decreases |cs|
  {
    if cs != [] {
      assert cs[0] in cs;
      assert !Listed(cs[1..], id) by {
        forall c | c in cs[1..] ensures c.id != id {
          assert c in cs;
        }
      }
      WithoutAbsent(cs[1..], id);
    }
  }

  /** Deleting is idempotent. */
  lemma WithoutTwice(cs: seq<Canvas>, id: string)
    ensures Without(Without(cs, id), id) == Without(cs, id)
  {
    WithoutListed(cs, id, id);
    WithoutAbsent(Without(cs, id), id);
  }

  /** Saving and then deleting the new canvas restores the catalog, when no
      earlier canvas was saved in the same millisecond. */
  lemma SaveThenDelete(cs: seq<Canvas>, name: string, now: nat, nodes: seq<Node>, edges: seq<Edge>)
    requires !Listed(cs, CanvasId(now))
    ensures Without(Saved(cs, name, now, nodes, edges), CanvasId(now)) == cs
  {
    var s := Saved(cs, name, now, nodes, edges);
    assert s[0].id == CanvasId(now) && s[1..] == cs;
    WithoutAbsent(cs, CanvasId(now));
  }

  /** Ids are only unique per millisecond: two saves in the same millisecond
      share an id, and deleting one deletes both. */
  lemma SameInstantSaves(cs: seq<Canvas>, a: string, b: string, now: nat, nodes: seq<Node>, edges: seq<Edge>)
    ensures var s := Saved(Saved(cs, a, now, nodes, edges), b, now, nodes, edges);
      s[0].id == s[1].id && Without(s, CanvasId(now)) == Without(cs, CanvasId(now))
  {
    var s1 := Saved(cs, a, now, nodes, edges);
    var s := Saved(s1, b, now, nodes, edges);
    var id := CanvasId(now);
    assert s1[0].id == id && s1[1..] == cs;
    assert s[0].id == id && s[1..] == s1;
    assert Without(s, id) == Without(s1, id);
    assert Without(s1, id) == Without(cs, id);
  }

  /** Renaming keeps the set of listed ids. */
  lemma RenamedListed(cs: seq<Canvas>, id: string, name: string, now: nat, other: string)
    ensures Listed(Renamed(cs, id, name, now), other) <==> Listed(cs, other)
  {
    var r := Renamed(cs, id, name, now);
    if Listed(r, other) {
      var c :| c in r && c.id == other;
      var k :| 0 <= k < |r| && r[k] == c;
      assert cs[k] in cs && cs[k].id == other;
    }
    if Listed(cs, other) {
      var c :| c in cs && c.id == other;
      var k :| 0 <= k < |cs| && cs[k] == c;
      assert r[k] in r && r[k].id == other;
    }
  }

  /** Renaming an id nobody has changes nothing. */
  lemma RenameAbsent(cs: seq<Canvas>, id: string, name: string, now: nat)
    requires !Listed(cs, id)
    ensures Renamed(cs, id, name, now) == cs
  {
    var r := Renamed(cs, id, name, now);
    forall k | 0 <= k < |cs| ensures r[k] == cs[k] {
      assert cs[k] in cs;
    }
  }

  /** The later of two renames of one canvas wins. */
  lemma RenameTwice(cs: seq<Canvas>, id: string, a: string, t: nat, b: string, u: nat)
    ensures Renamed(Renamed(cs, id, a, t), id, b, u) == Renamed(cs, id, b, u)
  {
    var once := Renamed(cs, id, a, t);
    var twice := Renamed(once, id, b, u);
    var direct := Renamed(cs, id, b, u);
    forall k | 0 <= k < |cs| ensures twice[k] == direct[k] {
      if cs[k].id == id {
        assert twice[k] == cs[k].(name := b, lastModified := u);
      }
    }
  }

  /** Deleting a renamed canvas is deleting the canvas. */
  lemma {:induction false} DeleteRenamed(cs: seq<Canvas>, id: string, name: string, now: nat)
    ensures Without(Renamed(cs, id, name, now), id) == Without(cs, id)
    decreases |cs|
  {
    if cs != [] {
      var r := Renamed(cs, id, name, now);
      assert r[1..] == Renamed(cs[1..], id, name, now);
      DeleteRenamed(cs[1..], id, name, now);
    }
  }

  /** The storage after a catalog change: written only while the catalog is
      non-empty, so an emptied catalog leaves the last stored one. */
  function Persisted(stored: Option<seq<Canvas>>, cs: seq<Canvas>): (r: Option<seq<Canvas>>)
    ensures r == stored <==> cs == [] || stored == Some(cs)
  {
    if |cs| > 0 then Some(cs) else stored
  }

  /** The catalog read at start-up: the stored one, or none. */
  function Restored(stored: Option<seq<Canvas>>): seq<Canvas>
  {
    if stored.Some? then stored.value else []
  }

  /** A non-empty catalog is read back as it was written. */
  lemma PersistRoundTrip(stored: Option<seq<Canvas>>, cs: seq<Canvas>)
    requires cs != []
    ensures Restored(Persisted(stored, cs)) == cs
  {
  }

  /** Deleting the only canvas is not persisted: after a reload it is back. */
  lemma LastDeleteReturns(stored: Option<seq<Canvas>>, c: Canvas)
    ensures var after := Persisted(Persisted(stored, [c]), Without([c], c.id));
      Without([c], c.id) == [] && Restored(after) == [c]
  {
    assert Without([c], c.id) == [] by {
      assert [c][1..] == [];
    }
  }

  /** New canvas asks first only when the graph has more than the seed node
      or any edge. */
  predicate NeedsConfirmation(nodes: seq<Node>, edges: seq<Edge>)
  {
    |nodes| > 1 || |edges| > 0
  }

  /** The panel's state fields. */
  datatype PanelState = PanelState(
    isOpen: bool,
    canvases: seq<Canvas>,
    saveDialogOpen: bool,
    canvasName: string,
    activeCanvasId: Option<string>,
    editingCanvasId: Option<string>,
    editCanvasName: string,
    stored: Option<seq<Canvas>>)

  /** The component: its state fields, and `stored` for the browser storage
      entry the catalog is written to. */
  class WorkspacePanel {
    var isOpen: bool
    var canvases: seq<Canvas>
    var saveDialogOpen: bool
    var canvasName: string
    var activeCanvasId: Option<string>
    var editingCanvasId: Option<string>
    var editCanvasName: string
    var stored: Option<seq<Canvas>>

    function State(): PanelState
      reads this
    {
      PanelState(isOpen, canvases, saveDialogOpen, canvasName, activeCanvasId, editingCanvasId, editCanvasName, stored)
    }

    /** The active canvas, if any, is in the catalog, and a non-empty catalog
        is what the storage holds. */
    ghost predicate Valid()
      reads this
    {
      && (activeCanvasId.Some? ==> Listed(canvases, activeCanvasId.value))
      && (canvases != [] ==> stored == Some(canvases))
    }

    /** Mounting: everything closed and empty, the catalog read from the
        storage. */
    constructor (saved: Option<seq<Canvas>>)
      ensures State() == PanelState(false, Restored(saved), false, "", None, None, "", saved)
      ensures Valid()
    {
      isOpen, saveDialogOpen := false, false;
      canvases := Restored(saved);
      canvasName, editCanvasName := "", "";
      activeCanvasId, editingCanvasId := None, None;
      stored := saved;
    }

    /** The toggle button opens or closes the panel. */
    method Toggle()
      requires Valid()
      modifies this
      ensures State() == old(State()).(isOpen := !old(isOpen))
      ensures Valid()
    {
      isOpen := !isOpen;
    }

    /** The save button opens the dialog; its Cancel button and its backdrop close it. */
    method SetSaveDialog(open: bool)
      requires Valid()
      modifies this
      ensures State() == old(State()).(saveDialogOpen := open)
      ensures Valid()
    {
      saveDialogOpen := open;
    }

    /** Typing in the save dialog. */
    method SetCanvasName(name: string)
      requires Valid()
      modifies this
      ensures State() == old(State()).(canvasName := name)
      ensures Valid()
    {
      canvasName := name;
    }

    /** Typing in the rename field. */
    method SetEditName(name: string)
      requires Valid()
      modifies this
      ensures State() == old(State()).(editCanvasName := name)
      ensures Valid()
    {
      editCanvasName := name;
    }

    /** `handleSaveCanvas` at time `now`: a blank name does nothing; otherwise
        the snapshot of the current graph under the trimmed name goes first,
        becomes the active canvas, and the dialog closes and clears. */
    method SaveCanvas(now: nat, currentNodes: seq<Node>, currentEdges: seq<Edge>)
      requires Valid()
      modifies this
      ensures Trim(old(canvasName)) == [] ==> State() == old(State())
      ensures Trim(old(canvasName)) != [] ==>
        var cs := Saved(old(canvases), Trim(old(canvasName)), now, currentNodes, currentEdges);
        State() == old(State()).(canvases := cs, activeCanvasId := Some(CanvasId(now)),
                                 canvasName := "", saveDialogOpen := false, stored := Some(cs))
      ensures Valid()
    {
      var name := Trim(canvasName);
      if name == [] {
        return;
      }
      var cs := Saved(canvases, name, now, currentNodes, currentEdges);
      assert cs[0] in cs;
      canvases := cs;
      activeCanvasId := Some(CanvasId(now));
      canvasName := "";
      saveDialogOpen := false;
      stored := Persisted(stored, canvases);
    }

    /** `handleLoadCanvas`: hands back the canvas's nodes and edges, marks it
        active and closes the panel; the catalog is not touched. */
    method LoadCanvas(canvas: Canvas) returns (nodes: seq<Node>, edges: seq<Edge>)
      requires Valid()
      modifies this
      ensures nodes == canvas.nodes && edges == canvas.edges
      ensures State() == old(State()).(activeCanvasId := Some(canvas.id), isOpen := false)
      ensures Listed(canvases, canvas.id) ==> Valid()
    {
      nodes, edges := canvas.nodes, canvas.edges;
      activeCanvasId := Some(canvas.id);
      isOpen := false;
    }

    /** `handleDeleteCanvas` with the user's answer to the confirmation: on
        yes, every canvas with the id goes, and the active mark with it when
        it was that canvas. */
    method DeleteCanvas(id: string, confirmed: bool)
      requires Valid()
      modifies this
      ensures !confirmed ==> State() == old(State())
      ensures confirmed ==>
        var cs := Without(old(canvases), id);
        State() == old(State()).(canvases := cs,
                                 activeCanvasId := if old(activeCanvasId) == Some(id) then None else old(activeCanvasId),
                                 stored := Persisted(old(stored), cs))
      ensures Valid()
    {
      if !confirmed {
        return;
      }
      if activeCanvasId.Some? {
        WithoutListed(canvases, id, activeCanvasId.value);
      }
      canvases := Without(canvases, id);
      if activeCanvasId == Some(id) {
        activeCanvasId := None;
      }
      stored := Persisted(stored, canvases);
    }

    /** `handleStartEdit`: the rename field opens on the canvas with its
        current name. */
    method StartEdit(canvas: Canvas)
      requires Valid()
      modifies this
      ensures State() == old(State()).(editingCanvasId := Some(canvas.id), editCanvasName := canvas.name)
      ensures Valid()
    {
      editingCanvasId := Some(canvas.id);
      editCanvasName := canvas.name;
    }

    /** `handleSaveEdit` at time `now`: a blank name does nothing; otherwise
        the canvases with the id take the trimmed name and the time, and the
        rename field closes. */
    method SaveEdit(canvasId: string, now: nat)
      requires Valid()
      modifies this
      ensures Trim(old(editCanvasName)) == [] ==> State() == old(State())
      ensures Trim(old(editCanvasName)) != [] ==>
        var cs := Renamed(old(canvases), canvasId, Trim(old(editCanvasName)), now);
        State() == old(State()).(canvases := cs, editingCanvasId := None, editCanvasName := "",
                                 stored := Persisted(old(stored), cs))
      ensures Valid()
    {
      var name := Trim(editCanvasName);
      if name == [] {
        return;
      }
      if activeCanvasId.Some? {
        RenamedListed(canvases, canvasId, name, now, activeCanvasId.value);
      }
      canvases := Renamed(canvases, canvasId, name, now);
      editingCanvasId := None;
      editCanvasName := "";
      stored := Persisted(stored, canvases);
    }

    /** `handleCancelEdit`: the rename field closes and clears. */
    method CancelEdit()
      requires Valid()
      modifies this
      ensures State() == old(State()).(editingCanvasId := None, editCanvasName := "")
      ensures Valid()
    {
      editingCanvasId := None;
      editCanvasName := "";
    }

    /** `handleNewCanvas` with the user's answer, asked only when the graph
        holds work: `reset` says whether the graph is to be reset, and then
        the active mark clears and the panel closes. */
    method NewCanvas(currentNodes: seq<Node>, currentEdges: seq<Edge>, confirmed: bool) returns (reset: bool)
      requires Valid()
      modifies this
      ensures reset <==> !NeedsConfirmation(currentNodes, currentEdges) || confirmed
      ensures reset ==> State() == old(State()).(activeCanvasId := None, isOpen := false)
      ensures !reset ==> State() == old(State())
      ensures Valid()
    {
      reset := !NeedsConfirmation(currentNodes, currentEdges) || confirmed;
      if reset {
        activeCanvasId := None;
        isOpen := false;
      }
    }
  }
}
