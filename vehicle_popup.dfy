/** The popup card of one vehicle: its status label, where the card is
    placed, and the communications panel with its expandable notes. */
module VehiclePopup {
  import opened Wrappers
  import opened Lists
  import opened VehicleTracker
  import Sidebar

  /** `statusLabels`: one Spanish label per status. */
  const StatusLabels: map<string, string> := map[
    "active" := "Activo",
    "busy" := "Ocupado",
    "standby" := "En Espera",
    "offline" := "Desconectado",
    "emergency" := "Emergencia"]

  /** The table has an entry for every status, and no other. */
  lemma StatusLabelsTotal()
    ensures StatusLabels.Keys == set st: Status | true :: st.Name()
  {
    assert Active.Name() in StatusLabels.Keys && Busy.Name() in StatusLabels.Keys;
    assert Standby.Name() in StatusLabels.Keys && Offline.Name() in StatusLabels.Keys;
    assert Emergency.Name() in StatusLabels.Keys;
  }

  /** `statusLabels[vehicle.status]`: the same label the side panel's chain
      gives. */
  function PopupStatusLabel(st: Status): (text: string)
    ensures text == Sidebar.StatusLabel(st.Name())
  {
    StatusLabels[st.Name()]
  }

  /** A screen point. */
  datatype Point = Point(x: real, y: real)

  /** Where the card goes: at a point, horizontally centred on it, or fixed in
      the middle of the screen. */
  datatype Placement = Anchored(left: real, top: real) | Centered

  /** `Math.max(y - 200, 10)`: 200 above the point, but never above 10. */
  function AnchoredTop(y: real): (top: real)
    ensures top >= 10.0 && top >= y - 200.0
    ensures top == y - 200.0 <==> y >= 210.0
    ensures top == 10.0 || top == y - 200.0
  {
    if y - 200.0 > 10.0 then y - 200.0 else 10.0
  }

  /** `popupStyle`. */
  function PlacementOf(position: Option<Point>): (p: Placement)
    ensures position.None? <==> p.Centered?
    ensures position.Some? ==> p.left == position.value.x && p.top == AnchoredTop(position.value.y)
  {
    match position
    case Some(pt) => Anchored(pt.x, AnchoredTop(pt.y))
    case None => Centered
  }

  /** What the communications section shows. */
  datatype Panel = Hidden | Placeholder | Entries(entries: seq<Communication>)

  /** Hidden until opened; once open, the placeholder for an empty log and
      the entries otherwise. */
  function PanelOf(show: bool, comms: seq<Communication>): (p: Panel)
    ensures p.Hidden? <==> !show
    ensures p.Placeholder? <==> show && comms == []
    ensures p.Entries? ==> p.entries == comms && comms != []
  {
    if !show then Hidden
    else if |comms| > 0 then Entries(comms)
    else Placeholder
  }

  /** The card's own state. */
  class PopupState {
    var showCommunications: bool
    var expandedNotes: seq<string>

    /** The expanded ids stay duplicate-free. */
    ghost predicate Valid()
      reads this
    {
      NoDuplicates(expandedNotes)
    }

    /** The panel starts closed, with no note expanded. */
    constructor ()
      ensures Valid()
      ensures !showCommunications && expandedNotes == []
    {
      showCommunications := false;
      expandedNotes := [];
    }

    /** The "Registro de Comunicaciones" button. */
    method ToggleCommunications()
      modifies this`showCommunications
      ensures showCommunications == !old(showCommunications)
    {
      showCommunications := !showCommunications;
    }

    /** `toggleNote`: expand the note of commId, or collapse it. */
    method ToggleNote(commId: string)
      requires Valid()
      modifies this`expandedNotes
      ensures Valid()
      ensures expandedNotes == Toggle(old(expandedNotes), commId)
    {
      ToggleNoDuplicates(expandedNotes, commId);
      expandedNotes := Toggle(expandedNotes, commId);
    }

    /** What the section shows for a log. */
    function CurrentPanel(comms: seq<Communication>): Panel
      reads this
    {
      PanelOf(showCommunications, comms)
    }

    /** Whether the note of an entry is shown. */
    predicate NoteShown(c: Communication)
      reads this
    {
      Sidebar.NoteShown(c, expandedNotes)
    }
  }

  /** Every click on the panel button changes what the section shows. */
  lemma PanelToggleChanges(show: bool, comms: seq<Communication>)
    ensures PanelOf(!show, comms) != PanelOf(show, comms)
    ensures PanelOf(!show, comms).Hidden? <==> !PanelOf(show, comms).Hidden?
  {
  }
}
