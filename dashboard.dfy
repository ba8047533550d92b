/**
 * The dashboard's state and the handlers that move between its dialogs
 * (the `App` component of src/App.js). Each workflow and history state cell
 * is a field of App (the clock-valued `lastUpdated` is not modelled, and the feed's reading
 * lives in module Telemetry), each
 * handler a method; the conditions under which the view renders
 * a dialog or enables a button become preconditions, and Valid() is the
 * invariant every handler keeps.
 */
module Dashboard {
  import opened Wrappers
  import opened Tickets
  import History

  /** The `modal` cell: null (Closed), 'send', 'ticket', 'resolve', 'pickTicketForTicket' or 'pickTicketForResolve'. */
  datatype Modal = Closed | SendAlert | ViewTicket | ResolveTicket | PickTicketForTicket | PickTicketForResolve

  /** What the Send Alert form submits; only its text reaches the toast. */
  datatype AlertPayload = AlertPayload(zone: string, kind: string, severity: string, msg: string)

  /** A snapshot of every state cell, for saying what a handler leaves alone. */
  datatype Cells = Cells(
    tickets: seq<Ticket>,
    selectedTicketId: Option<string>,
    modal: Modal,
    pickerTempId: Option<string>,
    pickerNotes: string,
    resolveInitialNotes: string,
    toast: Option<string>,
    tempHist: seq<real>)

  /** JavaScript truthiness of a nullable id: null and '' are both falsy. */
  predicate Truthy(id: Option<string>) {
    id.Some? && id.value != ""
  }

  function SendToast(p: AlertPayload): string {
    "Alert sent: " + p.severity + " in " + p.zone + " \U{2014} " + p.kind
  }

  function ResolveToast(ticketId: string, notes: string): string {
    "Ticket #" + ticketId + " marked resolved. " + (if notes != "" then "Notes: " + notes else "")
  }

  class App {
    var tickets: seq<Ticket>
    var selectedTicketId: Option<string>
    var modal: Modal
    var pickerTempId: Option<string>
    var pickerNotes: string
    var resolveInitialNotes: string
    var toast: Option<string>
    var tempHist: seq<real>

    function State(): Cells
      reads this
    {
      Cells(tickets, selectedTicketId, modal, pickerTempId, pickerNotes, resolveInitialNotes, toast, tempHist)
    }

    /**
     * Ids are non-empty and unique, every id held in a cell names a ticket,
     * the ticket and resolve dialogs are only open with a ticket selected,
     * and the history holds at most 30 readings.
     */
    ghost predicate Valid()
      reads this
    {
      && WellFormed(tickets)
      && (selectedTicketId.Some? ==> HasId(tickets, selectedTicketId.value))
      && (pickerTempId.Some? ==> HasId(tickets, pickerTempId.value))
      && (modal == ViewTicket || modal == ResolveTicket ==> selectedTicketId.Some?)
      && |tempHist| <= History.Window
    }

    /** `selectedTicket`: the ticket the selected id names, when an id is set. */
    function SelectedTicket(): (t: Option<Ticket>)
      reads this
      ensures t.Some? ==> t.value in tickets && selectedTicketId == Some(t.value.id)
      ensures Valid() ==> (t.Some? <==> selectedTicketId.Some?)
    {
      if Truthy(selectedTicketId) then
        var r := FindById(tickets, selectedTicketId.value);
        assert r.Some? ==> r.value in tickets;
        r
      else None
    }

    /** The picker's Continue button is enabled exactly when a ticket is picked. */
    function CanContinue(): (enabled: bool)
      reads this
      ensures Valid() ==> (enabled <==> pickerTempId.Some?)
    {
      Truthy(pickerTempId)
    }

    /**
     * The ticket and resolve dialogs render only when a ticket is selected;
     * in every valid state with one of them open, it renders.
     */
    lemma GuardedDialogsRender()
      requires Valid()
      ensures modal == ViewTicket || modal == ResolveTicket ==> SelectedTicket().Some?
    {
    }

    /** The state on first render: the seeded tickets, nothing open, nothing selected, an empty history. */
    constructor ()
      ensures Valid()
      ensures State() == Cells(Seed, None, Closed, None, "", "", None, [])
    {
      tickets := Seed;
      selectedTicketId := None;
      modal := Closed;
      pickerTempId := None;
      pickerNotes := "";
      resolveInitialNotes := "";
      toast := None;
      tempHist := [];
    }

    /**
     * `open(m)`. It is called for 'send' from the quick actions, for
     * 'resolve' from inside the ticket dialog, which renders only with a
     * selected ticket, and by the handlers below.
     */
    method Open(m: Modal)
      requires Valid()
      requires m == ViewTicket || m == ResolveTicket ==> SelectedTicket().Some?
      modifies this
      ensures Valid()
      ensures State() == old(State()).(modal := m)
    {
      modal := m;
    }

    /** `close()`: every way out of a dialog. Only `modal` changes, so closing twice is closing once. */
    method Close()
      requires Valid()
      modifies this
      ensures Valid()
      ensures State() == old(State()).(modal := Closed)
      ensures old(modal) == Closed ==> State() == old(State())
    {
      modal := Closed;
    }

    /** `handleSend`: close the dialog and show the alert's toast. */
    method HandleSend(payload: AlertPayload)
      requires Valid()
      modifies this
      ensures Valid()
      ensures State() == old(State()).(modal := Closed, toast := Some(SendToast(payload)))
    {
      Close();
      toast := Some(SendToast(payload));
    }

    /**
     * `handleResolve`: mark the ticket Resolved, close the dialog, show the
     * toast. The notes only reach the toast. `confirmed` is the dialog's
     * checkbox: its button is disabled until it is ticked.
     */
    method HandleResolve(ticketId: string, notes: string, confirmed: bool)
      requires Valid()
      requires confirmed
      modifies this
      ensures Valid()
      ensures State() == old(State()).(tickets := MarkResolved(old(tickets), ticketId),
                                       modal := Closed,
                                       toast := Some(ResolveToast(ticketId, notes)))
    {
      MarkResolvedKeepsIds(tickets, ticketId, ticketId);
      var before := tickets;
      tickets := MarkResolved(tickets, ticketId);
      forall id | true ensures HasId(tickets, id) <==> HasId(before, id) {
        MarkResolvedKeepsIds(before, ticketId, id);
      }
      Close();
      toast := Some(ResolveToast(ticketId, notes));
    }

    /** The resolve dialog's "Mark as Resolved" button: it resolves the selected ticket. */
    method ConfirmResolve(notes: string, confirmed: bool)
      requires Valid()
      requires modal == ResolveTicket
      requires confirmed
      modifies this
      ensures Valid()
      ensures old(SelectedTicket()).Some?
      ensures State() == old(State()).(tickets := MarkResolved(old(tickets), old(selectedTicketId).value),
                                       modal := Closed,
                                       toast := Some(ResolveToast(old(selectedTicketId).value, notes)))
      ensures FindById(tickets, old(selectedTicketId).value).Some?
      ensures FindById(tickets, old(selectedTicketId).value).value.sev == Resolved
    {
      var t := SelectedTicket().value;
      MarkResolvedFinds(tickets, t.id);
      HandleResolve(t.id, notes, confirmed);
    }

    /** `openViewTicket`: the ticket dialog if one is selected, else the picker with no pick. */
    method OpenViewTicket()
      requires Valid()
      modifies this
      ensures Valid()
      ensures old(SelectedTicket()).Some? ==> State() == old(State()).(modal := ViewTicket)
      ensures old(SelectedTicket()).None? ==>
                State() == old(State()).(pickerTempId := None, modal := PickTicketForTicket)
    {
      if SelectedTicket().Some? {
        Open(ViewTicket);
      } else {
        pickerTempId := None;
        Open(PickTicketForTicket);
      }
    }

    /** `openResolve`: the resolve dialog with empty notes if one is selected, else the resolve picker, cleared. */
    method OpenResolve()
      requires Valid()
      modifies this
      ensures Valid()
      ensures old(SelectedTicket()).Some? ==>
                State() == old(State()).(resolveInitialNotes := "", modal := ResolveTicket)
      ensures old(SelectedTicket()).None? ==>
                State() == old(State()).(pickerTempId := None, pickerNotes := "", modal := PickTicketForResolve)
    {
      if SelectedTicket().Some? {
        resolveInitialNotes := "";
        Open(ResolveTicket);
      } else {
        pickerTempId := None;
        pickerNotes := "";
        Open(PickTicketForResolve);
      }
    }

    /** `handleRowClick`: select the clicked ticket and view it. */
    method HandleRowClick(t: Ticket)
      requires Valid()
      requires t in tickets
      modifies this
      ensures Valid()
      ensures State() == old(State()).(selectedTicketId := Some(t.id), modal := ViewTicket)
      ensures SelectedTicket() == Some(t)
    {
      selectedTicketId := Some(t.id);
      ghost var k :| 0 <= k < |tickets| && tickets[k] == t;
      var found := FindById(tickets, t.id);
      ghost var j :| 0 <= j < |tickets| && tickets[j] == found.value && found.value.id == t.id;
      assert j == k;
      Open(ViewTicket);
    }

    /** The picker's `onSelect`: pick one of the listed tickets. */
    method PickTicket(id: string)
      requires Valid()
      requires HasId(tickets, id)
      modifies this
      ensures Valid()
      ensures State() == old(State()).(pickerTempId := Some(id))
    {
      pickerTempId := Some(id);
    }

    /** The resolve picker's `onNotesChange`. */
    method SetPickerNotes(notes: string)
      requires Valid()
      modifies this
      ensures Valid()
      ensures State() == old(State()).(pickerNotes := notes)
    {
      pickerNotes := notes;
    }

    /** The view picker's `onContinue`: nothing without a pick, else select it and view it. */
    method ContinueToTicket()
      requires Valid()
      modifies this
      ensures Valid()
      ensures !old(CanContinue()) ==> State() == old(State())
      ensures old(CanContinue()) ==>
                State() == old(State()).(selectedTicketId := old(pickerTempId), modal := ViewTicket)
      ensures old(CanContinue()) ==> SelectedTicket().Some? && SelectedTicket().value.id == old(pickerTempId).value
    {
      if !CanContinue() {
        return;
      }
      selectedTicketId := pickerTempId;
      Open(ViewTicket);
    }

    /**
     * The resolve picker's `onContinue`: nothing without a pick, else select
     * it and open the resolve dialog seeded with the picker's notes.
     */
    method ContinueToResolve()
      requires Valid()
      modifies this
      ensures Valid()
      ensures !old(CanContinue()) ==> State() == old(State())
      ensures old(CanContinue()) ==>
                State() == old(State()).(selectedTicketId := old(pickerTempId),
                                         resolveInitialNotes := old(pickerNotes),
                                         modal := ResolveTicket)
      ensures old(CanContinue()) ==> SelectedTicket().Some? && SelectedTicket().value.id == old(pickerTempId).value
    {
      if !CanContinue() {
        return;
      }
      selectedTicketId := pickerTempId;
      resolveInitialNotes := pickerNotes;
      Open(ResolveTicket);
    }

    /**
     * The toast timeout's callback. Earlier timeouts are never cancelled, so
     * whichever fires clears whatever toast is showing then.
     */
    method ExpireToast()
      requires Valid()
      modifies this
      ensures Valid()
      ensures State() == old(State()).(toast := None)
    {
      toast := None;
    }

    /** The effect run for each new temperature: append it to the rolling history. */
    method RecordTemp(temp: real)
      requires Valid()
      modifies this
      ensures Valid()
      ensures State() == old(State()).(tempHist := History.Push(old(tempHist), temp))
      ensures tempHist[|tempHist| - 1] == temp
    {
      tempHist := History.Push(tempHist, temp);
    }
  }

  /**
   * Resolving with no ticket selected: the picker opens, ticket 1033 is
   * picked and confirmed, and the store then holds it as Resolved.
   */
  method ResolveThroughPicker()
  {
    var app := new App();
    app.OpenResolve();
    assert app.modal == PickTicketForResolve;
    assert HasId(app.tickets, "1033") by { assert app.tickets[1].id == "1033"; }
    app.PickTicket("1033");
    app.ContinueToResolve();
    assert app.modal == ResolveTicket && app.selectedTicketId == Some("1033");
    app.ConfirmResolve("", true);
    assert app.modal == Closed;
    assert FindById(app.tickets, "1033").value.sev == Resolved;
  }

  /**
   * "Resolve This Ticket" opens the resolve dialog without clearing
   * `resolveInitialNotes`, so notes typed in an earlier resolve picker seed
   * the dialog for a different ticket.
   */
  method StaleResolveNotes()
  {
    var app := new App();
    app.OpenResolve();
    app.SetPickerNotes("fan replaced");
    assert HasId(app.tickets, "1033") by { assert app.tickets[1].id == "1033"; }
    app.PickTicket("1033");
    app.ContinueToResolve();
    app.Close();
    var first := app.tickets[0];
    app.HandleRowClick(first);
    app.Open(ResolveTicket);
    assert app.SelectedTicket().value.id == "1032";
    assert app.resolveInitialNotes == "fan replaced";
  }
}
