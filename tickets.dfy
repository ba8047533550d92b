/**
 * The incident tickets the dashboard lists (src/App.js): records with a
 * severity that the resolve workflow rewrites to Resolved, looked up by id.
 */
module Tickets {
  import opened Wrappers

  datatype Severity = Emergency | Warning | Safe | Resolved

  /** A ticket; `kind` is the record's `type` field. */
  datatype Ticket = Ticket(id: string, kind: string, sev: Severity, time: string, assignee: string, details: string)

  /** The two mock tickets the store starts with. */
  const Seed: seq<Ticket> := [
    Ticket("1032", "High Temp", Emergency, "9:41 AM", "Alex",
           "Zone C temperature exceeded 95\U{00B0}F near condenser. Suggested actions: inspect fan, verify filter door, confirm airflow."),
    Ticket("1033", "High Humidity", Warning, "9:30 AM", "Sam",
           "Zone B humidity spike after filter maintenance. Monitor for 30 minutes.")
  ]

  predicate HasId(ts: seq<Ticket>, id: string) {
    exists i :: 0 <= i < |ts| && ts[i].id == id
  }

  /** Every id is a non-empty string and no two tickets share one. */
  predicate WellFormed(ts: seq<Ticket>) {
    && (forall i :: 0 <= i < |ts| ==> ts[i].id != "")
    && (forall i, j :: 0 <= i < j < |ts| ==> ts[i].id != ts[j].id)
  }

  /** `tickets.find((t) => t.id === id)`: the first ticket with that id. */
  function FindById(ts: seq<Ticket>, id: string): (r: Option<Ticket>)
    ensures r.Some? <==> HasId(ts, id)
    ensures r.Some? ==> exists k :: 0 <= k < |ts| && ts[k] == r.value && r.value.id == id && !HasId(ts[..k], id)
  {
    if ts == [] then None
    else if ts[0].id == id then
      assert ts[..0] == [];
      Some(ts[0])
    else
      var r := FindById(ts[1..], id);
      assert HasId(ts, id) ==> HasId(ts[1..], id) by {
        if HasId(ts, id) {
          var i :| 0 <= i < |ts| && ts[i].id == id;
          assert ts[1..][i - 1].id == id;
        }
      }
      if r.Some? then
        assert exists k :: 0 <= k < |ts| && ts[k] == r.value && r.value.id == id && !HasId(ts[..k], id) by {
          var k :| 0 <= k < |ts[1..]| && ts[1..][k] == r.value && r.value.id == id && !HasId(ts[1..][..k], id);
          assert ts[..k + 1] == [ts[0]] + ts[1..][..k];
          assert ts[k + 1] == r.value;
        }
        r
      else
        r
  }

  /** a and b are the same ticket in everything but its severity. */
  predicate SameExceptSev(a: Ticket, b: Ticket) {
    a.id == b.id && a.kind == b.kind && a.time == b.time && a.assignee == b.assignee && a.details == b.details
  }

  /**
   * `prev.map((t) => (t.id === ticketId ? { ...t, sev: 'Resolved' } : t))`:
   * the tickets with that id become Resolved, and nothing else changes.
   */
  function MarkResolved(ts: seq<Ticket>, id: string): (r: seq<Ticket>)
    ensures |r| == |ts|
    ensures forall i :: 0 <= i < |ts| ==> SameExceptSev(r[i], ts[i])
    ensures forall i :: 0 <= i < |ts| ==> r[i].sev == if ts[i].id == id then Resolved else ts[i].sev
  {
    if ts == [] then []
    else
      var t := if ts[0].id == id then ts[0].(sev := Resolved) else ts[0];
      [t] + MarkResolved(ts[1..], id)
  }

  /** Resolving an id the store does not hold leaves the store as it was. */
  lemma MarkResolvedUnknownId(ts: seq<Ticket>, id: string)
    requires !HasId(ts, id)
    ensures MarkResolved(ts, id) == ts
  {
    var r := MarkResolved(ts, id);
    forall i | 0 <= i < |ts| ensures r[i] == ts[i] {
      assert ts[i].id != id;
    }
  }

  /** Resolving the same ticket twice gives the same store as resolving it once. */
  lemma MarkResolvedIdempotent(ts: seq<Ticket>, id: string)
    ensures MarkResolved(MarkResolved(ts, id), id) == MarkResolved(ts, id)
  {
    var once := MarkResolved(ts, id);
    var twice := MarkResolved(once, id);
    forall i | 0 <= i < |ts| ensures twice[i] == once[i] {
      assert once[i].id == ts[i].id;
    }
  }

  /** Ids are untouched, so a well-formed store stays well-formed and keeps the same ids. */
  lemma MarkResolvedKeepsIds(ts: seq<Ticket>, id: string, other: string)
    ensures WellFormed(ts) ==> WellFormed(MarkResolved(ts, id))
    ensures HasId(MarkResolved(ts, id), other) <==> HasId(ts, other)
  {
    var r := MarkResolved(ts, id);
    if HasId(ts, other) {
      var i :| 0 <= i < |ts| && ts[i].id == other;
      assert r[i].id == other;
    }
    if HasId(r, other) {
      var i :| 0 <= i < |r| && r[i].id == other;
      assert ts[i].id == other;
    }
  }

  /** After resolving a ticket the store holds, looking it up finds it Resolved; a Resolved ticket stays Resolved. */
  lemma MarkResolvedFinds(ts: seq<Ticket>, id: string)
    ensures HasId(ts, id) ==> FindById(MarkResolved(ts, id), id).Some? && FindById(MarkResolved(ts, id), id).value.sev == Resolved
    ensures forall i :: 0 <= i < |ts| && ts[i].sev == Resolved ==> MarkResolved(ts, id)[i].sev == Resolved
  {
    MarkResolvedKeepsIds(ts, id, id);
    var r := MarkResolved(ts, id);
    if HasId(ts, id) {
      var t := FindById(r, id).value;
      var k :| 0 <= k < |r| && r[k] == t && t.id == id && !HasId(r[..k], id);
      assert ts[k].id == id;
    }
  }
}
