/** Several delete requests for one id racing each other, at the grain of single atomic steps. */
module Deletions {
  import opened Resource
  import opened Machine
  import opened Protocol

  /** The id with its requests; `winner` is the request whose delete kweb accepted. */
  datatype Crowd = Crowd(sys: Sys, requests: seq<DeletePc>, winner: Option<nat>)

  /** Request i takes its next step. kweb deletes a resource once: it refuses to delete what it does not have. */
  function Turn(cfg: Config, c: Crowd, i: nat, kwebOk: bool): Crowd {
    if i >= |c.requests| then c
    else
      var s := HandlerNext(cfg, c.sys.(handler := c.requests[i]), kwebOk && c.sys.inKweb);
      Crowd(s, c.requests[i := s.handler],
            if c.requests[i].Marked? && s.handler.Gone? then Some(i) else c.winner)
  }

  function Turns(cfg: Config, c: Crowd, turns: seq<(nat, bool)>): Crowd {
    if turns == [] then c
    else
      var last := turns[|turns| - 1];
      Turn(cfg, Turns(cfg, c, turns[..|turns| - 1]), last.0, last.1)
  }

  /** Past kweb's acceptance. */
  predicate Past(h: DeletePc) {
    h.Gone? || h.Spoken? || h.Erased? || h.Finished?
  }

  predicate Over(h: DeletePc) {
    h.Finished? || h.Failed? || h.Declined?
  }

  /** The mark this request made may still be in the row. */
  predicate Marking(h: DeletePc) {
    h.Marked? || h.Refused? || h.Gone? || h.Spoken?
  }

  function WinnerPc(c: Crowd): DeletePc
    requires c.winner.Some? ==> c.winner.value < |c.requests|
  {
    if c.winner.Some? then c.requests[c.winner.value] else Start
  }

  ghost predicate Fresh(c: Crowd) {
    && Initial(c.sys) && c.winner.None?
    && (forall i :: 0 <= i < |c.requests| ==> c.requests[i].Start?)
  }

  predicate Was(h: DeletePc, status: string) {
    h.Got? || h.Marked? || h.Refused? ==> h.was.status == status
  }

  /** One winner at most, and the books follow it. */
  ghost predicate Booked(c: Crowd, deleted0: nat, decrements0: nat) {
    && (c.winner.Some? ==> c.winner.value < |c.requests|)
    && (c.sys.inKweb <==> c.winner.None?)
    && (forall i :: 0 <= i < |c.requests| ==> (Past(c.requests[i]) <==> c.winner == Some(i)))
    && (c.sys.slice.row.None? <==> WinnerPc(c).Erased? || WinnerPc(c).Finished?)
    && Decrements(c.sys.slice.notes) == decrements0 + Done(WinnerPc(c))
    && DeletedNotes(c.sys.slice.notes) == deleted0 + Said(WinnerPc(c))
  }

  /** The row is marked, with some request to answer for it, or as it was. */
  ghost predicate MarkedOrAsWas(c: Crowd, status: string) {
    && !Leaving(status)
    && (forall i :: 0 <= i < |c.requests| ==> Was(c.requests[i], status))
    && (c.sys.slice.row.Some? ==> c.sys.slice.row.value.status == status || c.sys.slice.row.value.status == DELETING)
    && (c.sys.slice.row.Some? && c.sys.slice.row.value.status == DELETING ==>
          exists i :: 0 <= i < |c.requests| && Marking(c.requests[i]))
  }

  ghost predicate Orderly(c: Crowd, status: string, deleted0: nat, decrements0: nat) {
    Booked(c, deleted0, decrements0) && MarkedOrAsWas(c, status)
  }

  lemma TurnBooked(cfg: Config, c: Crowd, i: nat, kwebOk: bool, deleted0: nat, decrements0: nat)
    requires Booked(c, deleted0, decrements0)
    ensures Booked(Turn(cfg, c, i, kwebOk), deleted0, decrements0)
  {
    hide DeletedNotes, Decrements;
    if i < |c.requests| {
      CountsSnoc(c.sys.slice.notes, Announced(c.sys.kind, DELETED));
      CountsSnoc(c.sys.slice.notes, Counted(c.sys.kind, -1));
    }
  }

  lemma TurnMarked(cfg: Config, c: Crowd, i: nat, kwebOk: bool, status: string)
    requires MarkedOrAsWas(c, status)
    ensures MarkedOrAsWas(Turn(cfg, c, i, kwebOk), status)
  {
    if i < |c.requests| {
      var d := Turn(cfg, c, i, kwebOk);
      if d.sys.slice.row.Some? && d.sys.slice.row.value.status == DELETING {
        if c.requests[i].Got? {
          assert Marking(d.requests[i]);
        } else {
          var j :| 0 <= j < |c.requests| && Marking(c.requests[j]);
          assert Marking(d.requests[j]);
        }
      }
    }
  }

  lemma {:induction false} OrderlyThroughout(cfg: Config, c: Crowd, turns: seq<(nat, bool)>)
    requires Fresh(c)
    ensures Orderly(Turns(cfg, c, turns), c.sys.slice.row.value.status, DeletedNotes(c.sys.slice.notes),
                    Decrements(c.sys.slice.notes))
  {
    var status := c.sys.slice.row.value.status;
    if turns != [] {
      hide Turn, Booked, MarkedOrAsWas;
      var init, last := turns[..|turns| - 1], turns[|turns| - 1];
      OrderlyThroughout(cfg, c, init);
      var d := Turns(cfg, c, init);
      TurnBooked(cfg, d, last.0, last.1, DeletedNotes(c.sys.slice.notes), Decrements(c.sys.slice.notes));
      TurnMarked(cfg, d, last.0, last.1, status);
    }
  }

  /**
   The handler checks the status and marks the row in two steps, so any number of requests can get past the
   check. Whatever their interleaving, once all are over: if kweb accepted one, the row is gone, DELETED was
   said once and counted once, and no other request deleted anything; if kweb accepted none, nothing was said
   or counted and the row is as it was, status included.
  */
  lemma RacingDeletes(cfg: Config, c: Crowd, turns: seq<(nat, bool)>)
    requires Fresh(c)
    ensures var d := Turns(cfg, c, turns);
            (forall i :: 0 <= i < |d.requests| ==> Over(d.requests[i])) ==>
              && (d.winner.Some? ==>
                    && d.sys.slice.row.None?
                    && DeletedNotes(d.sys.slice.notes) == DeletedNotes(c.sys.slice.notes) + 1
                    && Decrements(d.sys.slice.notes) == Decrements(c.sys.slice.notes) + 1
                    && (forall i :: 0 <= i < |d.requests| ==> (d.requests[i].Finished? <==> d.winner == Some(i))))
              && (d.winner.None? ==>
                    && d.sys.slice.row.Some? && d.sys.slice.row.value.status == c.sys.slice.row.value.status
                    && DeletedNotes(d.sys.slice.notes) == DeletedNotes(c.sys.slice.notes)
                    && Decrements(d.sys.slice.notes) == Decrements(c.sys.slice.notes))
  {
    hide Turns, DeletedNotes, Decrements;
    OrderlyThroughout(cfg, c, turns);
  }
}
