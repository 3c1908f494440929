/** The in-memory forwarding device: prepare, commit and roll back route transactions, with health
    and faults injected at every call. */
module Device {
  import opened Basics
  import opened Fabric

  datatype Fault = NoFault | HealthFault | PrepareFault | CommitFault | StateFault

  datatype Transaction = Transaction(share: seq<Route>, previous: seq<Route>, previousId: string)

  /** The whole state of a device. */
  datatype View = View(routes: seq<Route>, applied: string, prepared: map<string, Transaction>,
                       history: map<string, Transaction>)

  /** A device with the transaction `id` open. */
  function Opened(v: View, id: string, share: seq<Route>): View {
    v.(prepared := v.prepared[id := Transaction(share, v.routes, v.applied)])
  }

  /** The same device after committing it. */
  function Switched(v: View, id: string, share: seq<Route>): View {
    View(SortRoutes(share), id, v.prepared, v.history[id := Transaction([], v.routes, v.applied)])
  }

  /** What preparing a plan makes of a device. */
  function AfterPrepare(v: View, id: string, share: seq<Route>): View {
    if id == v.applied || id in v.prepared then v else Opened(v, id, share)
  }

  /** What committing a plan makes of a device. */
  function AfterCommit(v: View, id: string): View {
    if id == v.applied || id !in v.prepared then v else
      var tx := v.prepared[id];
      View(SortRoutes(tx.share), id, v.prepared - {id}, v.history[id := Transaction([], tx.previous, tx.previousId)])
  }

  /** What rolling back `id` leaves behind. */
  function Undone(v: View, id: string): View {
    if id in v.prepared then v.(routes := v.prepared[id].previous, prepared := v.prepared - {id})
    else if id in v.history then
      View(v.history[id].previous, if v.applied == id then v.history[id].previousId else v.applied, v.prepared,
           v.history - {id})
    else v
  }

  /** What devices were asked and answered: an attempt to commit, or the state that was read. */
  datatype Entry =
    | Commits(name: string, id: string, ok: bool)
    | Reads(name: string, routes: seq<Route>, applied: string)

  /** A log that several devices share, so that it shows the order of their entries. */
  class Journal {
    ghost var log: seq<Entry>

    constructor ()
      ensures log == []
    {
      log := [];
    }
  }

  class MemoryDevice {
    const name: string
    ghost const journal: Journal
    var routes: seq<Route>
    var applied: string
    var prepared: map<string, Transaction>
    var history: map<string, Transaction>

    constructor (name: string, ghost journal: Journal)
      ensures this.name == name && this.journal == journal && Now() == View([], "", map[], map[])
    {
      this.name, this.journal := name, journal;
      routes, applied, prepared, history := [], "", map[], map[];
    }

    ghost function Now(): View
      reads this
    {
      View(routes, applied, prepared, history)
    }

    method Health(healthy: bool, fault: Fault) returns (ok: bool)
      ensures ok <==> healthy && fault != HealthFault
    {
      ok := healthy && fault != HealthFault;
    }

    /** Open a transaction. A plan that is already applied, or already prepared, needs none. */
    method Prepare(id: string, share: seq<Route>, healthy: bool, fault: Fault) returns (ok: bool)
      modifies this
      ensures ok <==> healthy && fault != PrepareFault && id != "" &&
                      (id == old(applied) || id in old(prepared) || forall r :: r in share ==> r.device == name)
      ensures Now() == if ok then AfterPrepare(old(Now()), id, share) else old(Now())
    {
      if !healthy || fault == PrepareFault || id == "" {
        return false;
      }
      if id == applied || id in prepared {
        return true;
      }
      for i := 0 to |share|
        invariant forall k :: 0 <= k < i ==> share[k].device == name
      {
        if share[i].device != name {
          return false;
        }
      }
      prepared := prepared[id := Transaction(share, routes, applied)];
      return true;
    }

    /** Switch to the prepared routes and remember what they replaced. */
    method Commit(id: string, healthy: bool, fault: Fault) returns (ok: bool)
      modifies this, journal
      ensures journal.log == old(journal.log) + [Commits(name, id, ok)]
      ensures ok <==> healthy && (id == old(applied) || (fault != CommitFault && id in old(prepared)))
      ensures Now() == if ok then AfterCommit(old(Now()), id) else old(Now())
    {
      if !healthy {
        journal.log := journal.log + [Commits(name, id, false)];
        return false;
      }
      if id == applied {
        journal.log := journal.log + [Commits(name, id, true)];
        return true;
      }
      if fault == CommitFault || id !in prepared {
        journal.log := journal.log + [Commits(name, id, false)];
        return false;
      }
      journal.log := journal.log + [Commits(name, id, true)];
      var tx := prepared[id];
      history := history[id := Transaction([], tx.previous, tx.previousId)];
      routes := SortRoutes(tx.share);
      applied := id;
      prepared := prepared - {id};
      return true;
    }

    method Rollback(id: string)
      modifies this
      ensures Now() == Undone(old(Now()), id)
    {
      if id in prepared {
        routes := prepared[id].previous;
        prepared := prepared - {id};
        return;
      }
      if id in history {
        var tx := history[id];
        routes := tx.previous;
        history := history - {id};
        if applied == id {
          applied := tx.previousId;
        }
      }
    }

    method State(fault: Fault) returns (r: Option<(seq<Route>, string)>)
      modifies journal
      ensures r.Some? <==> fault != StateFault
      ensures r.Some? ==> r.value == (routes, applied)
      ensures journal.log == old(journal.log) + if r.Some? then [Reads(name, routes, applied)] else []
    {
      if fault != StateFault {
        journal.log := journal.log + [Reads(name, routes, applied)];
      }
      r := if fault == StateFault then None else Some((routes, applied));
    }
  }

  /** Preparing and committing a plan that is not applied, on a device without open transactions. */
  lemma CommitAfterPrepare(v: View, id: string, share: seq<Route>)
    requires v.prepared == map[] && v.applied != id
    ensures AfterPrepare(v, id, share) == Opened(v, id, share)
    ensures AfterCommit(AfterPrepare(v, id, share), id) == Switched(v, id, share)
  {
    assert Opened(v, id, share).prepared - {id} == map[];
  }

  /** Rolling back an open transaction restores the device exactly. */
  lemma UndoOpened(v: View, id: string, share: seq<Route>)
    requires v.prepared == map[]
    ensures Undone(Opened(v, id, share), id) == v
  {
    assert Opened(v, id, share).prepared - {id} == map[];
  }

  /** Rolling back a committed one restores the routes and the applied plan. */
  lemma UndoSwitched(v: View, id: string, share: seq<Route>)
    requires v.prepared == map[]
    ensures var u := Undone(Switched(v, id, share), id);
            u.routes == v.routes && u.applied == v.applied && u.prepared == map[]
  {
  }

  /** A call that finds plan `id` already applied opens no transaction, so rolling it back steps to
      the plan before. The device is as before exactly when that step changes nothing. */
  lemma UndoAlreadyApplied(v: View, id: string)
    requires v.prepared == map[] && v.applied == id
    ensures (Undone(v, id).routes == v.routes && Undone(v, id).applied == v.applied) <==>
            (id in v.history ==> v.history[id].previous == v.routes && v.history[id].previousId == id)
  {
  }

  /** One such rollback: the device returns to the empty table it had before plan "p". */
  lemma RollbackStepsBack(r: Route)
    ensures var v := Switched(View([], "", map[], map[]), "p", [r]);
            v.applied == "p" && Undone(v, "p").routes == [] && Undone(v, "p").applied == "" && v.routes == [r]
  {
    assert SortRoutes([r]) == [r] by {
      assert [r][..0] == [];
    }
  }
}
