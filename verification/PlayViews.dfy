/** The connections that share a play view, and what it learns when they go. */
module PlayViews {

  /** The ids attached, and for each time nobody was left, whether the last departure was graceful. */
  datatype Group = Group(members: set<int>, ended: seq<bool>)

  datatype Departure = Departure(id: int, graceful: bool)

  function Leave(g: Group, d: Departure): Group {
    var rest := g.members - {d.id};
    Group(rest, if rest == {} then g.ended + [d.graceful] else g.ended)
  }

  function LeaveAll(g: Group, ds: seq<Departure>): Group {
    if ds == [] then g else Leave(LeaveAll(g, ds[..|ds| - 1]), ds[|ds| - 1])
  }

  lemma {:induction false} LeaveAllAppend(g: Group, a: seq<Departure>, b: seq<Departure>)
    ensures LeaveAll(g, a + b) == LeaveAll(LeaveAll(g, a), b)
  {
    if b == [] {
      assert a + b == a;
    } else {
      LeaveAllAppend(g, a, b[..|b| - 1]);
      assert (a + b)[..|a + b| - 1] == a + b[..|b| - 1];
    }
  }

  ghost predicate Leaves(ds: seq<Departure>, id: int) {
    exists i :: 0 <= i < |ds| && ds[i].id == id
  }

  lemma LeavesSnoc(ds: seq<Departure>, id: int)
    requires ds != []
    ensures Leaves(ds, id) <==> Leaves(ds[..|ds| - 1], id) || ds[|ds| - 1].id == id
  {
    var n := |ds| - 1;
    if i :| 0 <= i < |ds| && ds[i].id == id {
      assert i < n ==> ds[..n][i].id == id;
    }
    if i :| 0 <= i < n && ds[..n][i].id == id {
      assert ds[i].id == id;
    }
  }

  /** Nobody but the departed leaves. */
  lemma {:induction false} LeaveAllMembers(g: Group, ds: seq<Departure>, id: int)
    ensures id in LeaveAll(g, ds).members <==> id in g.members && !Leaves(ds, id)
  {
    if ds != [] {
      LeaveAllMembers(g, ds[..|ds| - 1], id);
      LeavesSnoc(ds, id);
    }
  }

  /** Departures are of different members. */
  ghost predicate Orderly(g: Group, ds: seq<Departure>) {
    && (forall i | 0 <= i < |ds| :: ds[i].id in g.members)
    && (forall i, k | 0 <= i < k < |ds| :: ds[i].id != ds[k].id)
  }

  /** When different members leave, the view learns of the end exactly once, from the last of them, and only
      if all have left. */
  lemma {:induction false} EndsOnce(g: Group, ds: seq<Departure>)
    requires Orderly(g, ds)
    ensures LeaveAll(g, ds).ended ==
            g.ended + if ds != [] && LeaveAll(g, ds).members == {} then [ds[|ds| - 1].graceful] else []
  {
    if ds == [] {
      assert g.ended + [] == g.ended;
    } else {
      var n := |ds| - 1;
      var init := ds[..n];
      EndsOnce(g, init);
      LeaveAllMembers(g, init, ds[n].id);
      assert ds[n].id in LeaveAll(g, init).members;
      assert g.ended + [] == g.ended;
    }
  }

  class PlayView {
    var conns: set<int>
    ghost var ended: seq<bool>

    ghost function View(): Group
      reads this
    {
      Group(conns, ended)
    }

    constructor (conns: set<int>)
      ensures View() == Group(conns, [])
    {
      this.conns, ended := conns, [];
    }

    method OnConnectionClosed(connId: int)
      modifies this
      ensures View() == Leave(old(View()), Departure(connId, true))
    {
      conns := conns - {connId};
      if conns == {} {
        HandleLostLastConnection(true);
      }
    }

    method OnConnectionLost(connId: int)
      modifies this
      ensures View() == Leave(old(View()), Departure(connId, false))
    {
      conns := conns - {connId};
      if conns == {} {
        HandleLostLastConnection(false);
      }
    }

    method HandleLostLastConnection(graceful: bool)
      modifies this`ended
      ensures ended == old(ended) + [graceful]
    {
      ended := ended + [graceful];
    }
  }
}
