/** The worklist of `interrupt_foreground` (daemon/src/session.rs): the descendants of a process
    in a snapshot of (pid, parent) rows, which may repeat pids and contain cycles. */
module ProcessTree {

  type Pid = nat
  datatype Row = Row(pid: Pid, parent: Pid)

  predicate ChildOf(procs: seq<Row>, parent: Pid, pid: Pid) {
    Row(pid, parent) in procs
  }

  /** `path` leads from its first pid to its last through child edges. */
  predicate IsPath(procs: seq<Row>, path: seq<Pid>) {
    path != [] && forall i :: 0 <= i < |path| - 1 ==> ChildOf(procs, path[i], path[i + 1])
  }

  ghost predicate Reachable(procs: seq<Row>, root: Pid, pid: Pid) {
    exists path :: IsPath(procs, path) && path[0] == root && path[|path| - 1] == pid
  }

  predicate Distinct(s: seq<Pid>) {
    forall i, j :: 0 <= i < j < |s| ==> s[i] != s[j]
  }

  lemma ReachableExtends(procs: seq<Row>, root: Pid, parent: Pid, pid: Pid)
    requires Reachable(procs, root, parent) && ChildOf(procs, parent, pid)
    ensures Reachable(procs, root, pid)
  {
    var path :| IsPath(procs, path) && path[0] == root && path[|path| - 1] == parent;
    var longer := path + [pid];
    assert IsPath(procs, longer) && longer[0] == root && longer[|longer| - 1] == pid;
  }

  lemma RootReachable(procs: seq<Row>, root: Pid)
    ensures Reachable(procs, root, root)
  {
    assert IsPath(procs, [root]);
  }

  /** A set with the root that is closed under children holds everything reachable. */
  lemma {:induction false} ClosedHoldsPath(procs: seq<Row>, closed: set<Pid>, path: seq<Pid>)
    requires IsPath(procs, path) && path[0] in closed
    requires forall r :: r in procs && r.parent in closed ==> r.pid in closed
    ensures path[|path| - 1] in closed
    decreases |path|
  {
    if |path| > 1 {
      var pre := path[..|path| - 1];
      assert IsPath(procs, pre);
      ClosedHoldsPath(procs, closed, pre);
      assert Row(path[|path| - 1], path[|path| - 2]) in procs;
    }
  }

  function Pids(procs: seq<Row>): set<Pid> { set r | r in procs :: r.pid }

  /** The row needs no listing any more. */
  predicate Covered(r: Row, root: Pid, doomed: seq<Pid>) {
    r.pid == root || r.pid in doomed
  }

  /** What the worklist keeps: listed pids are reachable, and only visited pids are queued. */
  ghost predicate Progress(procs: seq<Row>, root: Pid, doomed: seq<Pid>, frontier: seq<Pid>) {
    && Distinct(doomed) && root !in doomed
    && (forall x :: x in doomed ==> Reachable(procs, root, x) && x in Pids(procs))
    && (forall x :: x in frontier ==> x == root || x in doomed)
  }

  /** The visited pids whose children are not all listed yet are on the frontier. */
  ghost predicate Expanded(procs: seq<Row>, root: Pid, doomed: seq<Pid>, frontier: seq<Pid>) {
    forall r :: r in procs && (r.parent == root || r.parent in doomed) && r.parent !in frontier ==>
                  Covered(r, root, doomed)
  }

  function Unlisted(procs: seq<Row>, doomed: seq<Pid>): set<Pid> {
    set x | x in Pids(procs) && x !in doomed
  }

  /** Lists exactly the pids other than the root that are reachable from it, each once; it ends on
      every table, cyclic or with repeated pids. */
  method Doomed(root: Pid, procs: seq<Row>) returns (doomed: seq<Pid>)
    ensures Distinct(doomed)
    ensures forall x :: x in doomed <==> x != root && Reachable(procs, root, x)
  {
    doomed := [];
    var frontier := [root];
    RootReachable(procs, root);
    while frontier != []
      invariant Progress(procs, root, doomed, frontier) && Expanded(procs, root, doomed, frontier)
      decreases |Unlisted(procs, doomed)|, |frontier|
    {
      var p := frontier[|frontier| - 1];
      ghost var before, was := doomed, frontier;
      frontier := frontier[..|frontier| - 1];
      for i := 0 to |procs|
        invariant Progress(procs, root, doomed, frontier)
        invariant before <= doomed
        invariant if doomed == before then frontier == was[..|was| - 1]
                  else |Unlisted(procs, doomed)| < |Unlisted(procs, before)|
        invariant forall j :: 0 <= j < i && procs[j].parent == p ==> Covered(procs[j], root, doomed)
        invariant forall r :: r in procs && r.parent != p && (r.parent == root || r.parent in doomed) ==>
                              r.parent in frontier || Covered(r, root, doomed)
      {
        var r := procs[i];
        if r.parent == p && r.pid != root && r.pid !in doomed {
          assert Reachable(procs, root, p) by { if p == root { RootReachable(procs, root); } }
          ReachableExtends(procs, root, p, r.pid);
          ListOne(procs, doomed, r);
          doomed := doomed + [r.pid];
          frontier := frontier + [r.pid];
        }
      }
    }
    forall x | x != root && Reachable(procs, root, x) ensures x in doomed {
      var path :| IsPath(procs, path) && path[0] == root && path[|path| - 1] == x;
      ClosedHoldsPath(procs, {root} + (set d | d in doomed), path);
    }
  }

  lemma ListOne(procs: seq<Row>, doomed: seq<Pid>, r: Row)
    requires r in procs && r.pid !in doomed
    ensures |Unlisted(procs, doomed + [r.pid])| < |Unlisted(procs, doomed)|
  {
    assert r.pid in Unlisted(procs, doomed);
    assert Unlisted(procs, doomed + [r.pid]) == Unlisted(procs, doomed) - {r.pid};
  }
}
