/** Window swallowing: the `client_new` and `client_killed` hooks of the qtile
    configuration. When a new window appears, its process ancestry is walked a
    bounded number of steps; the first ancestor that owns an open window is
    hidden (minimized) and remembered as the new window's parent. When a window
    is killed, the parent it remembers is shown again. */
module Swallowing {
  import opened Wrappers

  /** Operating-system process ids; 0 is Python-falsy and ends the walk. */
  type Pid = nat
  /** Keys of qtile's `windows_map`. */
  type Wid = nat

  /** How many ancestor pids `_swallow` tests: the loop is `range(5)`. */
  const MaxDepth: nat := 5

  /** What the hooks see of a qtile client: its `_NET_WM_PID`, its `minimized`
      flag, and the `parent` attribute the swallow hook attaches (None when the
      attribute was never set). */
  datatype Client = Client(pid: Pid, minimized: bool, parent: Option<Wid>)

  /** qtile's `windows_map`: window id to client. */
  type WindowsMap = map<Wid, Client>

  /** The view of psutil the hook uses: `psutil.Process(p).ppid()` is
      `procs[p]`; a pid that is not a key is a process that no longer exists,
      for which psutil raises. */
  type ProcessTable = map<Pid, Pid>

  /** The pids of all open windows. */
  function Pids(windows: WindowsMap): set<Pid>
  {
    set wid | wid in windows :: windows[wid].pid
  }

  /** `cpids` is an index from pid to window as built at config.py:334: every
      open window's pid is a key, and each key leads to an open window with
      that pid (which one, when several share a pid, depends on dict order). */
  ghost predicate IsPidIndex(windows: WindowsMap, cpids: map<Pid, Wid>)
  {
    cpids.Keys == Pids(windows) &&
    forall p :: p in cpids ==> cpids[p] in windows && windows[cpids[p]].pid == p
  }

  /** The dict comprehension of config.py:334, taken over the window ids in
      some order. */
  method PidIndex(windows: WindowsMap) returns (cpids: map<Pid, Wid>)
    ensures IsPidIndex(windows, cpids)
  {
    cpids := map[];
    var todo := windows.Keys;
    while todo != {}
      invariant todo <= windows.Keys
      invariant forall wid :: wid in windows && wid !in todo ==> windows[wid].pid in cpids
      invariant forall p :: p in cpids ==> cpids[p] in windows && windows[cpids[p]].pid == p
      decreases todo
    {
      var wid :| wid in todo;
      cpids := cpids[windows[wid].pid := wid];
      todo := todo - {wid};
    }
    forall p | p in Pids(windows) ensures p in cpids {
      var wid :| wid in windows && windows[wid].pid == p;
    }
  }

  // ---------------------------------------------------------------------------
  // The ancestor walk
  // ---------------------------------------------------------------------------

  /** The pid reached from `p` by following `k` parent links, or None when a
      lookup on the way fails (the process is gone). */
  function Ancestor(procs: ProcessTable, p: Pid, k: nat): (r: Option<Pid>)
    ensures k > 0 && r.Some? ==> p in procs
    decreases k
  {
    if k == 0 then Some(p)
    else if p in procs then Ancestor(procs, procs[p], k - 1)
    else None
  }

  /** Following one more parent link from the ancestor at depth `k`, as the
      loop does with `ppid = psutil.Process(ppid).ppid()`: the ancestor at depth
      `k + 1` is the parent of the one at depth `k`, and there is none once a
      lookup has failed. */
  lemma {:induction false} AncestorNext(procs: ProcessTable, p: Pid, k: nat)
    ensures Ancestor(procs, p, k + 1) ==
            match Ancestor(procs, p, k)
            case None => None
            case Some(a) => if a in procs then Some(procs[a]) else None
    decreases k
  {
    if k > 0 && p in procs {
      AncestorNext(procs, procs[p], k - 1);
    }
  }

  /** The walk moves past ancestor `a`: it exists, it is not 0, and no open
      window has it as pid. */
  predicate Passes(cpids: set<Pid>, a: Option<Pid>)
  {
    a.Some? && a.value != 0 && a.value !in cpids
  }

  /** The walk moves past every ancestor of `q` at depths `lo` .. `hi - 1`. */
  ghost predicate ClearBetween(cpids: set<Pid>, procs: ProcessTable, q: Pid, lo: nat, hi: nat)
  {
    forall j :: lo <= j < hi ==> Passes(cpids, Ancestor(procs, q, j))
  }

  /** How the loop of config.py:335-343 ends. */
  datatype Stop =
    | Matched(pid: Pid)   // line 338: the pid of an open window was reached
    | Falsy               // line 336: an ancestor pid of 0
    | Exhausted           // the five iterations ran out
    | LookupFailed        // psutil raised for a vanished process

  /** The loop of config.py:335-343 started with `ppid == q` and `steps`
      iterations left: test for 0, test for an open window, then look up the
      next parent (also on the last iteration, whose result is never used). */
  function Walk(cpids: set<Pid>, procs: ProcessTable, q: Pid, steps: nat): (r: Stop)
    ensures r.Matched? ==> r.pid != 0 && r.pid in cpids
    decreases steps
  {
    if steps == 0 then Exhausted
    else if q == 0 then Falsy
    else if q in cpids then Matched(q)
    else if q !in procs then LookupFailed
    else Walk(cpids, procs, procs[q], steps - 1)
  }

  /** The whole of `_swallow`'s search from the new window's pid `w`: the first
      lookup of line 333, then the loop. */
  function SwallowStop(cpids: set<Pid>, procs: ProcessTable, w: Pid): (r: Stop)
    ensures r.Matched? ==> r.pid != 0 && r.pid in cpids
  {
    if w !in procs then LookupFailed else Walk(cpids, procs, procs[w], MaxDepth)
  }

  /** The walk from `q` matches `p` at depth `k`, having passed everything
      before it. */
  ghost predicate HitAt(cpids: set<Pid>, procs: ProcessTable, q: Pid, k: nat, p: Pid)
  {
    Ancestor(procs, q, k) == Some(p) && p != 0 && p in cpids && ClearBetween(cpids, procs, q, 0, k)
  }

  /** Seen from the new window's pid `w`: its ancestor at depth `d` (1 is the
      direct parent process) is `p`, an open window's pid, and every ancestor
      tested before it was passed. */
  ghost predicate SwallowedAt(cpids: set<Pid>, procs: ProcessTable, w: Pid, d: nat, p: Pid)
  {
    1 <= d && Ancestor(procs, w, d) == Some(p) && p != 0 && p in cpids &&
    ClearBetween(cpids, procs, w, 1, d)
  }

  /** Ancestors of `w` at depth `j + 1` are those of its parent at depth `j`. */
  lemma ClearShift(cpids: set<Pid>, procs: ProcessTable, w: Pid, lo: nat, hi: nat)
    requires w in procs
    ensures ClearBetween(cpids, procs, w, lo + 1, hi + 1) <==> ClearBetween(cpids, procs, procs[w], lo, hi)
  {
    assert forall j :: lo <= j < hi ==> Ancestor(procs, w, j + 1) == Ancestor(procs, procs[w], j);
    if ClearBetween(cpids, procs, procs[w], lo, hi) {
      forall j | lo + 1 <= j < hi + 1 ensures Passes(cpids, Ancestor(procs, w, j)) {
        assert Ancestor(procs, w, j) == Ancestor(procs, procs[w], j - 1);
      }
    }
  }

  /** The walk from `q` ends in `Matched(p)` exactly when `p` is the first
      ancestor within `steps` that the walk does not pass, and it is an open
      window's pid. */
  lemma {:induction false} WalkMatchedIff(cpids: set<Pid>, procs: ProcessTable, q: Pid, steps: nat, p: Pid)
    ensures Walk(cpids, procs, q, steps) == Matched(p) <==>
            exists k :: 0 <= k < steps && HitAt(cpids, procs, q, k, p)
    decreases steps
  {
    if steps == 0 {
    } else if q == 0 || q in cpids || q !in procs {
      forall k | 0 < k < steps ensures !HitAt(cpids, procs, q, k, p) {
        assert Ancestor(procs, q, 0) == Some(q);
        if q in procs {
          assert !Passes(cpids, Ancestor(procs, q, 0));
        }
      }
      if q != 0 && q in cpids && p == q {
        assert HitAt(cpids, procs, q, 0, p);
      }
    } else {
      var q' := procs[q];
      WalkMatchedIff(cpids, procs, q', steps - 1, p);
      forall k | 1 <= k < steps
        ensures HitAt(cpids, procs, q, k, p) <==> HitAt(cpids, procs, q', k - 1, p)
      {
        assert Ancestor(procs, q, k) == Ancestor(procs, q', k - 1);
        assert Passes(cpids, Ancestor(procs, q, 0));
        ClearShift(cpids, procs, q, 0, k - 1);
        assert ClearBetween(cpids, procs, q, 0, k) <==> ClearBetween(cpids, procs, q, 1, k);
      }
      if Walk(cpids, procs, q', steps - 1) == Matched(p) {
        var k' :| 0 <= k' < steps - 1 && HitAt(cpids, procs, q', k', p);
        assert HitAt(cpids, procs, q, k' + 1, p);
      }
      if exists k :: 0 <= k < steps && HitAt(cpids, procs, q, k, p) {
        var k :| 0 <= k < steps && HitAt(cpids, procs, q, k, p);
        assert k != 0;
        assert HitAt(cpids, procs, q', k - 1, p);
      }
    }
  }

  /** Passing the first `k` ancestors of `q` costs `k` iterations and leaves
      the walk at the ancestor at depth `k`; if that lookup failed, the walk
      has aborted. */
  lemma {:induction false} WalkSkip(cpids: set<Pid>, procs: ProcessTable, q: Pid, steps: nat, k: nat)
    requires k <= steps
    requires ClearBetween(cpids, procs, q, 0, k)
    ensures Walk(cpids, procs, q, steps) ==
            if Ancestor(procs, q, k).Some? then Walk(cpids, procs, Ancestor(procs, q, k).value, steps - k)
            else LookupFailed
    decreases k
  {
    if k > 0 {
      assert Passes(cpids, Ancestor(procs, q, 0));
      if q in procs {
        ClearShift(cpids, procs, q, 0, k - 1);
        assert ClearBetween(cpids, procs, q, 1, k);
        WalkSkip(cpids, procs, procs[q], steps - 1, k - 1);
      }
    }
  }

  /** Nearest ancestor wins, within five steps: `_swallow` picks `p` exactly
      when `p` is, at some depth 1 .. 5, the first tested ancestor that is not
      passed, and it belongs to an open window. */
  lemma SwallowMatchIff(cpids: set<Pid>, procs: ProcessTable, w: Pid, p: Pid)
    ensures SwallowStop(cpids, procs, w) == Matched(p) <==>
            exists d :: 1 <= d <= MaxDepth && SwallowedAt(cpids, procs, w, d, p)
  {
    if w !in procs {
      forall d | 1 <= d <= MaxDepth ensures !SwallowedAt(cpids, procs, w, d, p) {
        assert Ancestor(procs, w, d) == None;
      }
    } else {
      var q := procs[w];
      WalkMatchedIff(cpids, procs, q, MaxDepth, p);
      forall d | 1 <= d <= MaxDepth
        ensures SwallowedAt(cpids, procs, w, d, p) <==> HitAt(cpids, procs, q, d - 1, p)
      {
        assert Ancestor(procs, w, d) == Ancestor(procs, q, d - 1);
        ClearShift(cpids, procs, w, 0, d - 1);
      }
      if SwallowStop(cpids, procs, w) == Matched(p) {
        var k :| 0 <= k < MaxDepth && HitAt(cpids, procs, q, k, p);
        assert SwallowedAt(cpids, procs, w, k + 1, p);
      }
      if exists d :: 1 <= d <= MaxDepth && SwallowedAt(cpids, procs, w, d, p) {
        var d :| 1 <= d <= MaxDepth && SwallowedAt(cpids, procs, w, d, p);
        assert HitAt(cpids, procs, q, d - 1, p);
      }
    }
  }

  /** A window whose pid is not among the first five ancestors of the new
      window is never chosen as its parent. */
  lemma NoSwallowBeyondMaxDepth(cpids: set<Pid>, procs: ProcessTable, w: Pid, p: Pid)
    requires forall d :: 1 <= d <= MaxDepth ==> Ancestor(procs, w, d) != Some(p)
    ensures SwallowStop(cpids, procs, w) != Matched(p)
  {
    SwallowMatchIff(cpids, procs, w, p);
  }

  /** An ancestor pid of 0 reached before any match ends the walk at line 337. */
  lemma SwallowStopsAtZero(cpids: set<Pid>, procs: ProcessTable, w: Pid, d: nat)
    requires 1 <= d <= MaxDepth
    requires Ancestor(procs, w, d) == Some(0)
    requires ClearBetween(cpids, procs, w, 1, d)
    ensures SwallowStop(cpids, procs, w) == Falsy
  {
    assert w in procs;
    var q := procs[w];
    ClearShift(cpids, procs, w, 0, d - 1);
    assert Ancestor(procs, w, d) == Ancestor(procs, q, d - 1);
    WalkSkip(cpids, procs, q, MaxDepth, d - 1);
  }

  /** A failed lookup before any match aborts the hook. Depth 1 is the lookup
      of line 333; depth 6 is the lookup made on the fifth iteration, whose
      result is never tested, yet it too aborts. */
  lemma SwallowAbortsOnLookupFailure(cpids: set<Pid>, procs: ProcessTable, w: Pid, d: nat)
    requires 1 <= d <= MaxDepth + 1
    requires Ancestor(procs, w, d) == None
    requires ClearBetween(cpids, procs, w, 1, d)
    ensures SwallowStop(cpids, procs, w) == LookupFailed
  {
    if w in procs {
      var q := procs[w];
      ClearShift(cpids, procs, w, 0, d - 1);
      assert Ancestor(procs, w, d) == Ancestor(procs, q, d - 1);
      WalkSkip(cpids, procs, q, MaxDepth, d - 1);
    }
  }

  /** Five tested ancestors passed and all six lookups succeeded: the loop
      falls through. */
  lemma SwallowExhausted(cpids: set<Pid>, procs: ProcessTable, w: Pid)
    requires ClearBetween(cpids, procs, w, 1, MaxDepth + 1)
    requires Ancestor(procs, w, MaxDepth + 1).Some?
    ensures SwallowStop(cpids, procs, w) == Exhausted
  {
    assert w in procs;
    var q := procs[w];
    ClearShift(cpids, procs, w, 0, MaxDepth);
    assert Ancestor(procs, w, MaxDepth + 1) == Ancestor(procs, q, MaxDepth);
    WalkSkip(cpids, procs, q, MaxDepth, MaxDepth);
  }

  // ---------------------------------------------------------------------------
  // The unswallow hook
  // ---------------------------------------------------------------------------

  /** The window table after `_unswallow(window)` (config.py:345-348): the
      recorded parent, if any and if still open, is no longer minimized; no
      other window changes. */
  function Unswallowed(windows: WindowsMap, window: Client): (r: WindowsMap)
    ensures r.Keys == windows.Keys
    ensures forall wid :: wid in windows ==>
              r[wid] == if window.parent == Some(wid) then windows[wid].(minimized := false)
                        else windows[wid]
  {
    match window.parent
    case None => windows
    case Some(wid) =>
      if wid in windows then windows[wid := windows[wid].(minimized := false)] else windows
  }

  /** Killing the same window twice restores its parent once: the second call
      changes nothing. */
  lemma UnswallowIdempotent(windows: WindowsMap, window: Client)
    ensures Unswallowed(Unswallowed(windows, window), window) == Unswallowed(windows, window)
  {
  }

  /** Swallowing a parent that was visible and then killing the child gives
      back the window table as it was. */
  lemma SwallowThenUnswallow(windows: WindowsMap, window: Client, wid: Wid)
    requires wid in windows && !windows[wid].minimized
    ensures Unswallowed(windows[wid := windows[wid].(minimized := true)],
                        window.(parent := Some(wid))) == windows
  {
  }

  // ---------------------------------------------------------------------------
  // The hooks on qtile's window table
  // ---------------------------------------------------------------------------

  /** The part of the running qtile object the hooks touch. */
  class Qtile {
    var windowsMap: WindowsMap

    constructor (windows: WindowsMap)
      ensures windowsMap == windows
    {
      windowsMap := windows;
    }

    /** `_swallow(window)`, config.py:330-343. Returns the new window's record
        as the hook leaves it, and how the search ended. Only on a match does
        anything change: the matched window becomes minimized and the new
        window records it as parent. */
    method Swallow(window: Client, procs: ProcessTable) returns (updated: Client, stop: Stop)
      modifies this
      ensures stop == SwallowStop(Pids(old(windowsMap)), procs, window.pid)
      ensures stop.Matched? ==>
                updated.parent.Some? &&
                updated == window.(parent := updated.parent) &&
                updated.parent.value in old(windowsMap) &&
                old(windowsMap)[updated.parent.value].pid == stop.pid &&
                windowsMap == old(windowsMap)[updated.parent.value :=
                                 old(windowsMap)[updated.parent.value].(minimized := true)]
      ensures !stop.Matched? ==> windowsMap == old(windowsMap) && updated == window
    {
      if window.pid !in procs {
        return window, LookupFailed;
      }
      var ppid := procs[window.pid];
      var cpids := PidIndex(windowsMap);
      ghost var keys := cpids.Keys;
      for i := 0 to MaxDepth
        invariant windowsMap == old(windowsMap)
        invariant Walk(keys, procs, ppid, MaxDepth - i) == SwallowStop(keys, procs, window.pid)
      {
        if ppid == 0 {
          return window, Falsy;
        }
        if ppid in cpids {
          var wid := cpids[ppid];
          windowsMap := windowsMap[wid := windowsMap[wid].(minimized := true)];
          return window.(parent := Some(wid)), Matched(ppid);
        }
        if ppid !in procs {
          return window, LookupFailed;
        }
        ppid := procs[ppid];
      }
      return window, Exhausted;
    }

    /** `_unswallow(window)`, config.py:345-348. */
    method Unswallow(window: Client)
      modifies this
      ensures windowsMap == Unswallowed(old(windowsMap), window)
    {
      if window.parent.Some? {
        var wid := window.parent.value;
        if wid in windowsMap {
          windowsMap := windowsMap[wid := windowsMap[wid].(minimized := false)];
        }
      }
    }
  }

  /** The scenario of a terminal (pid 100, window 1) that starts a shell
      (pid 150) that starts a program (pid 160) opening a window: the terminal
      is hidden, and shown again when the program's window goes away. */
  method TerminalExample()
  {
    var qtile := new Qtile(map[1 := Client(100, false, None)]);
    var procs := map[160 := 150, 150 := 100];
    var child := Client(160, false, None);
    assert Pids(qtile.windowsMap) == {100} by {
      assert qtile.windowsMap[1].pid == 100;
      assert forall wid :: wid in qtile.windowsMap ==> wid == 1;
    }
    assert SwallowStop({100}, procs, 160) == Matched(100);
    var updated, stop := qtile.Swallow(child, procs);
    assert stop == Matched(100) && updated.parent == Some(1);
    assert qtile.windowsMap == map[1 := Client(100, true, None)];
    qtile.Unswallow(updated);
    assert qtile.windowsMap == map[1 := Client(100, false, None)];
  }
}
