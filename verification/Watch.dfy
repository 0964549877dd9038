/** The set of panes to watch, grouped by the herdr socket they live on, with a generation the watcher
    rebuilds on. */
module Watch {
  import opened Text

  /** The part of an active run the watcher cares about. */
  datatype Run = Run(pane: Option<string>, socket: Option<string>)

  type Grouping = map<string, seq<string>>

  function SocketOf(run: Run, defaultSocket: string): string {
    if run.socket.Some? then run.socket.value else defaultSocket
  }

  predicate IsOn(run: Run, defaultSocket: string, socket: string) {
    run.pane.Some? && SocketOf(run, defaultSocket) == socket
  }

  /** The runs among `ids` that show a pane on a socket. */
  function RunsOf(active: map<int, Run>, ids: set<int>, defaultSocket: string, socket: string, pane: string): set<int> {
    set id | id in ids && id in active && IsOn(active[id], defaultSocket, socket) && active[id].pane == Some(pane)
  }

  // ---------------------------------------------------------------------------
  // Sorting panes
  // ---------------------------------------------------------------------------

  predicate IsSorted(s: seq<string>) {
    forall i, j :: 0 <= i < j < |s| ==> !LexLess(s[j], s[i])
  }

  function Inserted(pane: string, s: seq<string>): seq<string> {
    if s == [] || !LexLess(s[0], pane) then [pane] + s else [s[0]] + Inserted(pane, s[1..])
  }

  function Sorted(s: seq<string>): seq<string> {
    if s == [] then [] else Inserted(s[0], Sorted(s[1..]))
  }

  lemma {:induction false} InsertedKeepsPanes(pane: string, s: seq<string>)
    ensures multiset(Inserted(pane, s)) == multiset(s) + multiset{pane}
  {
    hide LexLess;
    if s != [] {
      assert s == [s[0]] + s[1..];
      InsertedKeepsPanes(pane, s[1..]);
    }
  }

  lemma {:induction false} LeastBefore(first: string, rest: seq<string>)
    requires IsSorted(rest) && forall j :: 0 <= j < |rest| ==> !LexLess(rest[j], first)
    ensures IsSorted([first] + rest)
  {
    hide LexLess;
    var s := [first] + rest;
    assert forall j :: 0 < j < |s| ==> s[j] == rest[j - 1];
  }

  // What is sorted stays above a pane that does not come after its first.
  lemma {:induction false} NoneBefore(pane: string, s: seq<string>)
    requires IsSorted(s) && s != [] && !LexLess(s[0], pane)
    ensures forall j :: 0 <= j < |s| ==> !LexLess(s[j], pane)
  {
    hide LexLess;
    forall j | 0 < j < |s|
      ensures !LexLess(s[j], pane)
    {
      LexLessIsStrictOrder(s[j], s[0]);
      if LexLess(s[j], pane) && s[j] != s[0] {
        LexLessTransitive(s[0], s[j], pane);
      }
    }
  }

  lemma {:induction false} InsertedIsSorted(pane: string, s: seq<string>)
    requires IsSorted(s)
    ensures IsSorted(Inserted(pane, s)) && multiset(Inserted(pane, s)) == multiset(s) + multiset{pane}
  {
    hide LexLess;
    InsertedKeepsPanes(pane, s);
    if s == [] || !LexLess(s[0], pane) {
      if s != [] {
        NoneBefore(pane, s);
      }
      LeastBefore(pane, s);
    } else {
      var rest := Inserted(pane, s[1..]);
      InsertedIsSorted(pane, s[1..]);
      LexLessIsStrictOrder(s[0], pane);
      forall j | 0 <= j < |rest|
        ensures !LexLess(rest[j], s[0])
      {
        assert rest[j] in multiset(rest);
        assert rest[j] == pane || rest[j] in s[1..];
      }
      LeastBefore(s[0], rest);
    }
  }

  lemma {:induction false} SortedIsSorted(s: seq<string>)
    ensures IsSorted(Sorted(s)) && multiset(Sorted(s)) == multiset(s)
  {
    if s != [] {
      SortedIsSorted(s[1..]);
      InsertedIsSorted(s[0], Sorted(s[1..]));
      assert s == [s[0]] + s[1..];
    }
  }

  lemma {:induction false} LeastFirst(s: seq<string>, t: string)
    requires IsSorted(s) && t in s
    ensures !LexLess(t, s[0])
  {
    var i :| 0 <= i < |s| && s[i] == t;
    LexLessIsStrictOrder(t, t);
  }

  lemma {:induction false} WithoutFirst(s: seq<string>)
    requires s != [] && IsSorted(s)
    ensures multiset(s[1..]) == multiset(s) - multiset{s[0]} && IsSorted(s[1..])
  {
    assert s == [s[0]] + s[1..];
  }

  lemma {:induction false} SameFirst(a: seq<string>, b: seq<string>)
    requires IsSorted(a) && IsSorted(b) && multiset(a) == multiset(b) && a != []
    ensures b != [] && a[0] == b[0]
  {
    hide LexLess, IsSorted;
    assert |a| == |multiset(a)| && |b| == |multiset(b)|;
    assert a[0] in multiset(b) && b[0] in multiset(a);
    LeastFirst(a, b[0]);
    LeastFirst(b, a[0]);
    LexLessIsStrictOrder(a[0], b[0]);
  }

  // Sorting forgets the order there was before.
  lemma {:induction false} SortedIsUnique(a: seq<string>, b: seq<string>)
    requires IsSorted(a) && IsSorted(b) && multiset(a) == multiset(b)
    ensures a == b
  {
    hide LexLess, IsSorted;
    if a == [] {
      assert |multiset(b)| == 0;
    } else {
      SameFirst(a, b);
      WithoutFirst(a);
      WithoutFirst(b);
      SortedIsUnique(a[1..], b[1..]);
      assert a == [a[0]] + a[1..] && b == [b[0]] + b[1..];
    }
  }

  // ---------------------------------------------------------------------------
  // The grouping
  // ---------------------------------------------------------------------------

  /** Every socket with a pane, and on each the panes of its runs, as often as runs show them. */
  ghost predicate Groups(g: Grouping, active: map<int, Run>, ids: set<int>, defaultSocket: string) {
    (forall socket :: socket in g <==> exists id :: id in ids && id in active && IsOn(active[id], defaultSocket, socket))
    && forall socket, pane :: socket in g ==>
         multiset(g[socket])[pane] == |RunsOf(active, ids, defaultSocket, socket, pane)|
  }

  /** The grouping of all active runs, each socket's panes in order. */
  ghost predicate IsGrouping(g: Grouping, active: map<int, Run>, defaultSocket: string) {
    Groups(g, active, active.Keys, defaultSocket) && forall socket :: socket in g ==> IsSorted(g[socket])
  }

  /** There is only one, whatever order the runs are visited in. */
  lemma {:induction false} GroupingIsUnique(g: Grouping, h: Grouping, active: map<int, Run>, defaultSocket: string)
    requires IsGrouping(g, active, defaultSocket) && IsGrouping(h, active, defaultSocket)
    ensures g == h
  {
    hide IsSorted, RunsOf, IsOn;
    assert g.Keys == h.Keys;
    forall socket | socket in g
      ensures g[socket] == h[socket]
    {
      assert multiset(g[socket]) == multiset(h[socket]);
      SortedIsUnique(g[socket], h[socket]);
    }
  }

  /** A socket is watched exactly if a run shows a pane there, on a socket of its own or, for want of one, on the default
      socket; and every pane is listed there as often as such runs show it. */
  lemma {:induction false} GroupingIsSpelled(g: Grouping, active: map<int, Run>, defaultSocket: string, socket: string, pane: string)
    requires IsGrouping(g, active, defaultSocket)
    ensures socket in g <==> exists id :: id in active && active[id].pane.Some?
                               && (active[id].socket == Some(socket) || (active[id].socket.None? && socket == defaultSocket))
    ensures socket in g ==>
              multiset(g[socket])[pane]
              == |set id | id in active && active[id].pane == Some(pane)
                           && (active[id].socket == Some(socket) || (active[id].socket.None? && socket == defaultSocket))|
  {
    if socket in g {
      var shown := set id | id in active && active[id].pane == Some(pane)
                            && (active[id].socket == Some(socket) || (active[id].socket.None? && socket == defaultSocket));
      forall id
        ensures id in shown <==> id in RunsOf(active, active.Keys, defaultSocket, socket, pane)
      {
      }
      assert shown == RunsOf(active, active.Keys, defaultSocket, socket, pane);
    }
  }

  // ---------------------------------------------------------------------------
  // Refreshing
  // ---------------------------------------------------------------------------

  /** Every active run once, in any order. */
  predicate IsOrder(order: seq<int>, active: map<int, Run>) {
    AreDistinct(order) && (forall k :: 0 <= k < |order| ==> order[k] in active) && forall id :: id in active ==> id in order
  }

  function Visited(order: seq<int>, k: nat): set<int>
    requires k <= |order|
  {
    set i | 0 <= i < k :: order[i]
  }

  /** What is installed, and how often it has changed. */
  datatype Installed = Installed(panes: Grouping, generation: nat)

  /** A new grouping is installed as the next generation; an equal one changes nothing. */
  function AfterRefresh(w: Installed, grouped: Grouping): Installed {
    if w.panes == grouped then w else Installed(grouped, w.generation + 1)
  }

  class WatchState {
    var panesBySocket: Grouping
    var generation: nat

    ghost function State(): Installed
      reads this
    {
      Installed(panesBySocket, generation)
    }

    constructor ()
      ensures State() == Installed(map[], 0)
    {
      panesBySocket, generation := map[], 0;
    }

    /** `order` is the order in which the runs happen to be visited. */
    method RefreshWatch(active: map<int, Run>, order: seq<int>, defaultSocket: string)
      requires IsOrder(order, active)
      modifies this
      ensures IsGrouping(panesBySocket, active, defaultSocket)
      ensures State() == AfterRefresh(old(State()), panesBySocket)
    {
      var unsorted := GroupPanes(active, order, defaultSocket);
      var grouped := SortPanes(unsorted);
      assert IsGrouping(grouped, active, defaultSocket);
      if panesBySocket != grouped {
        panesBySocket := grouped;
        generation := generation + 1;
      }
    }

    static method GroupPanes(active: map<int, Run>, order: seq<int>, defaultSocket: string) returns (grouped: Grouping)
      requires IsOrder(order, active)
      ensures Groups(grouped, active, active.Keys, defaultSocket)
    {
      hide Groups;
      grouped := map[];
      NothingGrouped(active, defaultSocket);
      assert Visited(order, 0) == {};
      for k := 0 to |order|
        invariant Groups(grouped, active, Visited(order, k), defaultSocket)
      {
        var id := order[k];
        VisitedNext(order, k);
        var a := active[id];
        if a.pane.Some? {
          var socket := SocketOf(a, defaultSocket);
          var panes := if socket in grouped then grouped[socket] else [];
          PaneGrouped(grouped, active, Visited(order, k), defaultSocket, id);
          grouped := grouped[socket := panes + [a.pane.value]];
        } else {
          PaneMissing(grouped, active, Visited(order, k), defaultSocket, id);
        }
      }
      AllVisited(active, order);
    }

    static method SortPanes(grouped: Grouping) returns (sorted: Grouping)
      ensures sorted.Keys == grouped.Keys
      ensures forall socket :: socket in grouped ==>
                IsSorted(sorted[socket]) && multiset(sorted[socket]) == multiset(grouped[socket])
    {
      sorted := map[];
      var rest := grouped.Keys;
      while rest != {}
        invariant rest <= grouped.Keys && sorted.Keys == grouped.Keys - rest
        invariant forall socket :: socket in sorted ==>
                    IsSorted(sorted[socket]) && multiset(sorted[socket]) == multiset(grouped[socket])
        decreases |rest|
      {
        hide IsSorted;
        var socket :| socket in rest;
        rest := rest - {socket};
        SortedIsSorted(grouped[socket]);
        sorted := sorted[socket := Sorted(grouped[socket])];
      }
    }
  }

  lemma {:induction false} NothingGrouped(active: map<int, Run>, defaultSocket: string)
    ensures Groups(map[], active, {}, defaultSocket)
  {
  }

  lemma {:induction false} AllVisited(active: map<int, Run>, order: seq<int>)
    requires IsOrder(order, active)
    ensures Visited(order, |order|) == active.Keys
  {
    forall id | id in active
      ensures id in Visited(order, |order|)
    {
      assert id in order;
      var k :| 0 <= k < |order| && order[k] == id;
    }
  }

  lemma {:induction false} VisitedNext(order: seq<int>, k: nat)
    requires k < |order| && AreDistinct(order)
    ensures Visited(order, k + 1) == Visited(order, k) + {order[k]} && order[k] !in Visited(order, k)
  {
  }

  lemma {:induction false} RunsWith(active: map<int, Run>, ids: set<int>, defaultSocket: string, id: int, socket: string, pane: string)
    requires id in active && id !in ids
    ensures |RunsOf(active, ids + {id}, defaultSocket, socket, pane)|
         == |RunsOf(active, ids, defaultSocket, socket, pane)|
            + if IsOn(active[id], defaultSocket, socket) && active[id].pane == Some(pane) then 1 else 0
  {
    hide IsOn;
    var before, after := RunsOf(active, ids, defaultSocket, socket, pane), RunsOf(active, ids + {id}, defaultSocket, socket, pane);
    if IsOn(active[id], defaultSocket, socket) && active[id].pane == Some(pane) {
      assert after == before + {id};
    } else {
      assert after == before;
    }
  }

  lemma {:induction false} NobodyOn(active: map<int, Run>, ids: set<int>, defaultSocket: string, socket: string, pane: string)
    requires !exists id :: id in ids && id in active && IsOn(active[id], defaultSocket, socket)
    ensures RunsOf(active, ids, defaultSocket, socket, pane) == {}
  {
    hide IsOn;
    var runs := RunsOf(active, ids, defaultSocket, socket, pane);
    forall id
      ensures id !in runs
    {
    }
  }

  // One more run that shows a pane.
  lemma {:induction false} PaneGrouped(g: Grouping, active: map<int, Run>, ids: set<int>, defaultSocket: string, id: int)
    requires Groups(g, active, ids, defaultSocket) && id in active && id !in ids && active[id].pane.Some?
    ensures var socket := SocketOf(active[id], defaultSocket);
            var panes := if socket in g then g[socket] else [];
            Groups(g[socket := panes + [active[id].pane.value]], active, ids + {id}, defaultSocket)
  {
    var at := SocketOf(active[id], defaultSocket);
    var panes := if at in g then g[at] else [];
    var g' := g[at := panes + [active[id].pane.value]];
    hide RunsOf;
    forall socket
      ensures socket in g' <==> exists i :: i in ids + {id} && i in active && IsOn(active[i], defaultSocket, socket)
    {
      if socket == at {
        assert id in ids + {id} && IsOn(active[id], defaultSocket, socket);
      } else {
        assert !IsOn(active[id], defaultSocket, socket);
      }
    }
    forall socket, pane | socket in g'
      ensures multiset(g'[socket])[pane] == |RunsOf(active, ids + {id}, defaultSocket, socket, pane)|
    {
      RunsWith(active, ids, defaultSocket, id, socket, pane);
      if socket !in g {
        NobodyOn(active, ids, defaultSocket, socket, pane);
      }
    }
  }

  // One more run without a pane.
  lemma {:induction false} PaneMissing(g: Grouping, active: map<int, Run>, ids: set<int>, defaultSocket: string, id: int)
    requires Groups(g, active, ids, defaultSocket) && id in active && id !in ids && active[id].pane.None?
    ensures Groups(g, active, ids + {id}, defaultSocket)
  {
    hide RunsOf;
    forall socket, pane | socket in g
      ensures |RunsOf(active, ids + {id}, defaultSocket, socket, pane)| == |RunsOf(active, ids, defaultSocket, socket, pane)|
    {
      RunsWith(active, ids, defaultSocket, id, socket, pane);
    }
  }

  // ---------------------------------------------------------------------------
  // Any sequence of calls
  // ---------------------------------------------------------------------------

  /** What is installed after refreshing with each of these groupings in turn. */
  function AfterRefreshes(w: Installed, groupings: seq<Grouping>): Installed {
    if groupings == [] then w
    else AfterRefresh(AfterRefreshes(w, groupings[..|groupings| - 1]), groupings[|groupings| - 1])
  }

  /** The generation never falls, and stays only while the grouping does. */
  lemma {:induction false} GenerationsGrow(w: Installed, groupings: seq<Grouping>, i: nat, j: nat)
    requires i <= j <= |groupings|
    ensures var before, after := AfterRefreshes(w, groupings[..i]), AfterRefreshes(w, groupings[..j]);
            before.generation <= after.generation
            && (before.generation == after.generation ==> before.panes == after.panes)
    decreases j
  {
    if i < j {
      GenerationsGrow(w, groupings, i, j - 1);
      assert groupings[..j][..j - 1] == groupings[..j - 1];
    }
  }

  /** Across any sequence of calls equal generations mean equal groupings, and a call raises the generation
      exactly when it changes the grouping. */
  lemma {:induction false} GenerationTellsGrouping(w: Installed, groupings: seq<Grouping>, i: nat, j: nat)
    requires i <= |groupings| && j <= |groupings|
    ensures var a, b := AfterRefreshes(w, groupings[..i]), AfterRefreshes(w, groupings[..j]);
            (a.generation == b.generation ==> a.panes == b.panes)
            && (j == i + 1 ==> (b.generation > a.generation <==> b.panes != a.panes) && b.panes == groupings[i])
  {
    GenerationsGrow(w, groupings, if i < j then i else j, if i < j then j else i);
    if j == i + 1 {
      assert groupings[..j][..i] == groupings[..i];
    }
  }
}
