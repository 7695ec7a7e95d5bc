/** The parent process of `alsa-server`: it accepts connections, forks a child for each,
    and keeps a list of its children that a SIGCHLD handler shortens whenever it runs. */
module ParentServer {
  import opened Constants
  import opened Lists

  /** The `Client` object made by `acceptConnection`. */
  datatype Connection = Connection(socket: int, id: nat)

  /** Where the accept loop stands. Forked(pid) is the window between `fork` and
      `push_back`. */
  datatype Main = Accepting | Accepted(client: Connection) | Forked(pid: int)

  /** served holds the connections that were given a child, lost counts those whose fork
      failed. Signals that arrive before the handler runs merge into one. */
  datatype State = State(main: Main, numClients: nat, children: seq<int>, served: seq<Connection>, lost: nat,
                         running: set<int>, zombies: set<int>, pending: bool)

  /** Stop is a child that stops or goes on: its SIGCHLD arrives as well. */
  datatype Action = Accept(socket: int) | Fork(pid: int) | Push | Exit(pid: int) | Stop(pid: int) | Handle(child: int)

  const START := State(Accepting, 0, [], [], 0, {}, {}, false)

  /** The children that nobody has waited for yet. */
  function Unreaped(x: State): set<int> { x.running + x.zombies }

  /** What `waitpid(-1, NULL, WNOHANG)` may return: some zombie, 0 if all children run on,
      FAILURE if there are none. */
  predicate Waited(x: State, child: int) {
    if x.zombies != {} then child in x.zombies else child == if x.running != {} then 0 else FAILURE
  }

  /** The new client count, and the object that `acceptConnection` returns for the result
      of `accept`. */
  function Acceptance(numClients: nat, socket: int): (nat, Connection) {
    var n := if socket != FAILURE then numClients + 1 else numClients;
    (n, Connection(socket, n))
  }

  function OnAccept(x: State, socket: int): State {
    var (n, client) := Acceptance(x.numClients, socket);
    x.(numClients := n, main := if client.socket == FAILURE then Accepting else Accepted(client))
  }

  function OnFork(x: State, pid: int): State
    requires x.main.Accepted?
  {
    if pid == FAILURE then x.(main := Forked(pid), lost := x.lost + 1)
    else x.(main := Forked(pid), served := x.served + [x.main.client], running := x.running + {pid})
  }

  function OnHandle(x: State, child: int): State {
    x.(pending := false, zombies := x.zombies - {child},
       children := if child != FAILURE then Without(x.children, child) else x.children)
  }

  /** The handler may run between any two steps. A new child gets a positive pid that no
      unreaped child has; the pid of a reaped child may come again. */
  predicate Step(a: Action, x: State, y: State) {
    match a
    case Accept(socket) => x.main.Accepting? && y == OnAccept(x, socket)
    case Fork(pid) =>
      x.main.Accepted? && (pid == FAILURE || (pid > 0 && pid !in Unreaped(x))) && y == OnFork(x, pid)
    case Push => x.main.Forked? && y == x.(main := Accepting, children := x.children + [x.main.pid])
    case Exit(pid) =>
      pid in x.running && y == x.(running := x.running - {pid}, zombies := x.zombies + {pid}, pending := true)
    case Stop(pid) => pid in x.running && y == x.(pending := true)
    case Handle(child) => x.pending && Waited(x, child) && y == OnHandle(x, child)
  }

  predicate IsRun(states: seq<State>, acts: seq<Action>) {
    && |states| == |acts| + 1
    && states[0] == START
    && forall i | 0 <= i < |acts| :: Step(acts[i], states[i], states[i + 1])
  }

  // ---------------------------------------------------------------- the list of children

  predicate Tracked(x: State) {
    && x.running !! x.zombies
    && (forall p | p in Unreaped(x) :: p > 0 && Listed(x, p))
  }

  predicate Listed(x: State, p: int) { p in x.children || x.main == Forked(p) }

  lemma StepKeepsTracked(a: Action, x: State, y: State)
    requires Tracked(x) && Step(a, x, y)
    ensures Tracked(y)
  {
    assert forall p | p in Unreaped(y) :: p in Unreaped(x) || (a == Fork(p) && p > 0);
    if a.Push? {
      assert x.main.pid in y.children && forall p | p in x.children :: p in y.children;
    }
  }

  /** What `waitpid` may return to the handler: a child exactly if it is a zombie, 0 exactly if there
      are children but no zombies, and -1 exactly if there are no children at all. Whichever it
      is, the handler runs. */
  lemma WaitResults(x: State, child: int)
    requires Tracked(x) && x.pending
    ensures (exists y :: Step(Handle(child), x, y)) <==>
            if child > 0 then child in x.zombies
            else x.zombies == {} && child == if x.running != {} then 0 else -1
  {
    assert child in x.zombies ==> child in Unreaped(x);
    if Waited(x, child) { assert Step(Handle(child), x, OnHandle(x, child)); }
  }

  /** Every unreaped child is in the list, except for the one that is between its fork and
      its `push_back`. */
  lemma {:induction false} ChildrenAreTracked(states: seq<State>, acts: seq<Action>, n: nat)
    requires IsRun(states, acts) && n <= |acts|
    ensures Tracked(states[n])
  {
    if n > 0 {
      ChildrenAreTracked(states, acts, n - 1);
      StepKeepsTracked(acts[n - 1], states[n - 1], states[n]);
    }
  }

  /** The child p was reaped inside its window, at step i, and p was not forked again. */
  predicate ReapedInWindow(states: seq<State>, acts: seq<Action>, n: nat, p: int, i: nat)
    requires n <= |acts| < |states|
  {
    i < n && acts[i] == Handle(p) && states[i].main == Forked(p) && forall j | i < j < n :: acts[j] != Fork(p)
  }

  lemma {:induction false} ListedWasInWindow(states: seq<State>, acts: seq<Action>, n: nat, p: int) returns (i: nat)
    requires IsRun(states, acts) && n <= |acts| && p > 0
    requires Listed(states[n], p) && p !in Unreaped(states[n])
    ensures ReapedInWindow(states, acts, n, p, i)
  {
    assert n > 0;
    var x, y := states[n - 1], states[n];
    assert Step(acts[n - 1], x, y);
    if p in Unreaped(x) {
      assert acts[n - 1] == Handle(p);
      i := n - 1;
    } else {
      i := ListedWasInWindow(states, acts, n - 1, p);
    }
  }

  lemma {:induction false} InWindowStaysListed(states: seq<State>, acts: seq<Action>, n: nat, p: int, i: nat)
    requires IsRun(states, acts) && n <= |acts| && p > 0 && ReapedInWindow(states, acts, n, p, i)
    ensures Listed(states[n], p) && p !in Unreaped(states[n])
  {
    var x, y := states[n - 1], states[n];
    assert Step(acts[n - 1], x, y);
    if i == n - 1 {
      ChildrenAreTracked(states, acts, i);
    } else {
      InWindowStaysListed(states, acts, n - 1, p, i);
    }
  }

  /** A pid that is no unreaped child's is in the list exactly when it was reaped inside
      its window, and not forked again since. */
  lemma StaleExactly(states: seq<State>, acts: seq<Action>, n: nat, p: int)
    requires IsRun(states, acts) && n <= |acts| && p > 0
    requires p !in Unreaped(states[n]) && states[n].main != Forked(p)
    ensures p in states[n].children <==> exists i :: ReapedInWindow(states, acts, n, p, i)
  {
    if p in states[n].children {
      var i := ListedWasInWindow(states, acts, n, p);
    }
    if i :| ReapedInWindow(states, acts, n, p, i) {
      InWindowStaysListed(states, acts, n, p, i);
    }
  }

  predicate Forking(a: Action) { a.Fork? && a.pid != FAILURE }

  predicate Reaping(a: Action) { a.Handle? && a.child > 0 }

  lemma StepConserves(a: Action, x: State, y: State)
    requires Tracked(x) && Step(a, x, y)
    ensures |y.running| + |y.zombies| + (if Reaping(a) then 1 else 0)
         == |x.running| + |x.zombies| + (if Forking(a) then 1 else 0)
    ensures |y.served| == |x.served| + (if Forking(a) then 1 else 0)
  {
    match a
    case Handle(child) =>
      assert child in x.zombies ==> child in Unreaped(x);
      assert if child > 0 then child in x.zombies else y.zombies == x.zombies;
    case _ =>
  }

  /** Every fork is accounted for: the child is unreaped, or was reaped by a handler. */
  function Forks(acts: seq<Action>): nat {
    if acts == [] then 0
    else Forks(acts[..|acts| - 1]) + (if Forking(acts[|acts| - 1]) then 1 else 0)
  }

  function Reaps(acts: seq<Action>): nat {
    if acts == [] then 0
    else Reaps(acts[..|acts| - 1]) + (if Reaping(acts[|acts| - 1]) then 1 else 0)
  }

  lemma {:induction false} ForksAreConserved(states: seq<State>, acts: seq<Action>, n: nat)
    requires IsRun(states, acts) && n <= |acts|
    ensures Forks(acts[..n]) == |states[n].running| + |states[n].zombies| + Reaps(acts[..n])
    ensures |states[n].served| == Forks(acts[..n])
  {
    if n > 0 {
      ForksAreConserved(states, acts, n - 1);
      ChildrenAreTracked(states, acts, n - 1);
      StepConserves(acts[n - 1], states[n - 1], states[n]);
      assert acts[..n][..n - 1] == acts[..n - 1] && acts[..n][n - 1] == acts[n - 1];
    }
  }

  /** How many more children have exited than the handler has run for, from step j to step n. */
  function Excess(acts: seq<Action>, j: nat, n: nat): int
    requires j <= n <= |acts|
  {
    if j == n then 0
    else Excess(acts, j, n - 1) + if acts[n - 1].Exit? then 1 else if acts[n - 1].Handle? then -1 else 0
  }

  lemma StepCountsZombies(a: Action, x: State, y: State)
    requires Tracked(x) && Step(a, x, y)
    ensures |y.zombies| == if a.Exit? then |x.zombies| + 1
                           else if a.Handle? && x.zombies != {} then |x.zombies| - 1 else |x.zombies|
  {
  }

  /** The zombies are the largest excess of exits over runs of the handler in any last
      stretch of the run, such as the one that begins at step since. */
  lemma {:induction false} ZombiesAreCounted(states: seq<State>, acts: seq<Action>, n: nat) returns (since: nat)
    requires IsRun(states, acts) && n <= |acts|
    ensures forall j | 0 <= j <= n :: Excess(acts, j, n) <= |states[n].zombies|
    ensures since <= n && Excess(acts, since, n) == |states[n].zombies|
  {
    hide Step, Tracked;
    since := 0;
    if n > 0 {
      var x, y := states[n - 1], states[n];
      since := ZombiesAreCounted(states, acts, n - 1);
      ChildrenAreTracked(states, acts, n - 1);
      StepCountsZombies(acts[n - 1], x, y);
      forall j | 0 <= j <= n ensures Excess(acts, j, n) <= |y.zombies| {
        assert j < n ==> Excess(acts, j, n - 1) <= |x.zombies|;
      }
      if acts[n - 1].Handle? && x.zombies == {} {
        since := n;
      }
    }
  }

  /** How often a child has exited, in the first n steps, while a signal was still pending:
      the signal of such an exit is merged into that one. */
  function Merged(states: seq<State>, acts: seq<Action>, n: nat): nat
    requires n <= |acts| < |states|
  {
    if n == 0 then 0
    else Merged(states, acts, n - 1) + if acts[n - 1].Exit? && states[n - 1].pending then 1 else 0
  }

  predicate NoneStops(acts: seq<Action>, n: nat)
    requires n <= |acts|
  {
    forall i | 0 <= i < n :: !acts[i].Stop?
  }

  /** There are no more zombies than merged signals and the one that is pending; and as many,
      if no child has stopped or gone on: each merged signal then leaves one for good. */
  lemma {:induction false} ZombiesAreMerged(states: seq<State>, acts: seq<Action>, n: nat)
    requires IsRun(states, acts) && n <= |acts|
    ensures var most := Merged(states, acts, n) + if states[n].pending then 1 else 0;
      |states[n].zombies| <= most && (NoneStops(acts, n) ==> |states[n].zombies| == most)
  {
    if n > 0 {
      ZombiesAreMerged(states, acts, n - 1);
      ChildrenAreTracked(states, acts, n - 1);
      StepCountsZombies(acts[n - 1], states[n - 1], states[n]);
    }
  }

  lemma {:induction false} NothingMerged(states: seq<State>, acts: seq<Action>, n: nat)
    requires n <= |acts| < |states|
    ensures Merged(states, acts, n) == 0 <==> forall i | 0 <= i < n :: acts[i].Exit? ==> !states[i].pending
  {
    if n > 0 {
      NothingMerged(states, acts, n - 1);
    }
  }

  /** No zombie is left exactly if in every last stretch of the run the handler has run at
      least as often as children have exited. If no child has stopped or gone on, and no
      signal is pending, that is: no child has ever exited while a signal was pending. */
  lemma ZombiesLeftExactly(states: seq<State>, acts: seq<Action>, n: nat)
    requires IsRun(states, acts) && n <= |acts|
    ensures states[n].zombies == {} <==> forall j | 0 <= j <= n :: Excess(acts, j, n) <= 0
    ensures NoneStops(acts, n) && !states[n].pending ==>
              (states[n].zombies == {} <==> forall i | 0 <= i < n :: acts[i].Exit? ==> !states[i].pending)
  {
    var since := ZombiesAreCounted(states, acts, n);
    ZombiesAreMerged(states, acts, n);
    NothingMerged(states, acts, n);
  }

  // ---------------------------------------------------------------- numbering

  predicate Numbered(x: State) {
    && (forall k | 0 <= k < |x.served| :: x.served[k].socket != FAILURE && 1 <= x.served[k].id <= x.numClients)
    && (forall j, k | 0 <= j < k < |x.served| :: x.served[j].id < x.served[k].id)
    && |x.served| + x.lost + (if x.main.Accepted? then 1 else 0) == x.numClients
    && (x.lost == 0 ==> forall k | 0 <= k < |x.served| :: x.served[k].id == k + 1)
    && (x.main.Accepted? ==>
          && x.main.client.socket != FAILURE && x.main.client.id == x.numClients
          && forall k | 0 <= k < |x.served| :: x.served[k].id < x.numClients)
  }

  /** Served clients have growing ids and a socket that was really accepted; and as long as
      no fork has failed the ids are 1, 2, 3 and so on without a gap. */
  lemma {:induction false} ClientsAreNumbered(states: seq<State>, acts: seq<Action>, n: nat)
    requires IsRun(states, acts) && n <= |acts|
    ensures Numbered(states[n])
  {
    if n > 0 {
      ClientsAreNumbered(states, acts, n - 1);
      assert Step(acts[n - 1], states[n - 1], states[n]);
    }
  }

  predicate NoGap(x: State) { forall k | 0 <= k < |x.served| :: x.served[k].id == k + 1 }

  /** No fork fails before one that succeeds. */
  predicate FailuresComeLast(acts: seq<Action>) {
    forall i, j | 0 <= i < j < |acts| :: acts[i] == Fork(FAILURE) ==> !Forking(acts[j])
  }

  lemma {:induction false} LostForks(states: seq<State>, acts: seq<Action>, n: nat)
    requires IsRun(states, acts) && n <= |acts|
    ensures states[n].lost > 0 <==> Fork(FAILURE) in acts[..n]
  {
    if n > 0 {
      LostForks(states, acts, n - 1);
      assert Step(acts[n - 1], states[n - 1], states[n]);
      assert acts[..n] == acts[..n - 1] + [acts[n - 1]];
    }
  }

  lemma OneMoreServed(a: Action, x: State, y: State)
    requires Numbered(x) && Step(a, x, y) && Forking(a)
    ensures NoGap(y) <==> NoGap(x) && x.lost == 0
  {
    assert y.served == x.served + [Connection(x.main.client.socket, |x.served| + x.lost + 1)];
    if NoGap(y) {
      assert y.served[|x.served|].id == |x.served| + 1;
      assert forall k | 0 <= k < |x.served| :: x.served[k] == y.served[k];
    }
  }

  lemma NoneServed(a: Action, x: State, y: State)
    requires Step(a, x, y) && !Forking(a)
    ensures NoGap(y) <==> NoGap(x)
  {
    assert y.served == x.served;
  }

  /** The ids of the served clients are 1, 2, 3 and so on exactly when no fork has failed
      before one that succeeded: a client whose fork fails uses up a number. */
  lemma {:induction false} NumberedWithoutGap(states: seq<State>, acts: seq<Action>, n: nat)
    requires IsRun(states, acts) && n <= |acts|
    ensures NoGap(states[n]) <==> FailuresComeLast(acts[..n])
  {
    hide FailuresComeLast, NoGap, Numbered;
    if n == 0 {
      NoForks();
      NobodyServed();
    } else {
      var x, y, a, before := states[n - 1], states[n], acts[n - 1], acts[..n - 1];
      NumberedWithoutGap(states, acts, n - 1);
      ClientsAreNumbered(states, acts, n - 1);
      LostForks(states, acts, n - 1);
      assert Step(a, x, y);
      assert acts[..n] == before + [a];
      if Forking(a) {
        OneMoreServed(a, x, y);
        assert FailuresComeLast(before + [a]) <==> FailuresComeLast(before) && Fork(FAILURE) !in before by {
          LastForkSucceeds(before, a);
        }
      } else {
        NoneServed(a, x, y);
        NoLaterFork(before, a);
      }
    }
  }

  lemma NobodyServed()
    ensures NoGap(START)
  {
  }

  lemma NoForks()
    ensures FailuresComeLast([])
  {
  }

  lemma LastForkSucceeds(before: seq<Action>, a: Action)
    requires Forking(a)
    ensures FailuresComeLast(before + [a]) <==> FailuresComeLast(before) && Fork(FAILURE) !in before
  {
    var after := before + [a];
    assert forall i | 0 <= i < |before| :: after[i] == before[i];
    assert after[|before|] == a;
    if FailuresComeLast(after) {
      assert forall i | 0 <= i < |before| :: after[i] != Fork(FAILURE);
      assert forall i, j | 0 <= i < j < |before| :: after[i] == Fork(FAILURE) ==> !Forking(after[j]);
    }
  }

  lemma NoLaterFork(before: seq<Action>, a: Action)
    requires !Forking(a)
    ensures FailuresComeLast(before + [a]) <==> FailuresComeLast(before)
  {
    var after := before + [a];
    assert forall i | 0 <= i < |before| :: after[i] == before[i];
    if FailuresComeLast(after) {
      assert forall i, j | 0 <= i < j < |before| :: after[i] == Fork(FAILURE) ==> !Forking(after[j]);
    }
  }

  // ---------------------------------------------------------------- the program

  class Server {
    var numClients: nat

    constructor ()
      ensures numClients == 0
    {
      numClients := 0;
    }

    /** connSock is what `accept` returned. */
    method AcceptConnection(connSock: int) returns (newClient: Connection)
      modifies this
      ensures (numClients, newClient) == Acceptance(old(numClients), connSock)
    {
      if connSock != FAILURE {
        numClients := numClients + 1;
      }
      newClient := Connection(connSock, numClients);
    }
  }

  class Parent {
    const server: Server
    var children: seq<int>
    var served: seq<Connection>
    ghost var state: State

    ghost predicate Valid()
      reads this, server
    {
      state.children == children && state.numClients == server.numClients && state.served == served
    }

    constructor ()
      ensures Valid() && state == START && fresh(server)
    {
      server := new Server();
      children, served := [], [];
      state := START;
    }

    /** One turn of the accept loop, without its child's part: accept returns connSock, and
        fork, if it is reached, pid. No signal arrives meanwhile. */
    method Turn(connSock: int, pid: int)
      requires Valid() && state.main.Accepting?
      modifies this, server
      ensures Valid() && state.main.Accepting?
      ensures var x := OnAccept(old(state), connSock);
        state == if x.main.Accepting? then x
                 else OnFork(x, pid).(main := Accepting, children := x.children + [pid])
    {
      var client := server.AcceptConnection(connSock);
      state := OnAccept(state, connSock);
      if client.socket == FAILURE { return; }
      if pid != FAILURE { served := served + [client]; }
      children := children + [pid];
      state := OnFork(state, pid).(main := Accepting, children := state.children + [pid]);
    }

    /** The SIGCHLD branch of `sigHandler`; child is the result of `waitpid`. */
    method OnChildSignal(child: int)
      requires Valid()
      modifies this
      ensures Valid() && state == OnHandle(old(state), child)
    {
      if child != FAILURE {
        Remove(child);
      }
      state := OnHandle(state, child);
    }

    /** `children.remove(child)`, in place. */
    method Remove(child: int)
      modifies this`children
      ensures children == Without(old(children), child)
    {
      var i := 0;
      while i < |children|
        invariant i <= |children|
        invariant children[..i] + Without(children[i..], child) == Without(old(children), child)
        decreases |children| - i
      {
        var rest := children[i + 1..];
        assert children[i..][1..] == rest;
        if children[i] == child {
          children := children[..i] + rest;
          assert children[i..] == rest;
        } else {
          assert children[..i] + [children[i]] == children[..i + 1];
          i := i + 1;
        }
      }
    }

    /** The SIGINT and SIGTERM branch: SIGTERM for every child in the list. */
    method KillChildren() returns (killed: seq<int>)
      ensures killed == children
    {
      killed := [];
      var i := 0;
      while i < |children|
        invariant 0 <= i <= |children| && killed == children[..i]
      {
        killed := killed + [children[i]];
        i := i + 1;
      }
    }
  }

  /** A shutdown outside the window reaches every child that is still running. */
  lemma ShutdownReachesAll(states: seq<State>, acts: seq<Action>, n: nat)
    requires IsRun(states, acts) && n <= |acts| && !states[n].main.Forked?
    ensures forall p | p in states[n].running :: p in states[n].children
  {
    ChildrenAreTracked(states, acts, n);
    assert forall p | p in states[n].running :: p in Unreaped(states[n]);
  }

  /** The list holds pids, and the -1 of a fork that failed. */
  lemma {:induction false} ListedPids(states: seq<State>, acts: seq<Action>, n: nat)
    requires IsRun(states, acts) && n <= |acts|
    ensures forall p | Listed(states[n], p) :: p > 0 || p == FAILURE
    ensures Listed(states[n], FAILURE) <==> Fork(FAILURE) in acts[..n]
  {
    if n > 0 {
      ListedPids(states, acts, n - 1);
      var x, y, a := states[n - 1], states[n], acts[n - 1];
      assert Step(a, x, y);
      assert acts[..n] == acts[..n - 1] + [a];
      assert forall p | Listed(y, p) :: Listed(x, p) || a == Fork(p);
      assert Listed(x, FAILURE) ==> Listed(y, FAILURE);
    }
  }

  /** A shutdown outside the window signals nothing but unreaped children exactly when no
      fork has failed before it, and no child was reaped inside its window unless its pid
      was forked again. (A SIGTERM for the -1 of a failed fork goes to every process.) */
  lemma ShutdownSignalsExactly(states: seq<State>, acts: seq<Action>, n: nat)
    requires IsRun(states, acts) && n <= |acts| && !states[n].main.Forked?
    ensures (forall p | p in states[n].children :: p in Unreaped(states[n]))
       <==> Fork(FAILURE) !in acts[..n] && forall p, i | p > 0 :: !ReapedInWindow(states, acts, n, p, i)
  {
    var x := states[n];
    ListedPids(states, acts, n);
    ChildrenAreTracked(states, acts, n);
    forall p | p > 0 && p !in Unreaped(x)
      ensures p in x.children <==> exists i :: ReapedInWindow(states, acts, n, p, i)
    {
      StaleExactly(states, acts, n, p);
    }
    forall p, i | p > 0 && ReapedInWindow(states, acts, n, p, i)
      ensures p in x.children && p !in Unreaped(x)
    {
      InWindowStaysListed(states, acts, n, p, i);
    }
    assert Listed(x, FAILURE) <==> FAILURE in x.children;
    assert forall p | p in x.children :: Listed(x, p);
  }

  /** A witness: two children that exit before the handler runs leave one zombie behind, with
      no signal pending. */
  lemma MergedSignalsLeaveZombie() returns (states: seq<State>, acts: seq<Action>)
    ensures IsRun(states, acts)
    ensures var x := states[|acts|]; x.zombies == {8} && x.children == [8] && !x.pending && x.running == {}
  {
    acts := [Accept(3), Fork(7), Push, Accept(4), Fork(8), Push, Exit(7), Exit(8), Handle(7)];
    var c1, c2 := Connection(3, 1), Connection(4, 2);
    var s1 := State(Accepted(c1), 1, [], [], 0, {}, {}, false);
    var s2 := State(Forked(7), 1, [], [c1], 0, {7}, {}, false);
    var s3 := State(Accepting, 1, [7], [c1], 0, {7}, {}, false);
    var s4 := State(Accepted(c2), 2, [7], [c1], 0, {7}, {}, false);
    var s5 := State(Forked(8), 2, [7], [c1, c2], 0, {7, 8}, {}, false);
    var s6 := State(Accepting, 2, [7, 8], [c1, c2], 0, {7, 8}, {}, false);
    var s7 := State(Accepting, 2, [7, 8], [c1, c2], 0, {8}, {7}, true);
    var s8 := State(Accepting, 2, [7, 8], [c1, c2], 0, {}, {7, 8}, true);
    var s9 := State(Accepting, 2, [8], [c1, c2], 0, {}, {8}, false);
    assert Without([7, 8], 7) == [8];
    states := [START, s1, s2, s3, s4, s5, s6, s7, s8, s9];
  }

  /** A witness: the signal of a child that stops takes in the one of its exit, and yet no zombie
      is left. */
  lemma StoppedChildIsReaped() returns (states: seq<State>, acts: seq<Action>)
    ensures IsRun(states, acts) && !NoneStops(acts, |acts|)
    ensures var x := states[|acts|]; x.zombies == {} && !x.pending && Merged(states, acts, |acts|) == 1
  {
    acts := [Accept(3), Fork(7), Push, Stop(7), Exit(7), Handle(7)];
    var c1 := Connection(3, 1);
    var s1 := State(Accepted(c1), 1, [], [], 0, {}, {}, false);
    var s2 := State(Forked(7), 1, [], [c1], 0, {7}, {}, false);
    var s3 := State(Accepting, 1, [7], [c1], 0, {7}, {}, false);
    var s4 := State(Accepting, 1, [7], [c1], 0, {7}, {}, true);
    var s5 := State(Accepting, 1, [7], [c1], 0, {}, {7}, true);
    var s6 := State(Accepting, 1, [], [c1], 0, {}, {}, false);
    states := [START, s1, s2, s3, s4, s5, s6];
    assert acts[3] == Stop(7) && Without([7], 7) == [];
    NothingMerged(states, acts, 4);
  }
}
