/**
 The child accounting of tcp_code/server_fork.c: `user` is raised by the accepting process and
 lowered by its SIGCHLD handler, once per child that waitpid reports. SIGCHLD does not queue:
 however many children die before it is delivered, it is pending once. It is blocked until the
 first fork has returned and the handler is installed.

 A step is one system call, one update of `user`, the death of a child, or the delivery of the
 signal. The handler interrupts the process between any two of its steps, which then wait.
 */
module ForkServer {

  datatype Acceptor =
    | Accepting
    | Counted        // ++user done, before fork
    | Forked         // before sigaction
    | Installed      // before SIGCHLD is unblocked

  datatype Handler = Idle | Looping     // Looping: at waitpid

  datatype State = State(
    user: int,
    alive: nat,          // children running
    dead: nat,           // children dead and not reaped
    pending: bool,       // SIGCHLD
    blocked: bool,
    installed: bool,
    acceptor: Acceptor,
    handler: Handler)

  datatype Step =
    | Accept | Fork | Install | Unblock
    | ChildDies
    | Deliver | Reap | ReapNone

  function Init(): State {
    State(0, 0, 0, false, true, false, Accepting, Idle)
  }

  predicate Enabled(s: State, step: Step) {
    match step
    case Accept => s.handler.Idle? && s.acceptor.Accepting?
    case Fork => s.handler.Idle? && s.acceptor.Counted?
    case Install => s.handler.Idle? && s.acceptor.Forked?
    case Unblock => s.handler.Idle? && s.acceptor.Installed?
    case ChildDies => s.alive > 0
    case Deliver => s.pending && !s.blocked && s.installed && s.handler.Idle?
    case Reap => s.handler.Looping? && s.dead > 0
    case ReapNone => s.handler.Looping? && s.dead == 0
  }

  function Apply(s: State, step: Step): State
    requires Enabled(s, step)
  {
    match step
    case Accept => s.(user := s.user + 1, acceptor := Counted)
    case Fork => s.(alive := s.alive + 1, acceptor := Forked)
    case Install => s.(installed := true, acceptor := Installed)
    case Unblock => s.(blocked := false, acceptor := Accepting)
    case ChildDies => s.(alive := s.alive - 1, dead := s.dead + 1, pending := true)
    case Deliver => s.(pending := false, handler := Looping)
    case Reap => s.(dead := s.dead - 1, user := s.user - 1)
    case ReapNone => s.(handler := Idle)
  }

  predicate Legal(s: State, steps: seq<Step>)
    decreases |steps|
  {
    |steps| > 0 ==> Enabled(s, steps[0]) && Legal(Apply(s, steps[0]), steps[1..])
  }

  function Exec(s: State, steps: seq<Step>): State
    requires Legal(s, steps)
    decreases |steps|
  {
    if |steps| == 0 then s else Exec(Apply(s, steps[0]), steps[1..])
  }

  // ++user has run for a child that does not exist yet.
  function Unforked(s: State): nat {
    if s.acceptor.Counted? then 1 else 0
  }

  ghost predicate Inv(s: State) {
    && NoZombieForgotten(s)
    && CounterIsRight(s)
    && (s.blocked && !s.installed && (s.acceptor.Accepting? || s.acceptor.Counted?) ==> s.alive + s.dead == 0)
    && (s.blocked && (s.acceptor.Accepting? || s.acceptor.Counted?) ==> !s.installed)
    && (!s.blocked || s.acceptor.Installed? ==> s.installed)
  }

  lemma {:induction false} InvRun(s: State, steps: seq<Step>)
    requires Inv(s) && Legal(s, steps)
    ensures Inv(Exec(s, steps))
    decreases |steps|
  {
    if |steps| > 0 {
      InvRun(Apply(s, steps[0]), steps[1..]);
    }
  }

  // Although signals coalesce, a child that is dead and not reaped is one that SIGCHLD is still
  // pending for, or one the handler will reach: it has not yet seen waitpid come up empty.
  predicate NoZombieForgotten(s: State) {
    s.dead > 0 ==> s.pending || s.handler.Looping?
  }

  // The counter is the children not yet reaped and the one about to be forked.
  predicate CounterIsRight(s: State) {
    s.user == s.alive + s.dead + Unforked(s)
  }

  /** Both hold in every run. */
  lemma {:induction false} ChildrenAreAccountedFor(steps: seq<Step>, s: State)
    requires Legal(Init(), steps) && s == Exec(Init(), steps)
    ensures NoZombieForgotten(s) && CounterIsRight(s)
  {
    InvRun(Init(), steps);
  }

  // The server is back at accept, no child runs, and no signal is left to handle.
  predicate Settled(s: State) {
    s.acceptor.Accepting? && s.alive == 0 && s.handler.Idle? && !Enabled(s, Deliver)
  }

  /** When the server settles, every child has been reaped and the counter is zero. */
  lemma {:induction false} CounterReturnsToZero(steps: seq<Step>, s: State)
    requires Legal(Init(), steps) && s == Exec(Init(), steps) && Settled(s)
    ensures s.user == 0 && s.dead == 0
  {
    InvRun(Init(), steps);
    SettledIsEmpty(s);
  }

  lemma SettledIsEmpty(s: State)
    requires Inv(s) && Settled(s)
    ensures s.user == 0 && s.dead == 0
  {
  }

  // What the server still has to do before it settles, if nobody connects.
  function Load(s: State): nat {
    4 * s.alive + s.dead + (if s.pending then 2 else 0) + (if s.handler.Looping? then 1 else 0) +
    match s.acceptor
    case Accepting => 0
    case Installed => 1
    case Forked => 2
    case Counted => 7
  }

  lemma {:induction false} EachStepHelps(s: State, steps: seq<Step>)
    requires Legal(s, steps) && Accept !in steps
    ensures Load(Exec(s, steps)) + |steps| <= Load(s)
    decreases |steps|
  {
    if |steps| > 0 {
      assert steps[0] in steps;
      EachStepHelps(Apply(s, steps[0]), steps[1..]);
    }
  }

  // Until it settles some step other than an accept is possible.
  lemma NeverStuck(s: State)
    requires !Settled(s)
    ensures exists step :: step != Accept && Enabled(s, step)
  {
    var step :=
      if s.alive > 0 then ChildDies
      else if s.handler.Looping? then (if s.dead > 0 then Reap else ReapNone)
      else match s.acceptor
        case Counted => Fork
        case Forked => Install
        case Installed => Unblock
        case Accepting => Deliver;
    assert step != Accept && Enabled(s, step);
  }

  // Some run leads here.
  ghost predicate Reachable(s: State) {
    exists steps :: Legal(Init(), steps) && Exec(Init(), steps) == s
  }

  lemma {:induction false} ReachableInv(s: State)
    requires Reachable(s)
    ensures Inv(s)
  {
    var steps :| Legal(Init(), steps) && Exec(Init(), steps) == s;
    InvRun(Init(), steps);
  }

  /** Whatever has happened: if nobody connects any more and the children end, the server settles
      after a bounded number of steps, and then the counter is zero. */
  lemma SettlesAtZero(s: State, after: seq<Step>)
    requires Reachable(s) && Legal(s, after) && Accept !in after
    ensures |after| <= Load(s)
    ensures
      var s' := Exec(s, after);
      if Settled(s') then s'.user == 0 && s'.dead == 0 else exists step :: step != Accept && Enabled(s', step)
  {
    ReachableInv(s);
    SettlesFrom(s, after);
  }

  lemma SettlesFrom(s: State, after: seq<Step>)
    requires Inv(s) && Legal(s, after) && Accept !in after
    ensures |after| <= Load(s)
    ensures
      var s' := Exec(s, after);
      if Settled(s') then s'.user == 0 && s'.dead == 0 else exists step :: step != Accept && Enabled(s', step)
  {
    EachStepHelps(s, after);
    InvRun(s, after);
    if Settled(Exec(s, after)) {
      SettledIsEmpty(Exec(s, after));
    } else {
      NeverStuck(Exec(s, after));
    }
  }

  lemma {:induction false} RunOn(s: State, first: seq<Step>, more: seq<Step>)
    requires Legal(s, first) && Legal(Exec(s, first), more)
    ensures Legal(s, first + more) && Exec(s, first + more) == Exec(Exec(s, first), more)
    decreases |first|
  {
    if |first| == 0 {
      assert first + more == more;
    } else {
      assert (first + more)[1..] == first[1..] + more;
      RunOn(Apply(s, first[0]), first[1..], more);
    }
  }

  lemma One(s: State, step: Step)
    requires Enabled(s, step)
    ensures Legal(s, [step]) && Exec(s, [step]) == Apply(s, step)
  {
    assert [step][1..] == [];
    assert Legal(Apply(s, step), []);
  }

  // n children die, one after the other; the signal is pending once.
  lemma {:induction false} Deaths(s: State, n: nat)
    requires n <= s.alive
    ensures
      var steps := seq(n, _ => ChildDies);
      && Legal(s, steps)
      && Exec(s, steps) == s.(alive := s.alive - n, dead := s.dead + n, pending := s.pending || n > 0)
    decreases n
  {
    if n > 0 {
      var steps := seq(n, _ => ChildDies);
      assert steps[1..] == seq(n - 1, _ => ChildDies);
      Deaths(Apply(s, ChildDies), n - 1);
    }
  }

  /** The process as the handler sees it, interrupted at `at`. */
  class Server {
    var user: int
    var alive: nat
    var dead: nat
    var pending: bool
    const at: Acceptor

    ghost function View(handler: Handler): State
      reads this
    {
      State(user, alive, dead, pending, false, true, at, handler)
    }

    constructor (user: int, alive: nat, dead: nat, pending: bool, at: Acceptor)
      ensures View(Looping) == State(user, alive, dead, pending, false, true, at, Looping)
    {
      this.user, this.alive, this.dead, this.pending, this.at := user, alive, dead, pending, at;
    }

    /** recycle_child, the signal just taken. `deaths[k]` children die just before its k-th
        waitpid, as far as there are any. `run` is what it does as steps of the whole server.
        When it returns, every child dead by its last waitpid has been reaped and taken off the
        counter; the deaths meanwhile have made the signal pending once more. */
    method RecycleChild(deaths: seq<nat>) returns (reaped: nat, ghost run: seq<Step>)
      modifies this
      ensures Legal(old(View(Looping)), run) && Exec(old(View(Looping)), run) == View(Idle)
      ensures dead == 0 && reaped == old(dead) + (old(alive) - alive)
      ensures user == old(user) - reaped
      ensures alive <= old(alive) && (pending <==> old(pending) || alive < old(alive))
    {
      reaped, run := 0, [];
      var round := 0;
      var pid: nat := 1;
      ghost var start := View(Looping);
      while pid > 0
        invariant user == old(user) - reaped && alive <= old(alive)
        invariant reaped + dead == old(dead) + (old(alive) - alive)
        invariant pending <==> old(pending) || alive < old(alive)
        invariant pid == 0 ==> dead == 0
        invariant Legal(start, run) && Exec(start, run) == View(if pid > 0 then Looping else Idle)
        decreases alive + dead, pid
      {
        var n := if round < |deaths| then deaths[round] else 0;
        run := ChildrenDie(if n <= alive then n else alive, start, run);
        round := round + 1;
        pid, run := WaitPid(start, run);
        if pid > 0 {
          reaped := reaped + 1;
        }
      }
    }

    // waitpid(0, NULL, WNOHANG), and user-- if it reports a child.
    method WaitPid(ghost start: State, ghost run: seq<Step>) returns (pid: nat, ghost more: seq<Step>)
      requires Legal(start, run) && Exec(start, run) == View(Looping)
      modifies this`dead, this`user
      ensures pid > 0 <==> old(dead) > 0
      ensures if pid > 0 then dead == old(dead) - 1 && user == old(user) - 1 else dead == 0 && user == old(user)
      ensures Legal(start, more) && Exec(start, more) == View(if pid > 0 then Looping else Idle)
    {
      ghost var step := if dead > 0 then Reap else ReapNone;
      One(View(Looping), step);
      RunOn(start, run, [step]);
      more := run + [step];
      if dead > 0 {
        dead := dead - 1;
        user := user - 1;
        pid := 1;
      } else {
        pid := 0;
      }
    }

    method ChildrenDie(n: nat, ghost start: State, ghost run: seq<Step>) returns (ghost more: seq<Step>)
      requires n <= alive
      requires Legal(start, run) && Exec(start, run) == View(Looping)
      modifies this`alive, this`dead, this`pending
      ensures alive == old(alive) - n && dead == old(dead) + n && pending == (old(pending) || n > 0)
      ensures Legal(start, more) && Exec(start, more) == View(Looping)
    {
      Deaths(View(Looping), n);
      more := run + seq(n, _ => ChildDies);
      RunOn(start, run, seq(n, _ => ChildDies));
      alive := alive - n;
      dead := dead + n;
      pending := pending || n > 0;
    }
  }
}
