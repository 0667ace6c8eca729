/**
 * The supervisor's child reaper (lib/tether/tether_linux.go, childReaper and
 * stopReaper).
 *
 * One wake-up of the reaper is a drain pass. Before each call to Wait4 it checks
 * the `done` channel and gives up once shutdown has begun. Wait4 reporting pid 0 or
 * ECHILD ends the pass normally. Any other error ends it with a warning. A
 * stop/continue notification is skipped. A real exit or signal death removes the
 * pid from the session table, records the exit status on the session and calls
 * the exit handler. An exit of a pid with no session is an adopted zombie, which
 * is only logged.
 *
 * The kernel's answers are the sequence `waits`: the k-th call to Wait4 returns
 * `waits[k]`, and every call after its end reports pid 0 (no child wishes to
 * report). Another goroutine may close `done` while a pass runs: `closedAt` is
 * the number of checks that still find it open.
 */
module ChildReaper {
  import opened Wrappers

  /** The errors Wait4 can return that the pass tells apart. */
  datatype Errno = ECHILD | EINTR | EINVAL

  /** The exit code the kernel keeps for an exited process: the low 8 bits of its `exit` argument. */
  type ExitCode = c: int | 0 <= c < 256

  /** A syscall.WaitStatus, by the case its predicates distinguish. */
  datatype WaitStatus =
    | Exited(code: ExitCode)
    | Signaled(signal: int)
    | Stopped(signal: int)
    | Continued

  /**
   * WaitStatus.ExitStatus: the exit code of an exited process, -1 for any other
   * status. The two never meet: -1 is no exit code, so a recorded status tells
   * a normal exit from a death by signal.
   */
  function ExitStatus(s: WaitStatus): (code: int)
    ensures -1 <= code < 256
    ensures code == -1 <==> !s.Exited?
    ensures s.Exited? ==> code == s.code
  {
    match s
    case Exited(c) => c
    case _ => -1
  }

  /** One answer of Wait4(-1, &status, WNOHANG|WUNTRACED|WCONTINUED, nil). */
  datatype WaitResult = WaitResult(pid: int, err: Option<Errno>, status: WaitStatus)

  /** A supervised process's session record; the reaper writes its exit status. */
  class Session {
    const ID: string
    var ExitStatus: int

    constructor (id: string)
      ensures ID == id && ExitStatus == 0
    {
      ID := id;
      ExitStatus := 0;
    }
  }

  /** Why a drain pass ended. */
  datatype PassEnd = ShutDown | NoMoreChildren | WaitFailed(err: Errno)

  /** One reaped session: its pid, its record and the status written into it. */
  datatype Reap = Reap(pid: int, session: Session, status: int)

  /** What a drain pass did: reaps and zombies in order, how many times it called Wait4, why it stopped. */
  datatype PassTrace = PassTrace(reaps: seq<Reap>, zombies: seq<int>, calls: nat, end: PassEnd)

  function PidsOf(reaps: seq<Reap>): set<int> {
    set r | r in reaps :: r.pid
  }

  function SessionsOf(reaps: seq<Reap>): seq<Session> {
    if |reaps| == 0 then [] else [reaps[0].session] + SessionsOf(reaps[1..])
  }

  /** The checks of `done` that find it closed: all of them when it was closed at the start. */
  function ClosedFrom(doneAtStart: bool, closedAt: nat): nat {
    if doneAtStart then 0 else closedAt
  }

  /** The specification of a drain pass from its k-th iteration on, over the table as it is then. */
  function Drain(table: map<int, Session>, waits: seq<WaitResult>, closedAt: nat, k: nat): PassTrace
    requires k <= |waits|
    decreases |waits| - k
  {
    if closedAt <= k then PassTrace([], [], k, ShutDown)
    else if k == |waits| then PassTrace([], [], k + 1, NoMoreChildren)
    else
      var w := waits[k];
      if w.pid == 0 || w.err == Some(ECHILD) then PassTrace([], [], k + 1, NoMoreChildren)
      else if w.err.Some? then PassTrace([], [], k + 1, WaitFailed(w.err.value))
      else if !w.status.Exited? && !w.status.Signaled? then Drain(table, waits, closedAt, k + 1)
      else if w.pid in table then
        var rest := Drain(table - {w.pid}, waits, closedAt, k + 1);
        rest.(reaps := [Reap(w.pid, table[w.pid], ExitStatus(w.status))] + rest.reaps)
      else
        var rest := Drain(table, waits, closedAt, k + 1);
        rest.(zombies := [w.pid] + rest.zombies)
  }

  /** A stop/continue report or an adopted zombie's exit reaps nothing and the pass goes on. */
  lemma DrainPassesOver(table: map<int, Session>, waits: seq<WaitResult>, closedAt: nat, k: nat)
    requires k < |waits| && closedAt > k && waits[k].pid != 0 && waits[k].err.None?
    requires (!waits[k].status.Exited? && !waits[k].status.Signaled?) || waits[k].pid !in table
    ensures Drain(table, waits, closedAt, k).reaps == Drain(table, waits, closedAt, k + 1).reaps
    ensures Drain(table, waits, closedAt, k).end == Drain(table, waits, closedAt, k + 1).end
  {
  }

  /** An exit of a pid with a session reaps it first, and the pass goes on without it. */
  lemma DrainReaps(table: map<int, Session>, waits: seq<WaitResult>, closedAt: nat, k: nat)
    requires k < |waits| && closedAt > k && waits[k].pid != 0 && waits[k].err.None?
    requires (waits[k].status.Exited? || waits[k].status.Signaled?) && waits[k].pid in table
    ensures var w := waits[k];
            Drain(table, waits, closedAt, k).reaps ==
              [Reap(w.pid, table[w.pid], ExitStatus(w.status))] + Drain(table - {w.pid}, waits, closedAt, k + 1).reaps
    ensures Drain(table, waits, closedAt, k).end == Drain(table - {waits[k].pid}, waits, closedAt, k + 1).end
  {
  }

  /** Each pid of the table maps to its own session record. */
  ghost predicate Injective(table: map<int, Session>) {
    forall p, q :: p in table && q in table && p != q ==> table[p] != table[q]
  }

  /** The tether's reaping state: the session table keyed by pid and the shutdown channels. */
  class Reaper {
    /** childPidTable: the sessions still running, by pid */
    var sessions: map<int, Session>
    /** the `done` channel has been closed */
    var done: bool
    /** SIGCHLD is still delivered to the `incoming` channel */
    var notifying: bool
    /** the `incoming` channel is still open */
    var incomingOpen: bool
    /** the sessions handed to the exit handler, in order */
    var exited: seq<Session>
    /** the shutdown steps taken, in order */
    var shutdownSteps: seq<ShutdownStep>

    ghost predicate Valid()
      reads this
    {
      Injective(sessions)
    }

    /** The reaper as childReaper leaves it: notifications on, nothing reaped yet. */
    constructor (table: map<int, Session>)
      requires Injective(table)
      ensures Valid()
      ensures sessions == table && !done && notifying && incomingOpen
      ensures exited == [] && shutdownSteps == []
    {
      sessions := table;
      done := false;
      notifying := true;
      incomingOpen := true;
      exited := [];
      shutdownSteps := [];
    }

    /**
     * An exited child with a session: drop its pid from the table, write the
     * exit status into its session and hand the session to the exit handler.
     */
    method RemoveChild(pid: int, status: int)
      requires Valid() && pid in sessions
      modifies this, sessions[pid]
      ensures Valid()
      ensures sessions == old(sessions) - {pid}
      ensures old(sessions)[pid].ExitStatus == status
      ensures exited == old(exited) + [old(sessions)[pid]]
      ensures forall p :: p in sessions ==> sessions[p].ExitStatus == old(sessions[p].ExitStatus)
      ensures done == old(done) && notifying == old(notifying) && incomingOpen == old(incomingOpen)
      ensures shutdownSteps == old(shutdownSteps)
    {
      var session := sessions[pid];
      sessions := sessions - {pid};
      session.ExitStatus := status;
      exited := exited + [session];
    }

    /** RemoveChild inside a drain pass, extending the record of what the pass has reaped. */
    method ReapStep(pid: int, status: int, ghost table0: map<int, Session>, ghost soFar: seq<Reap>)
      returns (ghost reaped: seq<Reap>)
      requires Valid() && pid in sessions && Injective(table0)
      requires sessions == table0 - PidsOf(soFar)
      requires forall r :: r in soFar ==> r.pid in table0 && table0[r.pid] == r.session && r.pid !in sessions
      requires forall r :: r in soFar ==> r.session.ExitStatus == r.status
      modifies this, sessions[pid]
      ensures reaped == soFar + [Reap(pid, old(sessions)[pid], status)]
      ensures Valid() && sessions == old(sessions) - {pid}
      ensures sessions == table0 - PidsOf(reaped)
      ensures forall r :: r in reaped ==> r.pid in table0 && table0[r.pid] == r.session && r.pid !in sessions
      ensures forall r :: r in reaped ==> r.session.ExitStatus == r.status
      ensures SessionsOf(reaped) == SessionsOf(soFar) + [old(sessions)[pid]]
      ensures exited == old(exited) + [old(sessions)[pid]]
      ensures forall p :: p in sessions ==> sessions[p].ExitStatus == old(sessions[p].ExitStatus)
      ensures done == old(done) && notifying == old(notifying) && incomingOpen == old(incomingOpen)
      ensures shutdownSteps == old(shutdownSteps)
    {
      var r := Reap(pid, sessions[pid], status);
      ReapedSessionIsFresh(soFar, table0, sessions, pid);
      RemoveChild(pid, status);
      SessionsOfAppend(soFar, r);
      PidsOfAppend(soFar, r);
      reaped := soFar + [r];
    }

    /** One wake-up of the reaper: reap until no child is left to report, shutdown, or an error. */
    method DrainPass(waits: seq<WaitResult>, closedAt: nat) returns (end: PassEnd)
      requires Valid()
      modifies this, sessions.Values
      ensures Valid()
      ensures var t := Drain(old(sessions), waits, ClosedFrom(old(done), closedAt), 0);
              && end == t.end
              && sessions == old(sessions) - PidsOf(t.reaps)
              && exited == old(exited) + SessionsOf(t.reaps)
              && (forall r :: r in t.reaps ==> r.session.ExitStatus == r.status)
      ensures forall p :: p in sessions ==> sessions[p].ExitStatus == old(sessions[p].ExitStatus)
      ensures done == old(done) && notifying == old(notifying) && incomingOpen == old(incomingOpen)
      ensures shutdownSteps == old(shutdownSteps)
    {
      ghost var table0 := sessions;
      ghost var c := ClosedFrom(done, closedAt);
      ghost var full := Drain(table0, waits, c, 0);
      ghost var soFar: seq<Reap> := [];
      var k := 0;
      while true
        invariant k <= |waits|
        invariant Valid()
        invariant var rest := Drain(sessions, waits, c, k);
                  full.reaps == soFar + rest.reaps && full.end == rest.end
        invariant forall r :: r in soFar ==> r.pid in table0 && table0[r.pid] == r.session && r.pid !in sessions
        invariant sessions == table0 - PidsOf(soFar)
        invariant exited == old(exited) + SessionsOf(soFar)
        invariant forall r :: r in soFar ==> r.session.ExitStatus == r.status
        invariant forall p :: p in sessions ==> sessions[p].ExitStatus == old(sessions[p].ExitStatus)
        invariant done == old(done) && notifying == old(notifying) && incomingOpen == old(incomingOpen)
        invariant shutdownSteps == old(shutdownSteps)
        decreases |waits| - k
      {
        // the done check that precedes every Wait4
        if done || closedAt <= k {
          end := ShutDown;
          break;
        }
        if k == |waits| {
          end := NoMoreChildren;
          break;
        }
        var w := waits[k];
        if w.pid == 0 || w.err == Some(ECHILD) {
          end := NoMoreChildren;
          break;
        }
        if w.err.Some? {
          end := WaitFailed(w.err.value);
          break;
        }
        if (!w.status.Exited? && !w.status.Signaled?) || w.pid !in sessions {
          DrainPassesOver(sessions, waits, c, k);
        } else {
          DrainReaps(sessions, waits, c, k);
          soFar := ReapStep(w.pid, ExitStatus(w.status), table0, soFar);
        }
        k := k + 1;
      }
      assert Drain(sessions, waits, c, k).reaps == [] && Drain(sessions, waits, c, k).end == end;
      assert full.reaps == soFar;
    }

    /** stopReaper: stop notifications, close `done`, then close `incoming`, in that order. */
    method StopReaper()
      requires !done && incomingOpen
      modifies this
      ensures shutdownSteps == old(shutdownSteps) + [NotifierReset, DoneClosed, IncomingClosed]
      ensures done && !notifying && !incomingOpen
      ensures sessions == old(sessions) && exited == old(exited)
    {
      notifying := false;
      shutdownSteps := shutdownSteps + [NotifierReset];
      done := true;
      shutdownSteps := shutdownSteps + [DoneClosed];
      incomingOpen := false;
      shutdownSteps := shutdownSteps + [IncomingClosed];
    }
  }

  /** The ordered steps of stopReaper. */
  datatype ShutdownStep = NotifierReset | DoneClosed | IncomingClosed

  /**
   * Once the done check finds the channel closed the pass makes no further
   * Wait4 call: whatever the kernel would have reported afterwards changes
   * nothing, neither a reap nor the table.
   */
  lemma {:induction false} NothingAfterShutdown(table: map<int, Session>, waits: seq<WaitResult>, c: nat, k: nat)
    requires k <= c <= |waits|
    ensures Drain(table, waits, c, k) == Drain(table, waits[..c], c, k)
    ensures Drain(table, waits, c, k).calls <= c
    decreases |waits| - k
  {
    if k < c {
      assert waits[..c][k] == waits[k];
      var w := waits[k];
      if !(w.pid == 0 || w.err == Some(ECHILD)) && w.err.None? && (w.status.Exited? || w.status.Signaled?) {
        if w.pid in table {
          NothingAfterShutdown(table - {w.pid}, waits, c, k + 1);
        } else {
          NothingAfterShutdown(table, waits, c, k + 1);
        }
      } else if !(w.pid == 0 || w.err == Some(ECHILD)) && w.err.None? {
        NothingAfterShutdown(table, waits, c, k + 1);
      }
    }
  }

  /** A pass that starts after `done` was closed calls Wait4 not even once. */
  lemma ClosedBeforeStartDoesNothing(table: map<int, Session>, waits: seq<WaitResult>, closedAt: nat)
    ensures Drain(table, waits, ClosedFrom(true, closedAt), 0) == PassTrace([], [], 0, ShutDown)
  {
  }

  /** A stop or continue notification is skipped: same table, same sessions, and the loop goes on. */
  lemma SkipsStopAndContinue(table: map<int, Session>, waits: seq<WaitResult>, c: nat, k: nat)
    requires k < |waits| && k < c
    requires waits[k].pid != 0 && waits[k].err.None?
    requires waits[k].status.Stopped? || waits[k].status.Continued?
    ensures Drain(table, waits, c, k) == Drain(table, waits, c, k + 1)
  {
  }

  /** An exit of a pid without a session is an adopted zombie: logged, the table is left alone. */
  lemma AdoptedZombieLeavesTable(table: map<int, Session>, waits: seq<WaitResult>, c: nat, k: nat)
    requires k < |waits| && k < c
    requires waits[k].pid != 0 && waits[k].err.None?
    requires waits[k].status.Exited? || waits[k].status.Signaled?
    requires waits[k].pid !in table
    ensures Drain(table, waits, c, k).reaps == Drain(table, waits, c, k + 1).reaps
    ensures Drain(table, waits, c, k).zombies == [waits[k].pid] + Drain(table, waits, c, k + 1).zombies
  {
  }

  /**
   * Why a pass stops: pid 0 or ECHILD ends it normally, any other error ends it
   * with that error, and otherwise it ran until the done check found the channel
   * closed. Every answer before the last one was a real report.
   */
  lemma {:induction false} DrainEndReasons(table: map<int, Session>, waits: seq<WaitResult>, c: nat, k: nat)
    requires k <= |waits| && k <= c
    ensures var t := Drain(table, waits, c, k);
            && k <= t.calls <= |waits| + 1
            && (t.end == ShutDown ==> t.calls == c)
            && (t.end != ShutDown ==> 1 <= t.calls <= c)
            && (t.end == NoMoreChildren ==>
                  (t.calls - 1 == |waits| ||
                   (t.calls - 1 < |waits| && (waits[t.calls - 1].pid == 0 || waits[t.calls - 1].err == Some(ECHILD)))))
            && (t.end.WaitFailed? ==>
                  (t.calls - 1 < |waits| && waits[t.calls - 1].pid != 0 &&
                   waits[t.calls - 1].err == Some(t.end.err) && t.end.err != ECHILD))
            && (forall i :: k <= i < |waits| && (i < t.calls - 1 || (t.end == ShutDown && i < t.calls)) ==>
                  waits[i].pid != 0 && waits[i].err.None?)
    decreases |waits| - k
  {
    if k < c && k < |waits| {
      var w := waits[k];
      if !(w.pid == 0 || w.err == Some(ECHILD)) && w.err.None? {
        if (w.status.Exited? || w.status.Signaled?) && w.pid in table {
          DrainEndReasons(table - {w.pid}, waits, c, k + 1);
        } else {
          DrainEndReasons(table, waits, c, k + 1);
        }
      }
    }
  }

  /**
   * Answer i is one the pass acted on, counting from the k-th: every answer up
   * to and including it was a real report, and the done check before it found
   * the channel open.
   */
  ghost predicate Reported(waits: seq<WaitResult>, c: nat, k: nat, i: int) {
    && k <= i < |waits| && i < c
    && forall j :: k <= j <= i ==> waits[j].pid != 0 && waits[j].err.None?
  }

  /** An answer reporting that a process exited or was killed by a signal. */
  ghost predicate IsExit(w: WaitResult) {
    w.status.Exited? || w.status.Signaled?
  }

  /**
   * Answer n, counting from the k-th, is the first exit report the pass acted
   * on for pid: no earlier answer it acted on reports an exit of that pid.
   */
  ghost predicate FirstExitOf(waits: seq<WaitResult>, c: nat, k: nat, n: int, pid: int) {
    && Reported(waits, c, k, n) && IsExit(waits[n]) && waits[n].pid == pid
    && forall j :: k <= j < n && IsExit(waits[j]) ==> waits[j].pid != pid
  }

  /** A first exit report from answer k + 1 on stays first from answer k on when answer k is not an exit of that pid. */
  lemma FirstExitFromLater(waits: seq<WaitResult>, c: nat, k: nat, n: int, pid: int)
    requires k < |waits| && k < c && waits[k].pid != 0 && waits[k].err.None?
    requires IsExit(waits[k]) ==> waits[k].pid != pid
    requires FirstExitOf(waits, c, k + 1, n, pid)
    ensures FirstExitOf(waits, c, k, n, pid)
  {
  }

  /**
   * Reaps that are owned and once: each pid is in the table with that session,
   * no pid is reaped twice, and each status is the one in the first exit
   * report the pass acted on for that pid, from the k-th answer on.
   */
  ghost predicate OwnedOnce(table: map<int, Session>, waits: seq<WaitResult>, c: nat, k: nat, reaps: seq<Reap>) {
    && (forall i :: 0 <= i < |reaps| ==> reaps[i].pid in table && reaps[i].session == table[reaps[i].pid])
    && (forall i, j :: 0 <= i < j < |reaps| ==> reaps[i].pid != reaps[j].pid)
    && (forall i :: 0 <= i < |reaps| ==>
          exists n :: FirstExitOf(waits, c, k, n, reaps[i].pid) && reaps[i].status == ExitStatus(waits[n].status))
  }

  /**
   * Every reap is of a pid owned by the table, at most once per pid, with the
   * session recorded for it and the status of the answer the pass acted on.
   */
  lemma {:induction false} ReapsAreOwnedAndOnce(table: map<int, Session>, waits: seq<WaitResult>, c: nat, k: nat)
    requires k <= |waits|
    ensures OwnedOnce(table, waits, c, k, Drain(table, waits, c, k).reaps)
    decreases |waits| - k
  {
    if c > k && k < |waits| {
      var w := waits[k];
      if !(w.pid == 0 || w.err == Some(ECHILD)) && w.err.None? {
        if IsExit(w) && w.pid in table {
          var rest := Drain(table - {w.pid}, waits, c, k + 1).reaps;
          ReapsAreOwnedAndOnce(table - {w.pid}, waits, c, k + 1);
          var reaps := Drain(table, waits, c, k).reaps;
          assert reaps == [Reap(w.pid, table[w.pid], ExitStatus(w.status))] + rest;
          forall i | 1 <= i < |reaps|
            ensures reaps[i] == rest[i - 1] && reaps[i].pid != w.pid
            ensures reaps[i].pid in table && reaps[i].session == table[reaps[i].pid]
          {
            assert rest[i - 1].pid in table - {w.pid};
          }
          forall i, j | 0 <= i < j < |reaps| ensures reaps[i].pid != reaps[j].pid {
            if i > 0 {
              assert rest[i - 1].pid != rest[j - 1].pid;
            }
          }
          forall i | 0 <= i < |reaps|
            ensures exists n :: FirstExitOf(waits, c, k, n, reaps[i].pid) && reaps[i].status == ExitStatus(waits[n].status)
          {
            if i == 0 {
              assert FirstExitOf(waits, c, k, k, reaps[i].pid);
            } else {
              var r := rest[i - 1];
              var n :| FirstExitOf(waits, c, k + 1, n, r.pid) && r.status == ExitStatus(waits[n].status);
              FirstExitFromLater(waits, c, k, n, r.pid);
            }
          }
        } else {
          ReapsAreOwnedAndOnce(table, waits, c, k + 1);
          var reaps := Drain(table, waits, c, k).reaps;
          assert reaps == Drain(table, waits, c, k + 1).reaps;
          forall i | 0 <= i < |reaps|
            ensures exists n :: FirstExitOf(waits, c, k, n, reaps[i].pid) && reaps[i].status == ExitStatus(waits[n].status)
          {
            var n :| FirstExitOf(waits, c, k + 1, n, reaps[i].pid) && reaps[i].status == ExitStatus(waits[n].status);
            FirstExitFromLater(waits, c, k, n, reaps[i].pid);
          }
        }
      }
    }
  }

  /** Distinct pids of an injective table hand distinct sessions to the exit handler. */
  lemma {:induction false} ExitHandlerOncePerSession(table: map<int, Session>, waits: seq<WaitResult>, c: nat)
    requires Injective(table)
    ensures var t := Drain(table, waits, c, 0);
            forall i, j :: 0 <= i < j < |t.reaps| ==> t.reaps[i].session != t.reaps[j].session
  {
    ReapsAreOwnedAndOnce(table, waits, c, 0);
  }

  /**
   * Exhaustive draining for any stream of answers: every exit the pass acted on
   * of a pid the table owned is reaped, whatever stop/continue reports, zombies
   * or repeated pids come between.
   */
  lemma {:induction false} OwnedExitsAreReaped(table: map<int, Session>, waits: seq<WaitResult>, c: nat, k: nat)
    requires k <= |waits|
    ensures forall i :: Reported(waits, c, k, i) && IsExit(waits[i]) && waits[i].pid in table ==>
              waits[i].pid in PidsOf(Drain(table, waits, c, k).reaps)
    decreases |waits| - k
  {
    if c > k && k < |waits| && waits[k].pid != 0 && waits[k].err.None? {
      var w := waits[k];
      if IsExit(w) && w.pid in table {
        OwnedExitsAreReaped(table - {w.pid}, waits, c, k + 1);
        DrainReaps(table, waits, c, k);
        var reaps := Drain(table, waits, c, k).reaps;
        assert reaps[0].pid == w.pid && reaps[0] in reaps;
        forall i | Reported(waits, c, k, i) && IsExit(waits[i]) && waits[i].pid in table
          ensures waits[i].pid in PidsOf(reaps)
        {
          if waits[i].pid != w.pid {
            assert Reported(waits, c, k + 1, i);
            var r :| r in Drain(table - {w.pid}, waits, c, k + 1).reaps && r.pid == waits[i].pid;
            assert r in reaps;
          }
        }
      } else {
        OwnedExitsAreReaped(table, waits, c, k + 1);
        DrainPassesOver(table, waits, c, k);
        forall i | k < i && Reported(waits, c, k, i) && IsExit(waits[i]) && waits[i].pid in table
          ensures waits[i].pid in PidsOf(Drain(table, waits, c, k).reaps)
        {
          assert Reported(waits, c, k + 1, i);
        }
      }
    }
  }

  /** The reaps of a pass carry table sessions and pairwise distinct pids. */
  lemma ReapsOwnedDistinct(table: map<int, Session>, waits: seq<WaitResult>, c: nat)
    ensures var t := Drain(table, waits, c, 0);
            && (forall i :: 0 <= i < |t.reaps| ==> t.reaps[i].pid in table && t.reaps[i].session == table[t.reaps[i].pid])
            && (forall i, j :: 0 <= i < j < |t.reaps| ==> t.reaps[i].pid != t.reaps[j].pid)
  {
    ReapsAreOwnedAndOnce(table, waits, c, 0);
  }

  /**
   * The exit handler fires exactly once per owned pid whose exit the pass acted
   * on: one reap carries that pid and the session the table held for it, and no
   * other reap carries that pid.
   */
  lemma OwnedExitHandledOnce(table: map<int, Session>, waits: seq<WaitResult>, c: nat)
    ensures var t := Drain(table, waits, c, 0);
            forall i :: Reported(waits, c, 0, i) && IsExit(waits[i]) && waits[i].pid in table ==>
              exists n :: 0 <= n < |t.reaps| && t.reaps[n].pid == waits[i].pid &&
                t.reaps[n].session == table[waits[i].pid] &&
                forall m :: 0 <= m < |t.reaps| && m != n ==> t.reaps[m].pid != waits[i].pid
  {
    var t := Drain(table, waits, c, 0);
    OwnedExitsAreReaped(table, waits, c, 0);
    ReapsOwnedDistinct(table, waits, c);
    assert Drain(table, waits, c, 0) == t;
    assert forall i, j :: 0 <= i < j < |t.reaps| ==> t.reaps[i].pid != t.reaps[j].pid;
    forall i | Reported(waits, c, 0, i) && IsExit(waits[i]) && waits[i].pid in table
      ensures exists n :: 0 <= n < |t.reaps| && t.reaps[n].pid == waits[i].pid &&
                t.reaps[n].session == table[waits[i].pid] &&
                forall m :: 0 <= m < |t.reaps| && m != n ==> t.reaps[m].pid != waits[i].pid
    {
      var r :| r in t.reaps && r.pid == waits[i].pid;
      var n :| 0 <= n < |t.reaps| && t.reaps[n] == r;
      forall m | 0 <= m < |t.reaps| && m != n ensures t.reaps[m].pid != waits[i].pid {
        if m < n { assert t.reaps[m].pid != t.reaps[n].pid; }
        else { assert t.reaps[n].pid != t.reaps[m].pid; }
      }
    }
  }

  /**
   * Exhaustive draining: when N owned children have exited before the wake-up
   * and shutdown does not intervene, the one pass reaps all N, in the order the
   * kernel reports them, and then stops because no child is left.
   */
  lemma {:induction false} DrainIsExhaustive(table: map<int, Session>, waits: seq<WaitResult>, c: nat, k: nat)
    requires k <= |waits| < c
    requires forall i :: k <= i < |waits| ==>
               waits[i].pid != 0 && waits[i].err.None? && (waits[i].status.Exited? || waits[i].status.Signaled?)
    requires forall i :: k <= i < |waits| ==> waits[i].pid in table
    requires forall i, j :: k <= i < j < |waits| ==> waits[i].pid != waits[j].pid
    ensures var t := Drain(table, waits, c, k);
            && t.end == NoMoreChildren && t.zombies == [] && |t.reaps| == |waits| - k
            && forall i :: 0 <= i < |t.reaps| ==>
                 (t.reaps[i].pid == waits[k + i].pid && t.reaps[i].status == ExitStatus(waits[k + i].status))
    decreases |waits| - k
  {
    if k < |waits| {
      var w := waits[k];
      var rest := table - {w.pid};
      forall i | k + 1 <= i < |waits| ensures waits[i].pid in rest {
        assert waits[i].pid != waits[k].pid;
      }
      DrainIsExhaustive(rest, waits, c, k + 1);
    }
  }

  lemma SessionsOfAppend(reaps: seq<Reap>, r: Reap)
    ensures SessionsOf(reaps + [r]) == SessionsOf(reaps) + [r.session]
    decreases |reaps|
  {
    if |reaps| > 0 {
      assert (reaps + [r])[1..] == reaps[1..] + [r];
      SessionsOfAppend(reaps[1..], r);
    }
  }

  lemma PidsOfAppend(reaps: seq<Reap>, r: Reap)
    ensures PidsOf(reaps + [r]) == PidsOf(reaps) + {r.pid}
  {
    assert forall x :: x in reaps + [r] <==> x in reaps || x == r;
  }

  /** The session about to be reaped is none of those reaped earlier in the pass. */
  lemma ReapedSessionIsFresh(soFar: seq<Reap>, table0: map<int, Session>, table: map<int, Session>, pid: int)
    requires Injective(table0)
    requires pid in table && table.Keys <= table0.Keys && table[pid] == table0[pid]
    requires forall r :: r in soFar ==> r.pid in table0 && table0[r.pid] == r.session && r.pid !in table
    ensures forall r :: r in soFar ==> r.session != table[pid]
  {
  }
}
