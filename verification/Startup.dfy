/** Single-node startup: any number of `start` and `_serve` processes, interleaved step by step, that
    coordinate through an advisory lock and a PID file and may die at any moment. */
module Startup {
  import opened Common

  type Pid = nat

  /** What a file that should hold a PID contains. */
  datatype Content = Absent | Garbled | Holds(pid: Pid)

  /** `infomesh start`, `infomesh _serve`, and commands that only look at the PID file, such as `stop`. */
  datatype Kind = Start | Serve | Tool

  datatype Phase =
    | WantLock
    // Inside the startup lock:
    | Reading                  // about to read the PID file
    | Checking(found: Pid)     // about to check whether the process it names is a live node
    | Unlinking                // about to remove a stale or unreadable PID file
    | Cleared                  // `start` only: no node is running, about to launch one
    | WritingTmp(target: Pid)  // about to write the temporary file
    | Renaming(target: Pid)    // about to rename it over the PID file
    | Releasing                // the PID file is written
    | Refused                  // another node is running
    // Outside the lock:
    | Serving                  // `_serve` only: the node runs
    | Closing                  // about to read the PID file before clearing it
    | ClosingUnlink            // has read its own PID, about to remove the file
    | Idle                     // `start` with its dashboard, or a tool
    | Looking(found: Pid)      // about to check whether the process the PID file named is a live node
    | Waited(gone: Pid)        // has seen that process exit, about to read the PID file and clear it
    | Sweeping                 // about to remove the PID file
    | Finished

  datatype Process = Process(kind: Kind, phase: Phase)

  datatype State = State(procs: map<Pid, Process>, lock: Option<Pid>, file: Content, tmp: Content)

  datatype Step =
    | Launch(p: Pid, kind: Kind)
    | Acquire(p: Pid)
    | Read(p: Pid)
    | Check(p: Pid, seemsLive: bool)
    | Unlink(p: Pid)
    | Spawn(p: Pid, child: Pid)
    | WriteTmp(p: Pid)
    | Rename(p: Pid)
    | Release(p: Pid)
    | ShutDown(p: Pid)
    | CloseRead(p: Pid)
    | CloseUnlink(p: Pid)
    | Sweep(p: Pid)
    | Look(p: Pid)
    | Judge(p: Pid, seemsLive: bool)
    | Await(p: Pid, gone: Pid)
    | ClearRead(p: Pid)
    | SweepUnlink(p: Pid)
    | Die(p: Pid, torn: bool)

  /** Nothing is running; the files may be left over from anything. */
  predicate Init(s: State) {
    s.procs == map[] && s.lock == None
  }

  predicate InLock(ph: Phase) {
    ph.Reading? || ph.Checking? || ph.Unlinking? || ph.Cleared? || ph.WritingTmp? || ph.Renaming? || ph.Releasing?
    || ph.Refused?
  }

  predicate IsServing(ph: Phase) {
    ph.Serving? || ph.Closing? || ph.ClosingUnlink?
  }

  predicate At(s: State, p: Pid, ph: Phase) {
    p in s.procs && s.procs[p].phase == ph
  }

  function Move(s: State, p: Pid, ph: Phase): State
    requires p in s.procs
  {
    s.(procs := s.procs[p := s.procs[p].(phase := ph)])
  }

  /** Where a process goes that has found no running node: `start` launches one, `_serve` becomes it. */
  function Passed(p: Pid, kind: Kind): Phase {
    if kind.Serve? then WritingTmp(p) else Cleared
  }

  /** The PID file is missing or unreadable, or names a process that is not running. */
  predicate NamesNoProcess(s: State) {
    s.file.Absent? || s.file.Garbled? || s.file.pid !in s.procs
  }

  /** Which steps are possible. With `atomicSweeps`, a process outside the lock sees that the PID file names no running
      node and removes it in one step; otherwise another process may act in between. */
  predicate Enabled(atomicSweeps: bool, s: State, step: Step) {
    match step
    case Launch(p, kind) => p !in s.procs
    case Acquire(p) => At(s, p, WantLock) && s.lock == None
    case Read(p) => At(s, p, Reading)
    case Check(p, seemsLive) =>
      // A running node is always recognised; a PID that now belongs to something else may be mistaken for one.
      p in s.procs && s.procs[p].phase.Checking? && (s.procs[p].phase.found in s.procs ==> seemsLive)
    case Unlink(p) => At(s, p, Unlinking)
    case Spawn(p, child) => At(s, p, Cleared) && child !in s.procs
    case WriteTmp(p) => p in s.procs && s.procs[p].phase.WritingTmp?
    case Rename(p) => p in s.procs && s.procs[p].phase.Renaming?
    case Release(p) => At(s, p, Releasing) || At(s, p, Refused)
    case ShutDown(p) => At(s, p, Serving)
    case CloseRead(p) => At(s, p, Closing)
    case CloseUnlink(p) => At(s, p, ClosingUnlink)
    case Sweep(p) => atomicSweeps && At(s, p, Idle)
    case Look(p) => !atomicSweeps && At(s, p, Idle)
    case Judge(p, seemsLive) =>
      && !atomicSweeps && p in s.procs && s.procs[p].phase.Looking?
      && (s.procs[p].phase.found in s.procs ==> seemsLive)
    case Await(p, gone) => !atomicSweeps && At(s, p, Idle) && gone !in s.procs
    case ClearRead(p) => !atomicSweeps && p in s.procs && s.procs[p].phase.Waited?
    case SweepUnlink(p) => !atomicSweeps && At(s, p, Sweeping)
    case Die(p, torn) => p in s.procs
  }

  function Apply(atomicSweeps: bool, s: State, step: Step): State
    requires Enabled(atomicSweeps, s, step)
  {
    match step
    case Launch(p, kind) => s.(procs := s.procs[p := Process(kind, if kind.Tool? then Idle else WantLock)])
    case Acquire(p) => Move(s, p, Reading).(lock := Some(p))
    case Read(p) =>
      (match s.file
       case Absent => Move(s, p, Passed(p, s.procs[p].kind))
       case Garbled => Move(s, p, Unlinking)
       case Holds(q) => Move(s, p, Checking(q)))
    case Check(p, seemsLive) =>
      var found := s.procs[p].phase.found;
      if found == p && s.procs[p].kind.Serve? then Move(s, p, WritingTmp(p))
      else if seemsLive then Move(s, p, Refused)
      else Move(s, p, Unlinking)
    case Unlink(p) => Move(s, p, Passed(p, s.procs[p].kind)).(file := Absent)
    case Spawn(p, child) =>
      var s' := Move(s, p, WritingTmp(child));
      s'.(procs := s'.procs[child := Process(Serve, WantLock)])
    case WriteTmp(p) =>
      var target := s.procs[p].phase.target;
      Move(s, p, Renaming(target)).(tmp := Holds(target))
    case Rename(p) => Move(s, p, Releasing).(file := s.tmp, tmp := Absent)
    case Release(p) =>
      var next := if s.procs[p].phase.Refused? then Finished else if s.procs[p].kind.Serve? then Serving else Idle;
      Move(s, p, next).(lock := None)
    case ShutDown(p) => Move(s, p, Closing)
    case CloseRead(p) =>
      if s.file.Holds? && s.file.pid != p then Move(s, p, Finished) else Move(s, p, ClosingUnlink)
    case CloseUnlink(p) => Move(s, p, Finished).(file := Absent)
    case Sweep(p) => if NamesNoProcess(s) then s.(file := Absent) else s
    case Look(p) =>
      // A read that fails, also because there is no file any more, is followed by a removal.
      Move(s, p, if s.file.Holds? then Looking(s.file.pid) else Sweeping)
    case Judge(p, seemsLive) => Move(s, p, if seemsLive then Idle else Sweeping)
    case Await(p, gone) => Move(s, p, Waited(gone))
    case ClearRead(p) =>
      if s.file.Holds? && s.file.pid != s.procs[p].phase.gone then Move(s, p, Idle) else Move(s, p, Sweeping)
    case SweepUnlink(p) => Move(s, p, Idle).(file := Absent)
    case Die(p, torn) =>
      // The operating system frees the lock; a death while writing can leave a torn temporary file.
      State(s.procs - {p}, if s.lock == Some(p) then None else s.lock, s.file,
            if torn && s.procs[p].phase.WritingTmp? then Garbled else s.tmp)
  }

  /** `steps` is a possible run from s. */
  ghost predicate IsRun(atomicSweeps: bool, s: State, steps: seq<Step>)
    decreases |steps|
  {
    steps == []
    || (Enabled(atomicSweeps, s, steps[0]) && IsRun(atomicSweeps, Apply(atomicSweeps, s, steps[0]), steps[1..]))
  }

  ghost function Outcome(atomicSweeps: bool, s: State, steps: seq<Step>): State
    requires IsRun(atomicSweeps, s, steps)
    decreases |steps|
  {
    if steps == [] then s else Outcome(atomicSweeps, Apply(atomicSweeps, s, steps[0]), steps[1..])
  }

  ghost predicate AtMostOneNode(s: State) {
    forall p, q | p in s.procs && q in s.procs && IsServing(s.procs[p].phase) && IsServing(s.procs[q].phase) :: p == q
  }

  // ---- The invariant ----------------------------------------------------------------------------------------

  /** The process is, or has just become, the node. */
  predicate Owns(s: State, p: Pid) {
    p in s.procs
    && (IsServing(s.procs[p].phase) || (s.procs[p].kind.Serve? && s.procs[p].phase.Releasing?))
  }

  /** The process has found that no node is running. */
  predicate HasPassed(ph: Phase) {
    ph.Unlinking? || ph.Cleared? || ph.WritingTmp? || ph.Renaming?
  }

  ghost predicate NoOwner(s: State) {
    forall q :: !Owns(s, q)
  }

  /** Process p, in phase ph, may yet remove a PID file that holds node q's PID: it has read another PID, which can turn
      out to be dead, or waited for a process whose PID q has been given since, or only the removal is left. */
  predicate Threatens(p: Pid, ph: Phase, q: Pid) {
    ph.Sweeping? || (ph.Looking? && ph.found != p && ph.found != q) || (ph.Waited? && ph.gone == q)
  }

  predicate Outside(ph: Phase) {
    ph.Idle? || ph.Looking? || ph.Waited? || ph.Sweeping?
  }

  ghost predicate LockInv(s: State) {
    && (forall p | p in s.procs && InLock(s.procs[p].phase) :: s.lock == Some(p))
    && (s.lock.Some? ==> s.lock.value in s.procs && InLock(s.procs[s.lock.value].phase))
  }

  predicate KindFits(s: State, p: Pid)
    requires p in s.procs
  {
    var Process(kind, ph) := s.procs[p];
    && (IsServing(ph) ==> kind.Serve?)
    && (Outside(ph) ==> !kind.Serve?)
    && (ph.Cleared? ==> !kind.Serve?)
  }

  predicate PhaseFits(s: State, p: Pid)
    requires p in s.procs
  {
    var Process(kind, ph) := s.procs[p];
    && KindFits(s, p)
    && (ph.WritingTmp? && kind.Serve? ==> ph.target == p)
    && (ph.Renaming? && kind.Serve? ==> ph.target == p)
    && (ph.Renaming? ==> s.tmp == Holds(ph.target))
    && (ph.Checking? ==> s.file == Holds(ph.found) || s.file == Absent)
  }

  ghost predicate PhaseInv(s: State, p: Pid)
    requires p in s.procs
  {
    && PhaseFits(s, p)
    && (forall q | Threatens(p, s.procs[p].phase, q) :: !Owns(s, q))
    && (HasPassed(s.procs[p].phase) ==> NoOwner(s))
    && (Owns(s, p) ==> s.file == Holds(p))
  }

  ghost predicate Inv(s: State) {
    LockInv(s) && forall p | p in s.procs :: PhaseInv(s, p)
  }

  /** The process that takes a step. */
  function Actor(step: Step): Pid {
    step.p
  }

  /** No process may yet remove the PID file of node q. */
  ghost predicate Unthreatened(s: State, q: Pid) {
    forall p | p in s.procs :: !Threatens(p, s.procs[p].phase, q)
  }

  /** The step does not put a node's own PID into the file while some process may yet remove it. */
  ghost predicate Quiet(s: State, step: Step) {
    step.Rename? && step.p in s.procs && s.procs[step.p].kind.Serve? ==> Unthreatened(s, step.p)
  }

  lemma LockHeldKept(atomic: bool, s: State, step: Step, p: Pid)
    requires Inv(s) && Enabled(atomic, s, step)
    requires p in Apply(atomic, s, step).procs && InLock(Apply(atomic, s, step).procs[p].phase)
    ensures Apply(atomic, s, step).lock == Some(p)
  {
    assert LockInv(s);
    if p != Actor(step) && p in s.procs {
      assert Apply(atomic, s, step).procs[p] == s.procs[p];
      assert s.lock == Some(p);
    }
  }

  lemma LockHolderKept(atomic: bool, s: State, step: Step)
    requires Inv(s) && Enabled(atomic, s, step)
    ensures var s' := Apply(atomic, s, step);
            s'.lock.Some? ==> s'.lock.value in s'.procs && InLock(s'.procs[s'.lock.value].phase)
  {
    assert LockInv(s);
  }

  lemma LockKept(atomic: bool, s: State, step: Step)
    requires Inv(s) && Enabled(atomic, s, step)
    ensures LockInv(Apply(atomic, s, step))
  {
    var s' := Apply(atomic, s, step);
    forall p | p in s'.procs && InLock(s'.procs[p].phase) ensures s'.lock == Some(p) {
      LockHeldKept(atomic, s, step, p);
    }
    LockHolderKept(atomic, s, step);
  }

  lemma OwnsBefore(atomic: bool, s: State, step: Step, p: Pid)
    requires Inv(s) && Enabled(atomic, s, step)
    requires Owns(Apply(atomic, s, step), p)
    ensures Owns(s, p) || (step.Rename? && step.p == p && s.procs[p].kind.Serve?)
  {
    assert Actor(step) in s.procs ==> PhaseFits(s, Actor(step));
  }

  /** A step takes the file from no owner but the actor. */
  lemma FileKept(atomic: bool, s: State, step: Step, p: Pid)
    requires Inv(s) && Enabled(atomic, s, step)
    requires Owns(s, p) && Owns(Apply(atomic, s, step), p)
    ensures Apply(atomic, s, step).file == Holds(p)
  {
    var a := Actor(step);
    assert a in s.procs ==> PhaseInv(s, a);
    assert PhaseInv(s, p);
    if p != a && (step.Unlink? || step.Rename? || step.SweepUnlink?) {
      assert false;
    }
  }

  lemma OwnNameWritten(atomic: bool, s: State, p: Pid)
    requires Inv(s) && Enabled(atomic, s, Rename(p)) && s.procs[p].kind.Serve?
    ensures Apply(atomic, s, Rename(p)).file == Holds(p)
  {
    assert PhaseFits(s, p);
  }

  /** A step creates no owner except by a rename to the actor's own PID, and takes the file from none but the actor. */
  lemma OwnersKept(atomic: bool, s: State, step: Step, p: Pid)
    requires Inv(s) && Enabled(atomic, s, step)
    requires Owns(Apply(atomic, s, step), p)
    ensures Apply(atomic, s, step).file == Holds(p)
    ensures Owns(s, p) || (step.Rename? && step.p == p && s.procs[p].kind.Serve?)
  {
    OwnsBefore(atomic, s, step, p);
    if Owns(s, p) {
      FileKept(atomic, s, step, p);
    } else {
      OwnNameWritten(atomic, s, p);
    }
  }

  /** So where nobody owned the file, nobody does, unless a `_serve` process renamed its own PID over it. */
  lemma NoOwnerKept(atomic: bool, s: State, step: Step)
    requires Inv(s) && Enabled(atomic, s, step) && NoOwner(s)
    requires !(step.Rename? && s.procs[step.p].kind.Serve?)
    ensures NoOwner(Apply(atomic, s, step))
  {
    forall q ensures !Owns(Apply(atomic, s, step), q) {
      if Owns(Apply(atomic, s, step), q) {
        OwnersKept(atomic, s, step, q);
      }
    }
  }

  /** The owner is the process the file names. */
  lemma OwnerIsNamed(s: State, q: Pid)
    requires Inv(s) && Owns(s, q)
    ensures s.file == Holds(q) && q in s.procs
  {
    assert PhaseInv(s, q);
  }

  /** A process that moves on in its look at the file, outside the lock, comes to threaten nobody. */
  lemma LookKept(s: State, step: Step, q: Pid)
    requires Inv(s) && Enabled(false, s, step)
    requires step.Look? || step.Judge? || step.Await? || step.ClearRead?
    requires Threatens(step.p, Apply(false, s, step).procs[step.p].phase, q)
    ensures !Owns(s, q)
  {
    assert PhaseInv(s, step.p);
    if Owns(s, q) {
      OwnerIsNamed(s, q);
      assert Threatens(step.p, s.procs[step.p].phase, q);
      assert false;
    }
  }

  lemma OtherKept(atomic: bool, s: State, step: Step, p: Pid)
    requires Inv(s) && Enabled(atomic, s, step) && Quiet(s, step)
    requires p in s.procs && p != Actor(step) && p in Apply(atomic, s, step).procs
    ensures PhaseInv(Apply(atomic, s, step), p)
  {
    var s' := Apply(atomic, s, step);
    assert PhaseInv(s, p);
    assert s'.procs[p] == s.procs[p];
    assert LockInv(s);
    if Owns(s', p) {
      OwnersKept(atomic, s, step, p);
    }
    if HasPassed(s'.procs[p].phase) {
      NoOwnerKept(atomic, s, step);
    }
    forall q | Threatens(p, s.procs[p].phase, q) ensures !Owns(s', q) {
      if Owns(s', q) {
        OwnersKept(atomic, s, step, q);
      }
    }
  }

  lemma ActorKindFits(atomic: bool, s: State, step: Step)
    requires Inv(s) && Enabled(atomic, s, step) && Actor(step) in Apply(atomic, s, step).procs
    ensures KindFits(Apply(atomic, s, step), Actor(step))
  {
    assert Actor(step) in s.procs ==> PhaseFits(s, Actor(step));
  }

  lemma ActorFits(atomic: bool, s: State, step: Step)
    requires Inv(s) && Enabled(atomic, s, step) && Actor(step) in Apply(atomic, s, step).procs
    ensures PhaseFits(Apply(atomic, s, step), Actor(step))
  {
    ActorKindFits(atomic, s, step);
    assert Actor(step) in s.procs ==> PhaseFits(s, Actor(step));
  }

  lemma ActorThreatens(atomic: bool, s: State, step: Step, q: Pid)
    requires Inv(s) && Enabled(atomic, s, step) && Actor(step) in Apply(atomic, s, step).procs
    requires Threatens(Actor(step), Apply(atomic, s, step).procs[Actor(step)].phase, q)
    ensures !Owns(Apply(atomic, s, step), q)
  {
    if Owns(Apply(atomic, s, step), q) {
      OwnersKept(atomic, s, step, q);
      LookKept(s, step, q);
    }
  }

  lemma ActorPasses(atomic: bool, s: State, step: Step, q: Pid)
    requires Inv(s) && Enabled(atomic, s, step) && Actor(step) in Apply(atomic, s, step).procs
    requires HasPassed(Apply(atomic, s, step).procs[Actor(step)].phase)
    ensures !Owns(Apply(atomic, s, step), q)
  {
    var a := Actor(step);
    assert a in s.procs ==> PhaseInv(s, a);
    if Owns(Apply(atomic, s, step), q) {
      OwnersKept(atomic, s, step, q);
      if Owns(s, q) {
        OwnerIsNamed(s, q);
      }
    }
  }

  lemma ActorKept(atomic: bool, s: State, step: Step)
    requires Inv(s) && Enabled(atomic, s, step)
    requires Actor(step) in Apply(atomic, s, step).procs
    ensures PhaseInv(Apply(atomic, s, step), Actor(step))
  {
    var s', a := Apply(atomic, s, step), Actor(step);
    ActorFits(atomic, s, step);
    if Owns(s', a) {
      OwnersKept(atomic, s, step, a);
    }
    forall q | Threatens(a, s'.procs[a].phase, q) ensures !Owns(s', q) {
      ActorThreatens(atomic, s, step, q);
    }
    forall q | HasPassed(s'.procs[a].phase) ensures !Owns(s', q) {
      ActorPasses(atomic, s, step, q);
    }
  }

  lemma InvKept(atomic: bool, s: State, step: Step)
    requires Inv(s) && Enabled(atomic, s, step) && Quiet(s, step)
    ensures Inv(Apply(atomic, s, step))
  {
    LockKept(atomic, s, step);
    var s', a := Apply(atomic, s, step), Actor(step);
    forall p | p in s'.procs ensures PhaseInv(s', p) {
      if p == a {
        ActorKept(atomic, s, step);
      } else if p in s.procs {
        OtherKept(atomic, s, step, p);
      }
    }
  }

  // ---- All runs ---------------------------------------------------------------------------------------------

  /** No step of the run writes a node's PID while some process may yet remove it. */
  ghost predicate QuietRun(atomic: bool, s: State, steps: seq<Step>)
    requires IsRun(atomic, s, steps)
    decreases |steps|
  {
    steps == [] || (Quiet(s, steps[0]) && QuietRun(atomic, Apply(atomic, s, steps[0]), steps[1..]))
  }

  lemma {:induction false} InvReached(atomic: bool, s: State, steps: seq<Step>)
    requires Inv(s) && IsRun(atomic, s, steps) && QuietRun(atomic, s, steps)
    ensures Inv(Outcome(atomic, s, steps))
    decreases |steps|
  {
    if steps != [] {
      InvKept(atomic, s, steps[0]);
      InvReached(atomic, Apply(atomic, s, steps[0]), steps[1..]);
    }
  }

  /** At most one node runs, the PID file names it, and no other process gets past its check for a running node. */
  ghost predicate Safe(t: State) {
    && AtMostOneNode(t)
    && (forall p | p in t.procs && IsServing(t.procs[p].phase) ::
          t.file == Holds(p) && forall q | q in t.procs :: !HasPassed(t.procs[q].phase))
    && (t.lock.Some? ==> t.lock.value in t.procs)
  }

  lemma InvIsSafe(t: State)
    requires Inv(t)
    ensures Safe(t)
  {
    forall p | p in t.procs && IsServing(t.procs[p].phase)
      ensures t.file == Holds(p) && forall q | q in t.procs :: !HasPassed(t.procs[q].phase)
    {
      assert PhaseInv(t, p) && Owns(t, p);
      forall q | q in t.procs ensures !HasPassed(t.procs[q].phase) {
        assert PhaseInv(t, q);
      }
    }
  }

  /** Safety of every run, however looks at the PID file and removals are interleaved, in which no node's PID is written
      while some process, having looked before, may yet remove it. */
  lemma QuietRunsAreSafe(atomic: bool, s: State, steps: seq<Step>)
    requires Init(s) && IsRun(atomic, s, steps) && QuietRun(atomic, s, steps)
    ensures Safe(Outcome(atomic, s, steps))
  {
    InvReached(atomic, s, steps);
    InvIsSafe(Outcome(atomic, s, steps));
  }

  ghost predicate NobodyLooks(s: State) {
    forall q | q in s.procs ::
      !s.procs[q].phase.Looking? && !s.procs[q].phase.Waited? && !s.procs[q].phase.Sweeping?
  }

  lemma NobodyLooksKept(s: State, step: Step)
    requires Enabled(true, s, step) && NobodyLooks(s)
    ensures NobodyLooks(Apply(true, s, step))
  {
  }

  lemma {:induction false} AtomicRunsAreQuiet(s: State, steps: seq<Step>)
    requires IsRun(true, s, steps) && NobodyLooks(s)
    ensures QuietRun(true, s, steps)
    decreases |steps|
  {
    if steps != [] {
      NobodyLooksKept(s, steps[0]);
      AtomicRunsAreQuiet(Apply(true, s, steps[0]), steps[1..]);
    }
  }

  /** If every look and removal were one step, every run would be safe. */
  lemma AtomicSweepsAreSafe(s: State, steps: seq<Step>)
    requires Init(s) && IsRun(true, s, steps)
    ensures Safe(Outcome(true, s, steps))
  {
    AtomicRunsAreQuiet(s, steps);
    QuietRunsAreSafe(true, s, steps);
  }

  // ---- A process that is left alone -------------------------------------------------------------------------

  lemma {:induction false} RunAppend(atomic: bool, s: State, first: seq<Step>, rest: seq<Step>)
    requires IsRun(atomic, s, first) && IsRun(atomic, Outcome(atomic, s, first), rest)
    ensures IsRun(atomic, s, first + rest)
    ensures Outcome(atomic, s, first + rest) == Outcome(atomic, Outcome(atomic, s, first), rest)
    decreases |first|
  {
    if first == [] {
      assert first + rest == rest;
    } else {
      assert (first + rest)[1..] == first[1..] + rest;
      RunAppend(atomic, Apply(atomic, s, first[0]), first[1..], rest);
    }
  }

  /** The steps lead from s to t. */
  ghost predicate Leads(atomic: bool, s: State, steps: seq<Step>, t: State) {
    IsRun(atomic, s, steps) && Outcome(atomic, s, steps) == t
  }

  lemma LeadsTrivially(atomic: bool, s: State)
    ensures Leads(atomic, s, [], s)
  {
  }

  lemma LeadsStep(atomic: bool, s: State, steps: seq<Step>, t: State, step: Step)
    requires Leads(atomic, s, steps, t) && Enabled(atomic, t, step)
    ensures Leads(atomic, s, steps + [step], Apply(atomic, t, step))
  {
    assert [step][1..] == [];
    assert IsRun(atomic, t, [step]) && Outcome(atomic, t, [step]) == Apply(atomic, t, step);
    RunAppend(atomic, s, steps, [step]);
  }

  lemma LeadsOn(atomic: bool, s: State, first: seq<Step>, t: State, rest: seq<Step>, u: State)
    requires Leads(atomic, s, first, t) && Leads(atomic, t, rest, u)
    ensures Leads(atomic, s, first + rest, u)
  {
    RunAppend(atomic, s, first, rest);
  }

  /** What `_serve` does with the PID file it has read, when nothing else acts. */
  function CheckSteps(file: Content, p: Pid): seq<Step> {
    match file
    case Absent => []
    case Garbled => [] + [Unlink(p)]
    case Holds(q) => if q == p then [] + [Check(p, true)] else [] + [Check(p, false)] + [Unlink(p)]
  }

  function LaunchSteps(p: Pid): seq<Step> {
    [] + [Launch(p, Serve)] + [Acquire(p)] + [Read(p)]
  }

  function WriteSteps(p: Pid): seq<Step> {
    [] + [WriteTmp(p)] + [Rename(p)] + [Release(p)]
  }

  function ServeSteps(file: Content, p: Pid): seq<Step> {
    LaunchSteps(p) + CheckSteps(file, p) + WriteSteps(p)
  }

  /** `_serve` process p, alone in the startup lock, in the given phase. */
  function InPhase(s: State, p: Pid, ph: Phase): State {
    s.(procs := s.procs[p := Process(Serve, ph)], lock := Some(p))
  }

  function AfterRead(file: Content, p: Pid): Phase {
    match file
    case Absent => WritingTmp(p)
    case Garbled => Unlinking
    case Holds(q) => Checking(q)
  }

  lemma AloneReads(atomic: bool, s: State, p: Pid)
    requires s.lock == None && p !in s.procs
    ensures Leads(atomic, s, LaunchSteps(p), InPhase(s, p, AfterRead(s.file, p)))
  {
    var s1 := s.(procs := s.procs[p := Process(Serve, WantLock)]);
    LeadsTrivially(atomic, s);
    LeadsStep(atomic, s, [], s, Launch(p, Serve));
    LeadsStep(atomic, s, [] + [Launch(p, Serve)], s1, Acquire(p));
    assert Apply(atomic, s1, Acquire(p)) == InPhase(s, p, Reading);
    LeadsStep(atomic, s, [] + [Launch(p, Serve)] + [Acquire(p)], InPhase(s, p, Reading), Read(p));
    assert Apply(atomic, InPhase(s, p, Reading), Read(p)) == InPhase(s, p, AfterRead(s.file, p));
  }

  /** The PID file once `_serve` has passed its check: a stale file is gone. */
  function Swept(file: Content, p: Pid): Content {
    if file == Holds(p) then file else Absent
  }

  lemma AloneUnlinks(atomic: bool, s: State, p: Pid)
    requires s.lock == None && p !in s.procs
    ensures Enabled(atomic, InPhase(s, p, Unlinking), Unlink(p))
    ensures Apply(atomic, InPhase(s, p, Unlinking), Unlink(p)) == InPhase(s, p, WritingTmp(p)).(file := Absent)
  {
    assert InPhase(s, p, Unlinking).procs[p].kind == Serve;
  }

  lemma AloneFindsOther(atomic: bool, s: State, p: Pid, q: Pid)
    requires s.lock == None && p !in s.procs && q !in s.procs && q != p
    ensures Leads(atomic, InPhase(s, p, Checking(q)), [] + [Check(p, false)], InPhase(s, p, Unlinking))
  {
    var t := InPhase(s, p, Checking(q));
    LeadsTrivially(atomic, t);
    LeadsStep(atomic, t, [], t, Check(p, false));
    assert Apply(atomic, t, Check(p, false)) == InPhase(s, p, Unlinking);
  }

  lemma AloneFindsItself(atomic: bool, s: State, p: Pid)
    requires s.lock == None && p !in s.procs
    ensures Leads(atomic, InPhase(s, p, Checking(p)), [] + [Check(p, true)], InPhase(s, p, WritingTmp(p)))
  {
    var t := InPhase(s, p, Checking(p));
    LeadsTrivially(atomic, t);
    LeadsStep(atomic, t, [], t, Check(p, true));
    assert Apply(atomic, t, Check(p, true)) == InPhase(s, p, WritingTmp(p));
  }

  lemma PassesCheck(atomic: bool, s: State, p: Pid)
    requires s.lock == None && p !in s.procs
    requires s.file.Holds? ==> s.file.pid !in s.procs
    ensures Leads(atomic, InPhase(s, p, AfterRead(s.file, p)), CheckSteps(s.file, p),
                  InPhase(s, p, WritingTmp(p)).(file := Swept(s.file, p)))
  {
    var t := InPhase(s, p, AfterRead(s.file, p));
    LeadsTrivially(atomic, t);
    match s.file {
      case Absent =>
      case Garbled =>
        AloneUnlinks(atomic, s, p);
        LeadsStep(atomic, t, [], t, Unlink(p));
      case Holds(q) =>
        if q == p {
          AloneFindsItself(atomic, s, p);
        } else {
          AloneFindsOther(atomic, s, p, q);
          AloneUnlinks(atomic, s, p);
          LeadsStep(atomic, t, [] + [Check(p, false)], InPhase(s, p, Unlinking), Unlink(p));
        }
    }
  }

  lemma AloneWrites(atomic: bool, s: State, p: Pid)
    requires s.lock == None && p !in s.procs
    ensures Leads(atomic, InPhase(s, p, WritingTmp(p)), WriteSteps(p),
                  State(s.procs[p := Process(Serve, Serving)], None, Holds(p), Absent))
  {
    var t := InPhase(s, p, WritingTmp(p));
    var t1 := InPhase(s, p, Renaming(p)).(tmp := Holds(p));
    var t2 := InPhase(s, p, Releasing).(file := Holds(p), tmp := Absent);
    LeadsTrivially(atomic, t);
    LeadsStep(atomic, t, [], t, WriteTmp(p));
    assert Apply(atomic, t, WriteTmp(p)) == t1;
    LeadsStep(atomic, t, [] + [WriteTmp(p)], t1, Rename(p));
    assert Apply(atomic, t1, Rename(p)) == t2;
    LeadsStep(atomic, t, [] + [WriteTmp(p)] + [Rename(p)], t2, Release(p));
    assert Apply(atomic, t2, Release(p)).procs == s.procs[p := Process(Serve, Serving)];
  }

  /** The state in which p is the node, its PID in the file. */
  function Node(s: State, p: Pid): State {
    State(s.procs[p := Process(Serve, Serving)], None, Holds(p), Absent)
  }

  /** A `_serve` process that is left alone while no live process is named in the PID file becomes the
      node, whatever is in the PID file, and the file then names it. */
  lemma AloneItServes(atomic: bool, s: State, p: Pid)
    requires s.lock == None && p !in s.procs
    requires s.file.Holds? ==> s.file.pid !in s.procs
    ensures Leads(atomic, s, ServeSteps(s.file, p), Node(s, p))
  {
    var read, passed := InPhase(s, p, AfterRead(s.file, p)), InPhase(s, p, WritingTmp(p)).(file := Swept(s.file, p));
    AloneReads(atomic, s, p);
    PassesCheck(atomic, s, p);
    LeadsOn(atomic, s, LaunchSteps(p), read, CheckSteps(s.file, p), passed);
    var s1 := s.(file := Swept(s.file, p));
    assert passed == InPhase(s1, p, WritingTmp(p));
    AloneWrites(atomic, s1, p);
    LeadsOn(atomic, s, LaunchSteps(p) + CheckSteps(s.file, p), passed, WriteSteps(p), Node(s, p));
  }

  // ---- `start` and the child it launches, left alone ---------------------------------------------------------

  /** `start` process p, alone in the startup lock, in the given phase. */
  function Starter(s: State, p: Pid, ph: Phase): State {
    s.(procs := s.procs[p := Process(Start, ph)], lock := Some(p))
  }

  /** What `start` does up to the launch of its child. */
  function FindSteps(file: Content, p: Pid): seq<Step> {
    match file
    case Absent => [] + [Launch(p, Start)] + [Acquire(p)] + [Read(p)]
    case Garbled => [] + [Launch(p, Start)] + [Acquire(p)] + [Read(p)] + [Unlink(p)]
    case Holds(_) => [] + [Launch(p, Start)] + [Acquire(p)] + [Read(p)] + [Check(p, false)] + [Unlink(p)]
  }

  function SpawnSteps(p: Pid, child: Pid): seq<Step> {
    [] + [Spawn(p, child)] + [WriteTmp(p)] + [Rename(p)] + [Release(p)]
  }

  /** What the child does, whose own PID is in the file already. */
  function ChildSteps(p: Pid): seq<Step> {
    [] + [Acquire(p)] + [Read(p)] + [Check(p, true)] + WriteSteps(p)
  }

  lemma StarterReads(atomic: bool, s: State, p: Pid)
    requires s.lock == None && p !in s.procs
    ensures Leads(atomic, s, [] + [Launch(p, Start)] + [Acquire(p)], Starter(s, p, Reading))
  {
    var s1 := s.(procs := s.procs[p := Process(Start, WantLock)]);
    LeadsTrivially(atomic, s);
    LeadsStep(atomic, s, [], s, Launch(p, Start));
    LeadsStep(atomic, s, [] + [Launch(p, Start)], s1, Acquire(p));
    assert Apply(atomic, s1, Acquire(p)) == Starter(s, p, Reading);
  }

  lemma StarterUnlinks(atomic: bool, s: State, p: Pid)
    requires s.lock == None && p !in s.procs
    ensures Enabled(atomic, Starter(s, p, Unlinking), Unlink(p))
    ensures Apply(atomic, Starter(s, p, Unlinking), Unlink(p)) == Starter(s, p, Cleared).(file := Absent)
  {
    assert Starter(s, p, Unlinking).procs[p].kind == Start;
  }

  lemma StarterFinds(atomic: bool, s: State, p: Pid)
    requires s.lock == None && p !in s.procs
    requires s.file.Holds? ==> s.file.pid !in s.procs && s.file.pid != p
    ensures Leads(atomic, s, FindSteps(s.file, p), Starter(s, p, Cleared).(file := Absent))
  {
    StarterReads(atomic, s, p);
    var first, reading := [] + [Launch(p, Start)] + [Acquire(p)], Starter(s, p, Reading);
    LeadsStep(atomic, s, first, reading, Read(p));
    match s.file {
      case Absent =>
        assert Apply(atomic, reading, Read(p)) == Starter(s, p, Cleared).(file := Absent);
      case Garbled =>
        assert Apply(atomic, reading, Read(p)) == Starter(s, p, Unlinking);
        StarterUnlinks(atomic, s, p);
        LeadsStep(atomic, s, first + [Read(p)], Starter(s, p, Unlinking), Unlink(p));
      case Holds(q) =>
        assert Apply(atomic, reading, Read(p)) == Starter(s, p, Checking(q));
        LeadsStep(atomic, s, first + [Read(p)], Starter(s, p, Checking(q)), Check(p, false));
        assert Apply(atomic, Starter(s, p, Checking(q)), Check(p, false)) == Starter(s, p, Unlinking);
        StarterUnlinks(atomic, s, p);
        LeadsStep(atomic, s, first + [Read(p)] + [Check(p, false)], Starter(s, p, Unlinking), Unlink(p));
    }
  }

  /** `start` has launched its child and is inside the lock, in the given phase. */
  function Launched(s: State, p: Pid, child: Pid, ph: Phase): State {
    State(s.procs[p := Process(Start, ph)][child := Process(Serve, WantLock)], Some(p), Absent, s.tmp)
  }

  lemma StarterLaunches(atomic: bool, s: State, p: Pid, child: Pid)
    requires s.lock == None && p !in s.procs && child !in s.procs && child != p
    ensures Enabled(atomic, Starter(s, p, Cleared).(file := Absent), Spawn(p, child))
    ensures Apply(atomic, Starter(s, p, Cleared).(file := Absent), Spawn(p, child))
         == Launched(s, p, child, WritingTmp(child))
  {
    assert s.procs[p := Process(Start, Cleared)][p := Process(Start, WritingTmp(child))]
        == s.procs[p := Process(Start, WritingTmp(child))];
  }

  lemma LaunchedMoves(s: State, p: Pid, child: Pid, ph: Phase, next: Phase)
    requires child != p
    ensures Move(Launched(s, p, child, ph), p, next) == Launched(s, p, child, next)
  {
    assert Move(Launched(s, p, child, ph), p, next).procs == Launched(s, p, child, next).procs;
  }

  lemma StarterWrites(atomic: bool, s: State, p: Pid, child: Pid)
    requires s.lock == None && p !in s.procs && child !in s.procs && child != p
    ensures Leads(atomic, Launched(s, p, child, WritingTmp(child)), [] + [WriteTmp(p)] + [Rename(p)],
                  Launched(s, p, child, Releasing).(file := Holds(child), tmp := Absent))
  {
    var t := Launched(s, p, child, WritingTmp(child));
    var t1 := Launched(s, p, child, Renaming(child)).(tmp := Holds(child));
    LeadsTrivially(atomic, t);
    LaunchedMoves(s, p, child, WritingTmp(child), Renaming(child));
    LeadsStep(atomic, t, [], t, WriteTmp(p));
    LaunchedMoves(s, p, child, Renaming(child), Releasing);
    LeadsStep(atomic, t, [] + [WriteTmp(p)], t1, Rename(p));
  }

  lemma StarterReleases(atomic: bool, s: State, p: Pid, child: Pid)
    requires s.lock == None && p !in s.procs && child !in s.procs && child != p
    ensures var t := Launched(s, p, child, Releasing).(file := Holds(child), tmp := Absent);
            && Enabled(atomic, t, Release(p))
            && Apply(atomic, t, Release(p))
            == State(s.procs[p := Process(Start, Idle)][child := Process(Serve, WantLock)], None, Holds(child), Absent)
  {
    LaunchedMoves(s, p, child, Releasing, Idle);
  }

  lemma StarterSpawns(atomic: bool, s: State, p: Pid, child: Pid)
    requires s.lock == None && p !in s.procs && child !in s.procs && child != p
    ensures Leads(atomic, Starter(s, p, Cleared).(file := Absent), SpawnSteps(p, child),
                  State(s.procs[p := Process(Start, Idle)][child := Process(Serve, WantLock)], None, Holds(child),
                        Absent))
  {
    hide Enabled, Apply, Leads;
    var t, t1 := Starter(s, p, Cleared).(file := Absent), Launched(s, p, child, WritingTmp(child));
    var t3 := Launched(s, p, child, Releasing).(file := Holds(child), tmp := Absent);
    LeadsTrivially(atomic, t);
    StarterLaunches(atomic, s, p, child);
    LeadsStep(atomic, t, [], t, Spawn(p, child));
    StarterWrites(atomic, s, p, child);
    LeadsOn(atomic, t, [] + [Spawn(p, child)], t1, [] + [WriteTmp(p)] + [Rename(p)], t3);
    StarterReleases(atomic, s, p, child);
    assert [] + [Spawn(p, child)] + ([] + [WriteTmp(p)] + [Rename(p)])
        == [] + [Spawn(p, child)] + [WriteTmp(p)] + [Rename(p)];
    LeadsStep(atomic, t, [] + [Spawn(p, child)] + [WriteTmp(p)] + [Rename(p)], t3, Release(p));
  }

  /** The launched child finds its own PID in the file and becomes the node. */
  lemma ChildServes(atomic: bool, s: State, p: Pid)
    requires s.lock == None && p !in s.procs && s.file == Holds(p)
    ensures Leads(atomic, s.(procs := s.procs[p := Process(Serve, WantLock)]), ChildSteps(p),
                  State(s.procs[p := Process(Serve, Serving)], None, Holds(p), Absent))
  {
    var s1 := s.(procs := s.procs[p := Process(Serve, WantLock)]);
    LeadsTrivially(atomic, s1);
    LeadsStep(atomic, s1, [], s1, Acquire(p));
    assert Apply(atomic, s1, Acquire(p)) == InPhase(s, p, Reading);
    LeadsStep(atomic, s1, [] + [Acquire(p)], InPhase(s, p, Reading), Read(p));
    assert Apply(atomic, InPhase(s, p, Reading), Read(p)) == InPhase(s, p, Checking(p));
    LeadsStep(atomic, s1, [] + [Acquire(p)] + [Read(p)], InPhase(s, p, Checking(p)), Check(p, true));
    assert Apply(atomic, InPhase(s, p, Checking(p)), Check(p, true)) == InPhase(s, p, WritingTmp(p));
    AloneWrites(atomic, s, p);
    LeadsOn(atomic, s1, [] + [Acquire(p)] + [Read(p)] + [Check(p, true)], InPhase(s, p, WritingTmp(p)), WriteSteps(p),
            Node(s, p));
  }

  /** `infomesh start`, left alone with the child it launches while no live process is named in the PID file, ends
      with its dashboard and with the child as the node, the lock free and the child's PID in the file. */
  lemma AloneItStarts(atomic: bool, s: State, p: Pid, child: Pid)
    requires s.lock == None && p !in s.procs && child !in s.procs && child != p
    requires s.file.Holds? ==> s.file.pid !in s.procs && s.file.pid != p
    ensures Leads(atomic, s, FindSteps(s.file, p) + SpawnSteps(p, child) + ChildSteps(child),
                  State(s.procs[p := Process(Start, Idle)][child := Process(Serve, Serving)], None, Holds(child),
                        Absent))
  {
    var cleared := Starter(s, p, Cleared).(file := Absent);
    var b := State(s.procs[p := Process(Start, Idle)], None, Holds(child), Absent);
    var left := b.(procs := b.procs[child := Process(Serve, WantLock)]);
    StarterFinds(atomic, s, p);
    StarterSpawns(atomic, s, p, child);
    LeadsOn(atomic, s, FindSteps(s.file, p), cleared, SpawnSteps(p, child), left);
    ChildServes(atomic, b, child);
    LeadsOn(atomic, s, FindSteps(s.file, p) + SpawnSteps(p, child), left, ChildSteps(child), Node(b, child));
  }

  lemma RefusesWhenLive(atomic: bool, s: State, p: Pid, kind: Kind, q: Pid)
    requires p !in s.procs && s.file == Holds(q) && q in s.procs
    ensures var s3 := s.(procs := s.procs[p := Process(kind, Checking(q))], lock := Some(p));
            var s4 := s.(procs := s.procs[p := Process(kind, Refused)], lock := Some(p));
            && Enabled(atomic, s3, Check(p, true)) && Apply(atomic, s3, Check(p, true)) == s4
            && !Enabled(atomic, s3, Check(p, false)) && Enabled(atomic, s4, Release(p))
  {
  }

  lemma ReadsLive(atomic: bool, s: State, p: Pid, kind: Kind, q: Pid)
    requires s.lock == None && p !in s.procs && !kind.Tool? && s.file == Holds(q)
    ensures Leads(atomic, s, [] + [Launch(p, kind)] + [Acquire(p)] + [Read(p)],
                  s.(procs := s.procs[p := Process(kind, Checking(q))], lock := Some(p)))
  {
    var s1 := s.(procs := s.procs[p := Process(kind, WantLock)]);
    var s2 := s.(procs := s.procs[p := Process(kind, Reading)], lock := Some(p));
    LeadsTrivially(atomic, s);
    LeadsStep(atomic, s, [], s, Launch(p, kind));
    LeadsStep(atomic, s, [] + [Launch(p, kind)], s1, Acquire(p));
    assert Apply(atomic, s1, Acquire(p)) == s2;
    LeadsStep(atomic, s, [] + [Launch(p, kind)] + [Acquire(p)], s2, Read(p));
  }

  /** `start` or `_serve` that finds a live process of another PID named in the file can only exit, and changes
      nothing. */
  lemma RunningNodeIsKept(atomic: bool, s: State, p: Pid, kind: Kind, q: Pid)
    requires s.lock == None && p !in s.procs && !kind.Tool? && s.file == Holds(q) && q in s.procs
    ensures Leads(atomic, s, [] + [Launch(p, kind)] + [Acquire(p)] + [Read(p)] + [Check(p, true)] + [Release(p)],
                  s.(procs := s.procs[p := Process(kind, Finished)]))
    ensures !Enabled(atomic, s.(procs := s.procs[p := Process(kind, Checking(q))], lock := Some(p)), Check(p, false))
  {
    var s3 := s.(procs := s.procs[p := Process(kind, Checking(q))], lock := Some(p));
    var s4 := s.(procs := s.procs[p := Process(kind, Refused)], lock := Some(p));
    var run := [] + [Launch(p, kind)] + [Acquire(p)] + [Read(p)];
    ReadsLive(atomic, s, p, kind, q);
    RefusesWhenLive(atomic, s, p, kind, q);
    LeadsStep(atomic, s, run, s3, Check(p, true));
    LeadsStep(atomic, s, run + [Check(p, true)], s4, Release(p));
    assert s.procs[p := Process(kind, Refused)][p := Process(kind, Finished)]
        == s.procs[p := Process(kind, Finished)];
  }

  // ---- Removing the file some steps after looking at it ------------------------------------------------------

  /** A state in which q may remove the PID file at once. */
  predicate AboutToSweep(s: State, q: Pid) {
    At(s, q, Sweeping) && s.lock == None
  }

  /** Where one node runs and another process removes its file, a second node can start. */
  lemma SecondNode(s: State, p: Pid, q: Pid, r: Pid) returns (run: seq<Step>)
    requires AboutToSweep(s, q) && At(s, p, Serving) && r !in s.procs
    ensures IsRun(false, s, run) && !AtMostOneNode(Outcome(false, s, run))
  {
    var s1 := Move(s, q, Idle).(file := Absent);
    LeadsTrivially(false, s);
    LeadsStep(false, s, [], s, SweepUnlink(q));
    AloneItServes(false, s1, r);
    LeadsOn(false, s, [] + [SweepUnlink(q)], s1, ServeSteps(Absent, r), Node(s1, r));
    run := [] + [SweepUnlink(q)] + ServeSteps(Absent, r);
    assert IsServing(Node(s1, r).procs[p].phase) && IsServing(Node(s1, r).procs[r].phase);
  }

  /** The state once p has written its PID and left the lock. */
  function Started(s: State, p: Pid): State
    requires p in s.procs
  {
    Move(s, p, Serving).(lock := None, file := Holds(p), tmp := Absent)
  }

  lemma NodeWritten(s: State, p: Pid)
    requires Inv(s) && Enabled(false, s, Rename(p)) && s.procs[p].kind.Serve?
    ensures Apply(false, s, Rename(p)) == Move(s, p, Releasing).(file := Holds(p), tmp := Absent)
  {
    assert PhaseInv(s, p);
  }

  lemma NodeReleases(s: State, p: Pid)
    requires p in s.procs && s.procs[p].kind.Serve?
    ensures Apply(false, Move(s, p, Releasing).(file := Holds(p), tmp := Absent), Release(p)) == Started(s, p)
  {
    assert s.procs[p := s.procs[p].(phase := Releasing)][p := s.procs[p].(phase := Serving)]
        == s.procs[p := s.procs[p].(phase := Serving)];
  }

  lemma NodeStarts(s: State, p: Pid)
    requires Inv(s) && Enabled(false, s, Rename(p)) && s.procs[p].kind.Serve?
    ensures Leads(false, s, [] + [Rename(p)] + [Release(p)], Started(s, p))
  {
    var s1 := Move(s, p, Releasing).(file := Holds(p), tmp := Absent);
    NodeWritten(s, p);
    LeadsTrivially(false, s);
    LeadsStep(false, s, [], s, Rename(p));
    NodeReleases(s, p);
    LeadsStep(false, s, [] + [Rename(p)], s1, Release(p));
  }

  /** The threat comes true: from the state in which node p runs, q can get to where only the removal is left. */
  lemma ThreatComesTrue(s: State, p: Pid, q: Pid) returns (run: seq<Step>, t: State)
    requires s.lock == None && s.file == Holds(p) && At(s, p, Serving) && q in s.procs && q != p
    requires Threatens(q, s.procs[q].phase, p)
    ensures Leads(false, s, run, t) && AboutToSweep(t, q) && At(t, p, Serving) && t.procs.Keys <= s.procs.Keys
  {
    LeadsTrivially(false, s);
    match s.procs[q].phase
    case Sweeping =>
      run, t := [], s;
    case Waited(_) =>
      run, t := [] + [ClearRead(q)], Move(s, q, Sweeping);
      LeadsStep(false, s, [], s, ClearRead(q));
    case Looking(found) =>
      if found in s.procs {
        var s1 := Apply(false, s, Die(found, false));
        LeadsStep(false, s, [], s, Die(found, false));
        LeadsStep(false, s, [] + [Die(found, false)], s1, Judge(q, false));
        run, t := [] + [Die(found, false)] + [Judge(q, false)], Move(s1, q, Sweeping);
      } else {
        LeadsStep(false, s, [], s, Judge(q, false));
        run, t := [] + [Judge(q, false)], Move(s, q, Sweeping);
      }
  }

  lemma UnquietIsRename(s: State, step: Step)
    requires !Quiet(s, step)
    ensures step == Rename(step.p) && step.p in s.procs && s.procs[step.p].kind.Serve?
  {
  }

  lemma ThreatenedLater(s: State, p: Pid, q: Pid)
    requires Enabled(false, s, Rename(p)) && s.procs[p].kind.Serve?
    requires q in s.procs && Threatens(q, s.procs[q].phase, p)
    ensures var t := Started(s, p);
            && q != p && t.lock == None && t.file == Holds(p) && At(t, p, Serving) && t.procs.Keys == s.procs.Keys
            && q in t.procs && Threatens(q, t.procs[q].phase, p)
  {
  }

  /** The condition is needed: from any state of any safe run, a node's PID written while q may yet remove it can be
      followed by a second node. */
  lemma UnquietIsUnsafe(s: State, step: Step, q: Pid, r: Pid) returns (rest: seq<Step>)
    requires Inv(s) && Enabled(false, s, step) && !Quiet(s, step)
    requires q in s.procs && Threatens(q, s.procs[q].phase, step.p) && r !in s.procs
    ensures IsRun(false, s, [step] + rest) && !AtMostOneNode(Outcome(false, s, [step] + rest))
  {
    hide Apply, Enabled, Inv, Threatens, Quiet, AtMostOneNode, IsRun, Outcome;
    var p := step.p;
    UnquietIsRename(s, step);
    NodeStarts(s, p);
    ThreatenedLater(s, p, q);
    var more, t := ThreatComesTrue(Started(s, p), p, q);
    var last := SecondNode(t, p, q, r);
    var u := Outcome(false, t, last);
    LeadsOn(false, s, [] + [Rename(p)] + [Release(p)], Started(s, p), more, t);
    LeadsOn(false, s, [] + [Rename(p)] + [Release(p)] + more, t, last, u);
    rest := [] + [Release(p)] + more + last;
    assert [step] + rest == [] + [Rename(p)] + [Release(p)] + more + last;
  }

  /** A process ID above all those in use. */
  lemma {:induction false} FreshPid(used: set<Pid>) returns (r: Pid)
    ensures forall p | p in used :: p < r
  {
    if used == {} {
      r := 0;
    } else {
      var q :| q in used;
      var above := FreshPid(used - {q});
      r := if q < above then above else q + 1;
      forall p | p in used ensures p < r {
        assert p == q || p in used - {q};
      }
    }
  }

  /** After a quiet run, a quiet step leads to a safe state again, and one that is not quiet can be followed by two
      nodes. */
  lemma QuietIff(s: State, steps: seq<Step>, step: Step)
    requires Init(s) && IsRun(false, s, steps) && QuietRun(false, s, steps)
    requires Enabled(false, Outcome(false, s, steps), step)
    ensures var t := Outcome(false, s, steps);
            if Quiet(t, step) then Safe(Apply(false, t, step)) && QuietRun(false, t, [step])
            else exists rest :: BreaksAfter(t, step, rest)
  {
    var t := Outcome(false, s, steps);
    InvReached(false, s, steps);
    if Quiet(t, step) {
      InvKept(false, t, step);
      InvIsSafe(Apply(false, t, step));
      assert [step][1..] == [];
    } else {
      var q :| q in t.procs && Threatens(q, t.procs[q].phase, step.p);
      var r := FreshPid(t.procs.Keys);
      assert r !in t.procs.Keys;
      var rest := UnquietIsUnsafe(t, step, q, r);
      assert BreaksAfter(t, step, rest);
    }
  }

  /** From s, the step and then `rest` lead to two nodes. */
  ghost predicate BreaksAfter(s: State, step: Step, rest: seq<Step>) {
    IsRun(false, s, [step] + rest) && !AtMostOneNode(Outcome(false, s, [step] + rest))
  }

  lemma UnsafeIsUnquiet(s: State, steps: seq<Step>)
    requires Init(s) && IsRun(false, s, steps) && !AtMostOneNode(Outcome(false, s, steps))
    ensures !QuietRun(false, s, steps)
  {
    if QuietRun(false, s, steps) {
      QuietRunsAreSafe(false, s, steps);
    }
  }

  // ---- Three runs with two nodes ------------------------------------------------------------------------------

  /** Process 1 is about to remove the PID file, which names no running process; two nodes start around it. */
  lemma TwoNodes(s: State, before: seq<Step>, t: State) returns (steps: seq<Step>)
    requires Init(s) && Leads(false, s, before, t) && AboutToSweep(t, 1)
    requires 7 !in t.procs && 8 !in t.procs && (t.file.Holds? ==> t.file.pid !in t.procs)
    ensures before <= steps && IsRun(false, s, steps)
    ensures !AtMostOneNode(Outcome(false, s, steps)) && !QuietRun(false, s, steps)
  {
    AloneItServes(false, t, 7);
    var rest := SecondNode(Node(t, 7), 7, 1, 8);
    var u := Outcome(false, Node(t, 7), rest);
    var first := before + ServeSteps(t.file, 7);
    LeadsOn(false, s, before, t, ServeSteps(t.file, 7), Node(t, 7));
    LeadsOn(false, s, first, Node(t, 7), rest, u);
    steps := first + rest;
    UnsafeIsUnquiet(s, steps);
  }

  function Left(file: Content, procs: map<Pid, Process>): State {
    State(procs, None, file, Absent)
  }

  const TOOL := Process(Tool, Idle)

  lemma ToolLaunched(file: Content)
    ensures Leads(false, Left(file, map[]), [] + [Launch(1, Tool)], Left(file, map[1 := TOOL]))
  {
    LeadsTrivially(false, Left(file, map[]));
    LeadsStep(false, Left(file, map[]), [], Left(file, map[]), Launch(1, Tool));
    assert Apply(false, Left(file, map[]), Launch(1, Tool)) == Left(file, map[1 := TOOL]);
  }

  /** In an empty data directory: a command finds no PID file, a node starts, the command goes on to remove what is now
      the node's file, and another node starts. */
  lemma AbsentFileIsUnsafe() returns (steps: seq<Step>)
    ensures IsRun(false, Left(Absent, map[]), steps) && [] + [Launch(1, Tool)] + [Look(1)] <= steps
    ensures !AtMostOneNode(Outcome(false, Left(Absent, map[]), steps))
    ensures !QuietRun(false, Left(Absent, map[]), steps)
  {
    var s, s1 := Left(Absent, map[]), Left(Absent, map[1 := TOOL]);
    var t := Left(Absent, map[1 := TOOL.(phase := Sweeping)]);
    ToolLaunched(Absent);
    LeadsStep(false, s, [] + [Launch(1, Tool)], s1, Look(1));
    assert Apply(false, s1, Look(1)) == t;
    steps := TwoNodes(s, [] + [Launch(1, Tool)] + [Look(1)], t);
  }

  /** The same with a file left behind by process 9. */
  lemma SplitSweepsAreUnsafe() returns (s: State, steps: seq<Step>)
    ensures Init(s) && s.file == Holds(9) && IsRun(false, s, steps)
    ensures !AtMostOneNode(Outcome(false, s, steps)) && !QuietRun(false, s, steps)
  {
    s := Left(Holds(9), map[]);
    var s1 := Left(Holds(9), map[1 := TOOL]);
    var s2 := Left(Holds(9), map[1 := TOOL.(phase := Looking(9))]);
    var t := Left(Holds(9), map[1 := TOOL.(phase := Sweeping)]);
    ToolLaunched(Holds(9));
    LeadsStep(false, s, [] + [Launch(1, Tool)], s1, Look(1));
    assert Apply(false, s1, Look(1)) == s2;
    LeadsStep(false, s, [] + [Launch(1, Tool)] + [Look(1)], s2, Judge(1, false));
    assert Apply(false, s2, Judge(1, false)) == t;
    steps := TwoNodes(s, [] + [Launch(1, Tool)] + [Look(1)] + [Judge(1, false)], t);
  }

  /** A node that runs alone, beside the idle process 1, removes its file and exits. */
  function ExitSteps(p: Pid): seq<Step> {
    [] + [ShutDown(p)] + [CloseRead(p)] + [CloseUnlink(p)] + [Die(p, false)]
  }

  /** One step of process p, whose kind is Serve, to another phase. */
  lemma MovedOn(procs: map<Pid, Process>, p: Pid, ph: Phase, next: Phase)
    ensures procs[p := Process(Serve, ph)][p := Process(Serve, next)] == procs[p := Process(Serve, next)]
  {
  }

  /** `_serve` process p, outside the lock, in the given phase. */
  function OutsideLock(s: State, p: Pid, ph: Phase, file: Content): State {
    State(s.procs[p := Process(Serve, ph)], None, file, Absent)
  }

  lemma NodeCloses(s: State, p: Pid)
    requires p !in s.procs && s.lock == None
    ensures Leads(false, Node(s, p), [] + [ShutDown(p)] + [CloseRead(p)], OutsideLock(s, p, ClosingUnlink, Holds(p)))
  {
    LeadsTrivially(false, Node(s, p));
    LeadsStep(false, Node(s, p), [], Node(s, p), ShutDown(p));
    MovedOn(s.procs, p, Serving, Closing);
    LeadsStep(false, Node(s, p), [] + [ShutDown(p)], OutsideLock(s, p, Closing, Holds(p)), CloseRead(p));
    MovedOn(s.procs, p, Closing, ClosingUnlink);
  }

  lemma NodeExits(s: State, p: Pid)
    requires p !in s.procs && s.lock == None
    ensures Leads(false, Node(s, p), ExitSteps(p), s.(file := Absent, tmp := Absent))
  {
    var closing, closed := OutsideLock(s, p, ClosingUnlink, Holds(p)), OutsideLock(s, p, Finished, Absent);
    var first := [] + [ShutDown(p)] + [CloseRead(p)];
    NodeCloses(s, p);
    LeadsStep(false, Node(s, p), first, closing, CloseUnlink(p));
    MovedOn(s.procs, p, ClosingUnlink, Finished);
    LeadsStep(false, Node(s, p), first + [CloseUnlink(p)], closed, Die(p, false));
    assert s.procs[p := Process(Serve, Finished)] - {p} == s.procs;
  }

  /** `stop`, as process 1, up to where it has only the removal left. */
  function StopSteps(): seq<Step> {
    [] + [Launch(1, Tool)] + ServeSteps(Absent, 2) + ExitSteps(2) + [Await(1, 2)] + [ClearRead(1)]
  }

  lemma StopWaits()
    ensures Leads(false, Left(Absent, map[]), [] + [Launch(1, Tool)] + ServeSteps(Absent, 2) + ExitSteps(2),
                  Left(Absent, map[1 := TOOL]))
  {
    var s, s1 := Left(Absent, map[]), Left(Absent, map[1 := TOOL]);
    ToolLaunched(Absent);
    AloneItServes(false, s1, 2);
    LeadsOn(false, s, [] + [Launch(1, Tool)], s1, ServeSteps(Absent, 2), Node(s1, 2));
    NodeExits(s1, 2);
    LeadsOn(false, s, [] + [Launch(1, Tool)] + ServeSteps(Absent, 2), Node(s1, 2), ExitSteps(2), s1);
  }

  lemma StopClears()
    ensures Leads(false, Left(Absent, map[]), StopSteps(), Left(Absent, map[1 := TOOL.(phase := Sweeping)]))
  {
    var s, s1 := Left(Absent, map[]), Left(Absent, map[1 := TOOL]);
    var s2, t := Left(Absent, map[1 := TOOL.(phase := Waited(2))]), Left(Absent, map[1 := TOOL.(phase := Sweeping)]);
    var waited := [] + [Launch(1, Tool)] + ServeSteps(Absent, 2) + ExitSteps(2);
    StopWaits();
    LeadsStep(false, s, waited, s1, Await(1, 2));
    assert Apply(false, s1, Await(1, 2)) == s2;
    LeadsStep(false, s, waited + [Await(1, 2)], s2, ClearRead(1));
    assert Apply(false, s2, ClearRead(1)) == t;
  }

  /** The usual course of `stop`: it waits until the node has exited, having removed its own file, and clears the file
      all the same. A node that starts meanwhile loses its file, and another can start. */
  lemma StopIsUnsafe() returns (steps: seq<Step>)
    ensures IsRun(false, Left(Absent, map[]), steps) && StopSteps() <= steps
    ensures !AtMostOneNode(Outcome(false, Left(Absent, map[]), steps))
    ensures !QuietRun(false, Left(Absent, map[]), steps)
  {
    StopClears();
    steps := TwoNodes(Left(Absent, map[]), StopSteps(), Left(Absent, map[1 := TOOL.(phase := Sweeping)]));
  }

  /** The protocol keeps its promise in every run, without a condition, exactly when the look at the PID file and its
      removal, outside the lock, are one step. */
  lemma SafeIffSweepsAtomic(atomicSweeps: bool)
    ensures atomicSweeps
       <==> forall s, steps | Init(s) && IsRun(atomicSweeps, s, steps) :: AtMostOneNode(Outcome(atomicSweeps, s, steps))
  {
    if atomicSweeps {
      forall s, steps | Init(s) && IsRun(true, s, steps) ensures AtMostOneNode(Outcome(true, s, steps)) {
        AtomicSweepsAreSafe(s, steps);
      }
    } else {
      var s, steps := SplitSweepsAreUnsafe();
    }
  }
}
