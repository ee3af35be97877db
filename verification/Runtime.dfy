/** The PID file and the startup lock as the objects a single process works with, and how the protocol
    steps of one undisturbed process add up to them. */
module Runtime {
  import opened Common
  import opened Startup

  /** The process that the PID file names, if it is a live node. */
  function LivePid(file: Content, isNode: Pid -> bool): Option<Pid> {
    if file.Holds? && isNode(file.pid) then Some(file.pid) else None
  }

  class DataDir {
    var file: Content
    var tmp: Content

    constructor ()
      ensures file == Absent && tmp == Absent
    {
      file, tmp := Absent, Absent;
    }

    /** Returns the live node's PID; an unreadable or stale PID file is removed. */
    method ReadLivePid(isNode: Pid -> bool) returns (pid: Option<Pid>)
      modifies this`file
      ensures pid == LivePid(old(file), isNode)
      ensures file == if pid.Some? then Holds(pid.value) else Absent
    {
      match file
      case Absent =>
        return None;
      case Garbled =>
        file := Absent;
        return None;
      case Holds(found) =>
        if isNode(found) {
          return Some(found);
        }
        file := Absent;
        return None;
    }

    /** Writes a temporary file and renames it over the PID file. */
    method WritePidFile(pid: Pid)
      modifies this
      ensures file == Holds(pid) && tmp == Absent
    {
      tmp := Holds(pid);
      file, tmp := tmp, Absent;
    }

    /** Removes the PID file unless it belongs to another process. */
    method ClearPidFile(pid: Pid)
      modifies this`file
      ensures file == if old(file).Holds? && old(file).pid != pid then old(file) else Absent
    {
      if file.Holds? {
        if file.pid == pid {
          file := Absent;
        }
      } else {
        file := Absent;
      }
    }
  }

  /** One try at the lock: whether it is free, and what the clock reads afterwards. */
  datatype Try = Try(free: bool, now: real)

  class StartupLock {
    var handleOpen: bool
    var acquired: bool

    ghost predicate Valid()
      reads this
    {
      acquired ==> handleOpen
    }

    constructor ()
      ensures Valid() && !acquired && !handleOpen
    {
      handleOpen, acquired := false, false;
    }

    /** Tries the lock until it is free or the clock, read after each failed try, has reached the deadline. */
    method Acquire(tries: seq<Try>, start: real, timeout: real) returns (ok: bool, ghost used: nat)
      requires Valid() && exists i :: 0 <= i < |tries| && (tries[i].free || tries[i].now >= start + timeout)
      modifies this
      ensures Valid()
      ensures ok == acquired == handleOpen
      ensures used < |tries| && (tries[used].free || tries[used].now >= start + timeout)
      ensures forall i | 0 <= i < used :: !tries[i].free && tries[i].now < start + timeout
      ensures ok <==> tries[used].free
    {
      handleOpen := true;
      var deadline := start + timeout;
      var n := 0;
      while true
        invariant 0 <= n < |tries| && handleOpen
        invariant forall i | 0 <= i < n :: !tries[i].free && tries[i].now < deadline
        invariant exists i :: n <= i < |tries| && (tries[i].free || tries[i].now >= deadline)
        decreases |tries| - n
      {
        if tries[n].free {
          acquired := true;
          return true, n;
        }
        if tries[n].now >= deadline {
          Release();
          return false, n;
        }
        n := n + 1;
      }
    }

    method Release()
      requires Valid()
      modifies this
      ensures Valid() && !acquired && !handleOpen
    {
      if handleOpen {
        handleOpen, acquired := false, false;
      }
    }
  }

  // ---- The protocol's steps and the methods -----------------------------------------------------------------

  /** The steps in which an undisturbed process does what ReadLivePid does. */
  function ReadSteps(s: State, p: Pid, isNode: Pid -> bool): seq<Step> {
    match s.file
    case Absent => [] + [Read(p)]
    case Garbled => [] + [Read(p)] + [Unlink(p)]
    case Holds(q) =>
      if isNode(q) then [] + [Read(p)] + [Check(p, true)] else [] + [Read(p)] + [Check(p, false)] + [Unlink(p)]
  }

  /** Undisturbed, the steps of the protocol leave the PID file as ReadLivePid does, and the process stops
      exactly when ReadLivePid returns another process (for `start`: any process). */
  lemma ReadStepsAreReadLivePid(atomic: bool, s: State, p: Pid, isNode: Pid -> bool)
    requires Startup.At(s, p, Reading) && !s.procs[p].kind.Tool?
    requires forall q | q in s.procs :: isNode(q)
    ensures IsRun(atomic, s, ReadSteps(s, p, isNode))
    ensures var t := Outcome(atomic, s, ReadSteps(s, p, isNode));
            var found := LivePid(s.file, isNode);
            && t.file == (if found.Some? then Holds(found.value) else Absent)
            && p in t.procs
            && (t.procs[p].phase.Refused? <==> found.Some? && !(s.procs[p].kind.Serve? && found.value == p))
            && (!t.procs[p].phase.Refused? ==> t.procs[p].phase == Passed(p, s.procs[p].kind))
  {
    var read, s1 := [] + [Read(p)], Apply(atomic, s, Read(p));
    LeadsTrivially(atomic, s);
    LeadsStep(atomic, s, [], s, Read(p));
    match s.file {
      case Absent =>
      case Garbled =>
        LeadsStep(atomic, s, read, s1, Unlink(p));
      case Holds(q) =>
        LeadsStep(atomic, s, read, s1, Check(p, isNode(q)));
        if !isNode(q) {
          var s2 := Apply(atomic, s1, Check(p, false));
          LeadsStep(atomic, s, read + [Check(p, false)], s2, Unlink(p));
        }
    }
  }

  /** The steps in which a process outside the lock does what ReadLivePid does. */
  function LookSteps(file: Content, p: Pid, isNode: Pid -> bool): seq<Step> {
    if !file.Holds? then [] + [Look(p)] + [SweepUnlink(p)]
    else if isNode(file.pid) then [] + [Look(p)] + [Judge(p, true)]
    else [] + [Look(p)] + [Judge(p, false)] + [SweepUnlink(p)]
  }

  lemma BackToIdle(s: State, p: Pid, ph: Phase)
    requires Startup.At(s, p, Idle)
    ensures Move(Move(s, p, ph), p, Idle) == s
  {
    assert s.procs[p].(phase := ph).(phase := Idle) == s.procs[p];
    assert s.procs[p := s.procs[p].(phase := ph)][p := s.procs[p]] == s.procs;
  }

  /** Undisturbed they leave the PID file as ReadLivePid does, and everything else as it was. */
  lemma LookStepsAreReadLivePid(s: State, p: Pid, isNode: Pid -> bool)
    requires Startup.At(s, p, Idle) && forall q | q in s.procs :: isNode(q)
    ensures var found := LivePid(s.file, isNode);
            Leads(false, s, LookSteps(s.file, p, isNode),
                  s.(file := if found.Some? then Holds(found.value) else Absent))
  {
    LeadsTrivially(false, s);
    LeadsStep(false, s, [], s, Look(p));
    BackToIdle(s, p, Sweeping);
    if !s.file.Holds? {
      LeadsStep(false, s, [] + [Look(p)], Move(s, p, Sweeping), SweepUnlink(p));
    } else {
      var s1 := Move(s, p, Looking(s.file.pid));
      LeadsStep(false, s, [] + [Look(p)], s1, Judge(p, isNode(s.file.pid)));
      BackToIdle(s, p, Looking(s.file.pid));
      if !isNode(s.file.pid) {
        MovedTwice(s, p, Looking(s.file.pid), Sweeping);
        LeadsStep(false, s, [] + [Look(p)] + [Judge(p, false)], Move(s, p, Sweeping), SweepUnlink(p));
      }
    }
  }

  /** If look and removal were one step, that step would do the same. */
  lemma SweepIsReadLivePid(s: State, p: Pid)
    requires Startup.At(s, p, Idle)
    ensures var found := LivePid(s.file, (q: Pid) => q in s.procs);
            Leads(true, s, [] + [Sweep(p)], s.(file := if found.Some? then Holds(found.value) else Absent))
  {
    LeadsTrivially(true, s);
    LeadsStep(true, s, [], s, Sweep(p));
  }

  lemma MovedTwice(s: State, p: Pid, ph: Phase, next: Phase)
    requires p in s.procs
    ensures Move(Move(s, p, ph), p, next) == Move(s, p, next)
  {
    assert s.procs[p := s.procs[p].(phase := ph)][p := s.procs[p].(phase := next)]
        == s.procs[p := s.procs[p].(phase := next)];
  }

  /** The steps in which a process outside the lock clears the PID file of a node that has exited. */
  function ClearSteps(file: Content, p: Pid, gone: Pid): seq<Step> {
    if file.Holds? && file.pid != gone then [] + [Await(p, gone)] + [ClearRead(p)]
    else [] + [Await(p, gone)] + [ClearRead(p)] + [SweepUnlink(p)]
  }

  /** Undisturbed they leave the PID file as ClearPidFile does. */
  lemma ClearStepsAreClearPidFile(s: State, p: Pid, gone: Pid)
    requires Startup.At(s, p, Idle) && gone !in s.procs
    ensures Leads(false, s, ClearSteps(s.file, p, gone),
                  s.(file := if s.file.Holds? && s.file.pid != gone then s.file else Absent))
  {
    var s1 := Move(s, p, Waited(gone));
    LeadsTrivially(false, s);
    LeadsStep(false, s, [], s, Await(p, gone));
    LeadsStep(false, s, [] + [Await(p, gone)], s1, ClearRead(p));
    BackToIdle(s, p, Waited(gone));
    BackToIdle(s, p, Sweeping);
    MovedTwice(s, p, Waited(gone), Sweeping);
    if !(s.file.Holds? && s.file.pid != gone) {
      LeadsStep(false, s, [] + [Await(p, gone)] + [ClearRead(p)], Move(s, p, Sweeping), SweepUnlink(p));
    }
  }
}
