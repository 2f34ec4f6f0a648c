/**
 Child processes and the saver jobs that own them.
 */
module SessionProcesses {
  import opened SessionModel

  type Pid = nat

  datatype Owner = JobOf(win: WinId) | DialogOf(win: WinId)

  /** A child that was not waited for yet. */
  datatype Child = Child(owner: Owner, stopped: bool)

  /** The process table.  Waiting for a pid that is not a child is ruled out by Wait's precondition. */
  class Kernel {
    var children: map<Pid, Child>
    var spawned: nat
    var reaped: nat
    var stoppedWaits: nat   // waits for a child that SIGSTOP keeps from exiting

    /** Every child spawned is either still there or was waited for exactly once. */
    ghost predicate Balanced()
      reads this
    {
      spawned == reaped + |children| && 0 !in children
    }

    constructor ()
      ensures Balanced() && children == map[]
    {
      children, spawned, reaped, stoppedWaits := map[], 0, 0, 0;
    }

    method Spawn(owner: Owner) returns (pid: Pid)
      requires Balanced()
      modifies this
      ensures Balanced() && pid > 0 && pid !in old(children)
      ensures children == old(children)[pid := Child(owner, false)]
      ensures spawned == old(spawned) + 1 && reaped == old(reaped) && stoppedWaits == old(stoppedWaits)
    {
      pid := FreshPid();
      children := children[pid := Child(owner, false)];
      spawned := spawned + 1;
    }

    /** The system picks a pid no child has. */
    method FreshPid() returns (pid: Pid)
      ensures pid > 0 && pid !in children
    {
      ghost var seen: set<Pid> := {};
      pid := 1;
      while pid in children
        invariant pid > 0
        invariant forall p :: p in seen <==> 1 <= p < pid
        invariant seen <= children.Keys
        decreases children.Keys - seen
      {
        seen := seen + {pid};
        pid := pid + 1;
      }
    }

    /** SIGSTOP or SIGCONT. */
    method Signal(pid: Pid, stop: bool)
      requires Balanced() && pid in children
      modifies this
      ensures Balanced() && children == old(children)[pid := old(children)[pid].(stopped := stop)]
      ensures spawned == old(spawned) && reaped == old(reaped) && stoppedWaits == old(stoppedWaits)
    {
      var c := children[pid].(stopped := stop);
      assert children[pid := c].Keys == children.Keys;
      children := children[pid := c];
    }

    /** waitpid. */
    method Wait(pid: Pid)
      requires Balanced() && pid in children
      modifies this
      ensures Balanced() && children == old(children) - {pid}
      ensures spawned == old(spawned) && reaped == old(reaped) + 1
      ensures stoppedWaits == old(stoppedWaits) + if old(children)[pid].stopped then 1 else 0
    {
      if children[pid].stopped {
        stoppedWaits := stoppedWaits + 1;
      }
      assert |children| == |children.Keys| && (children - {pid}).Keys == children.Keys - {pid};
      children := children - {pid};
      reaped := reaped + 1;
    }
  }

  /** Nobody else's children changed. */
  ghost predicate OnlyChildOf(o: Owner, c0: map<Pid, Child>, c1: map<Pid, Child>) {
    forall p :: (p in c0 && c0[p].owner != o) || (p in c1 && c1[p].owner != o) ==>
                  p in c0 && p in c1 && c0[p] == c1[p]
  }

  /** The one child of o is pid, or o has none and pid is 0. */
  ghost predicate ChildIs(c: map<Pid, Child>, o: Owner, pid: Pid, stopped: bool) {
    && (pid > 0 ==> pid in c && c[pid] == Child(o, stopped))
    && (forall p :: p in c && c[p].owner == o ==> p == pid)
  }

  /** One saver: the child drawing on one window. */
  class GSJob {
    const id: WinId
    const kernel: Kernel
    var pid: Pid
    var status: JobStatus
    var watch: bool

    function Value(): Job
      reads this
    {
      Job(pid > 0, status, watch)
    }

    /** The recorded pid is this job's only child, stopped exactly when the status says so. */
    ghost predicate Linked()
      reads this, kernel
    {
      kernel.Balanced() && ChildIs(kernel.children, JobOf(id), pid, status == Stopped)
    }

    constructor (id: WinId, kernel: Kernel)
      requires kernel.Balanced() && forall p :: p in kernel.children ==> kernel.children[p].owner != JobOf(id)
      ensures this.id == id && this.kernel == kernel && Value() == NEW_JOB && Linked()
    {
      this.id, this.kernel := id, kernel;
      pid, status, watch := 0, Invalid, false;
    }

    predicate IsRunning()
      reads this
    {
      pid > 0
    }

    method Start(starts: map<WinId, bool>)
      requires Linked()
      modifies this, kernel
      ensures Linked() && OnlyChildOf(JobOf(id), old(kernel.children), kernel.children)
      ensures Value() == StartJob(old(Value()), id, starts)
      ensures kernel.stoppedWaits == old(kernel.stoppedWaits)
    {
      if pid != 0 || id !in starts {
        return;
      }
      pid := kernel.Spawn(JobOf(id));
      watch := starts[id];
      status := Running;
    }

    method Suspend(suspend: bool)
      requires Linked()
      modifies this, kernel
      ensures Linked() && OnlyChildOf(JobOf(id), old(kernel.children), kernel.children)
      ensures Value() == SuspendJob(old(Value()), suspend)
      ensures kernel.stoppedWaits == old(kernel.stoppedWaits) && pid == old(pid)
    {
      if pid == 0 {
        return;
      }
      kernel.Signal(pid, suspend);
      status := if suspend then Stopped else Running;
    }

    /** gs_job_died: the child is waited for, stopped or not. */
    method Died()
      requires kernel.Balanced()
               && ChildIs(kernel.children, JobOf(id), pid, pid in kernel.children && kernel.children[pid].stopped)
      modifies `pid, `status, kernel
      ensures kernel.Balanced() && ChildIs(kernel.children, JobOf(id), pid, false) && pid == 0
      ensures OnlyChildOf(JobOf(id), old(kernel.children), kernel.children)
      ensures status == if old(pid) > 0 then Dead else old(status)
      ensures kernel.stoppedWaits == old(kernel.stoppedWaits)
                + if old(pid) > 0 && old(kernel.children[pid].stopped) then 1 else 0
    {
      if pid > 0 {
        kernel.Wait(pid);
        status := Dead;
      }
      pid := 0;
    }

    /** Ends the child if there is one.  A suspended child is continued first, so the wait is never
        for a stopped child. */
    method Stop()
      requires Linked()
      modifies this, kernel
      ensures Linked() && OnlyChildOf(JobOf(id), old(kernel.children), kernel.children) && pid == 0
      ensures Value() == StopJob(old(Value()))
      ensures kernel.stoppedWaits == old(kernel.stoppedWaits)
    {
      if pid == 0 {
        return;
      }
      if status == Stopped {
        Suspend(false);
      }
      watch := false;
      status := Killed;
      Died();
    }

    /** End of file or hang-up on the child's stderr.  The wait is for a stopped child exactly when the
        job was suspended. */
    method CommandWatch()
      requires Linked() && watch
      modifies this, kernel
      ensures Linked() && OnlyChildOf(JobOf(id), old(kernel.children), kernel.children) && pid == 0
      ensures Value() == JobWatchEnds(old(Value()))
      ensures kernel.stoppedWaits == old(kernel.stoppedWaits) + if Suspended(old(Value())) then 1 else 0
    {
      Died();
      watch := false;
    }
  }
}
