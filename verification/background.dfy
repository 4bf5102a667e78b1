/**
  The registry of background processes of shell.c: at most
  `MaxBackgroundProcesses` (pid, program name) pairs in launch order.

  The liveness poll `waitpid(pid, &status, WNOHANG)` is an oracle: `exited` is
  the set of pids for which it answers "this child has exited" (it returns
  the pid). Such an answer also reaps the child, so a later poll for the same
  pid no longer reports it; the sweep therefore removes the pid from the
  oracle once it has been reported.
 */
module Background {
  import opened Seqs

  const MaxBackgroundProcesses: nat := 100

  /** A tracked background process and the name it was launched under. */
  datatype Job = Job(pid: int, cmd: string)

  predicate Bounded(jobs: seq<Job>) {
    |jobs| <= MaxBackgroundProcesses
  }

  /**
    Registration after a background launch: the job is appended only while
    there is room; beyond capacity the process runs untracked.
   */
  function Register(jobs: seq<Job>, pid: int, name: string): (r: seq<Job>)
    requires Bounded(jobs)
    ensures Bounded(r)
    ensures |jobs| < MaxBackgroundProcesses ==> r == jobs + [Job(pid, name)]
    ensures |jobs| == MaxBackgroundProcesses ==> r == jobs
  {
    if |jobs| < MaxBackgroundProcesses then jobs + [Job(pid, name)] else jobs
  }

  /** What a sweep leaves tracked and what it reports as finished. */
  datatype SweepResult = SweepResult(running: seq<Job>, finished: seq<Job>)

  /**
    `check_background_processes`: every job is polled once, in order; a job
    whose pid the oracle reports is announced and removed, the others stay in
    their order.
   */
  function Sweep(jobs: seq<Job>, exited: set<int>): (r: SweepResult)
    ensures |r.running| + |r.finished| == |jobs|
    ensures forall k :: 0 <= k < |r.finished| ==> r.finished[k].pid in exited
    decreases |jobs|
  {
    if |jobs| == 0 then SweepResult([], [])
    else if jobs[0].pid in exited then
      var r := Sweep(jobs[1..], exited - {jobs[0].pid});
      SweepResult(r.running, [jobs[0]] + r.finished)
    else
      var r := Sweep(jobs[1..], exited);
      SweepResult([jobs[0]] + r.running, r.finished)
  }

  /** The sweep loses no job and invents none: what stays and what is reported
      together are the jobs it started with. */
  lemma {:induction false} SweepKeepsEveryJob(jobs: seq<Job>, exited: set<int>)
    ensures multiset(Sweep(jobs, exited).running) + multiset(Sweep(jobs, exited).finished) == multiset(jobs)
    decreases |jobs|
  {
    if |jobs| > 0 {
      assert jobs == [jobs[0]] + jobs[1..];
      if jobs[0].pid in exited {
        SweepKeepsEveryJob(jobs[1..], exited - {jobs[0].pid});
      } else {
        SweepKeepsEveryJob(jobs[1..], exited);
      }
    }
  }

  /** The jobs whose pid is not in `exited`, in order. */
  function StillRunning(jobs: seq<Job>, exited: set<int>): (kept: seq<Job>)
  {
    if |jobs| == 0 then []
    else (if jobs[0].pid in exited then [] else [jobs[0]]) + StillRunning(jobs[1..], exited)
  }

  /** The jobs whose pid is in `exited`, in order. */
  function HaveExited(jobs: seq<Job>, exited: set<int>): (gone: seq<Job>)
  {
    if |jobs| == 0 then []
    else (if jobs[0].pid in exited then [jobs[0]] else []) + HaveExited(jobs[1..], exited)
  }

  /** No two tracked jobs share a pid. */
  predicate DistinctPids(jobs: seq<Job>) {
    forall i, j :: 0 <= i < j < |jobs| ==> jobs[i].pid != jobs[j].pid
  }

  /** No job has pid `p`. */
  predicate Lacks(p: int, jobs: seq<Job>) {
    forall k :: 0 <= k < |jobs| ==> jobs[k].pid != p
  }

  /** Filtering does not look at pids that no job has. */
  lemma {:induction false} FiltersIgnoreAbsentPid(jobs: seq<Job>, exited: set<int>, p: int)
    requires Lacks(p, jobs)
    ensures StillRunning(jobs, exited - {p}) == StillRunning(jobs, exited)
    ensures HaveExited(jobs, exited - {p}) == HaveExited(jobs, exited)
    decreases |jobs|
  {
    if |jobs| > 0 {
      assert jobs[0].pid != p;
      assert forall k :: 0 <= k < |jobs| - 1 ==> jobs[1..][k] == jobs[k + 1];
      FiltersIgnoreAbsentPid(jobs[1..], exited, p);
    }
  }

  /** The tail of a job list with distinct pids has distinct pids and lacks the head's pid. */
  lemma DistinctTail(jobs: seq<Job>)
    requires |jobs| > 0 && DistinctPids(jobs)
    ensures DistinctPids(jobs[1..])
    ensures Lacks(jobs[0].pid, jobs[1..])
  {
    assert forall k :: 0 <= k < |jobs| - 1 ==> jobs[1..][k] == jobs[k + 1];
  }

  /** One unfolding of `Sweep` and of both filters at the head job. */
  lemma SweepHead(jobs: seq<Job>, exited: set<int>)
    requires |jobs| > 0
    ensures jobs[0].pid in exited ==>
      Sweep(jobs, exited) == SweepResult(Sweep(jobs[1..], exited - {jobs[0].pid}).running,
                                         [jobs[0]] + Sweep(jobs[1..], exited - {jobs[0].pid}).finished)
    ensures jobs[0].pid !in exited ==>
      Sweep(jobs, exited) == SweepResult([jobs[0]] + Sweep(jobs[1..], exited).running,
                                         Sweep(jobs[1..], exited).finished)
    ensures jobs[0].pid in exited ==>
      StillRunning(jobs, exited) == StillRunning(jobs[1..], exited)
      && HaveExited(jobs, exited) == [jobs[0]] + HaveExited(jobs[1..], exited)
    ensures jobs[0].pid !in exited ==>
      StillRunning(jobs, exited) == [jobs[0]] + StillRunning(jobs[1..], exited)
      && HaveExited(jobs, exited) == HaveExited(jobs[1..], exited)
  {
  }

  /**
    When the tracked pids are distinct, the sweep keeps exactly the jobs the
    oracle does not report, in their original order, and reports exactly the
    others, in their original order.
   */
  lemma {:induction false} SweepIsFilter(jobs: seq<Job>, exited: set<int>)
    requires DistinctPids(jobs)
    ensures Sweep(jobs, exited) == SweepResult(StillRunning(jobs, exited), HaveExited(jobs, exited))
    decreases |jobs|
  {
    if |jobs| > 0 {
      var p := jobs[0].pid;
      DistinctTail(jobs);
      SweepHead(jobs, exited);
      if p in exited {
        SweepIsFilter(jobs[1..], exited - {p});
        FiltersIgnoreAbsentPid(jobs[1..], exited, p);
      } else {
        SweepIsFilter(jobs[1..], exited);
      }
    }
  }

  /** A job survives the filter exactly when it was tracked and not reported. */
  lemma {:induction false} StillRunningMembers(jobs: seq<Job>, exited: set<int>, j: Job)
    ensures j in StillRunning(jobs, exited) <==> j in jobs && j.pid !in exited
    decreases |jobs|
  {
    if |jobs| > 0 {
      StillRunningMembers(jobs[1..], exited, j);
      assert jobs == [jobs[0]] + jobs[1..];
    }
  }

  /**
    A job registered under a pid no tracked job has is, at the next sweep,
    reported finished exactly when the poll reports its pid, and otherwise
    stays tracked; registration keeps the pids distinct.
   */
  lemma RegisteredJobIsPolled(jobs: seq<Job>, pid: int, name: string, exited: set<int>)
    requires Bounded(jobs) && |jobs| < MaxBackgroundProcesses
    requires DistinctPids(jobs) && Lacks(pid, jobs)
    ensures DistinctPids(Register(jobs, pid, name))
    ensures Job(pid, name) in Sweep(Register(jobs, pid, name), exited).running <==> pid !in exited
    ensures Job(pid, name) in Sweep(Register(jobs, pid, name), exited).finished <==> pid in exited
  {
    var j := Job(pid, name);
    var r := Register(jobs, pid, name);
    assert r[|r| - 1] == j;
    SweepIsFilter(r, exited);
    StillRunningMembers(r, exited, j);
    SweepKeepsEveryJob(r, exited);
    var s := Sweep(r, exited);
    assert j in multiset(r);
    if pid in exited {
      assert j !in s.running;
      assert j in multiset(s.running) + multiset(s.finished);
    } else {
      assert forall k :: 0 <= k < |s.finished| ==> s.finished[k] != j;
    }
  }

  /**
    The inner loop of the sweep: slots i+1.. move down one place (a
    shift-down removal, not a swap with the last slot), then the count drops
    by one.
   */
  method ShiftDown(a: seq<Job>, i: nat) returns (b: seq<Job>)
    requires i < |a|
    ensures b == a[..i] + a[i + 1..]
  {
    b := a;
    var j := i;
    while j < |a| - 1
      invariant i <= j <= |a| - 1
      invariant |b| == |a|
      invariant forall k :: 0 <= k < i ==> b[k] == a[k]
      invariant forall k :: i <= k < j ==> b[k] == a[k + 1]
      invariant forall k :: j <= k < |a| ==> b[k] == a[k]
    {
      b := b[j := b[j + 1]];
      j := j + 1;
    }
    b := b[..|a| - 1];
  }

  lemma SweepStep(procs: seq<Job>, i: nat, reaped: set<int>)
    requires i < |procs|
    ensures procs[i].pid in reaped ==>
      var r := Sweep(procs[i + 1..], reaped - {procs[i].pid});
      Sweep(procs[i..], reaped) == SweepResult(r.running, [procs[i]] + r.finished)
    ensures procs[i].pid !in reaped ==>
      var r := Sweep(procs[i + 1..], reaped);
      Sweep(procs[i..], reaped) == SweepResult([procs[i]] + r.running, r.finished)
  {
    assert procs[i..][1..] == procs[i + 1..];
  }

  lemma RemovedSlot(procs: seq<Job>, i: nat, procs': seq<Job>)
    requires i < |procs| && procs' == procs[..i] + procs[i + 1..]
    ensures procs'[..i] == procs[..i] && procs'[i..] == procs[i + 1..]
  {
  }

  lemma KeptSlot(procs: seq<Job>, i: nat)
    requires i < |procs|
    ensures procs[..i + 1] == procs[..i] + [procs[i]]
  {
  }


  /**
    The loop of `check_background_processes`, with its `i--` after a
    removal: the entry that moved into slot i is polled next, so no entry is
    skipped and the outcome is the one `Sweep` describes.
   */
  method CheckBackgroundProcesses(jobs: seq<Job>, exited: set<int>) returns (running: seq<Job>, finished: seq<Job>)
    ensures SweepResult(running, finished) == Sweep(jobs, exited)
  {
    var procs := jobs;
    var reaped := exited;
    var i := 0;
    finished := [];
    while i < |procs|
      invariant 0 <= i <= |procs|
      invariant Sweep(jobs, exited).running == procs[..i] + Sweep(procs[i..], reaped).running
      invariant Sweep(jobs, exited).finished == finished + Sweep(procs[i..], reaped).finished
      decreases |procs| - i
    {
      SweepStep(procs, i, reaped);
      if procs[i].pid in reaped {
        var gone := procs[i];
        var procs' := ShiftDown(procs, i);
        RemovedSlot(procs, i, procs');
        Regroup(Sweep(jobs, exited).finished, finished, gone,
                Sweep(procs[i..], reaped).finished, Sweep(procs'[i..], reaped - {gone.pid}).finished);
        finished := finished + [gone];
        reaped := reaped - {gone.pid};
        procs := procs';
      } else {
        KeptSlot(procs, i);
        Regroup(Sweep(jobs, exited).running, procs[..i], procs[i],
                Sweep(procs[i..], reaped).running, Sweep(procs[i + 1..], reaped).running);
        i := i + 1;
      }
    }
    running := procs;
  }
}
