/** Import jobs: upload permits and running jobs share a fixed number of slots; finished jobs are kept for a while. */
module ImportJobs {
  import opened Text

  datatype JobState = Queued | Running | Succeeded | Failed

  datatype Job = Job(
    id: string, format: string, sourceName: string, state: JobState, total: int, done: int, failed: int, skipped: int,
    phase: string, message: string, error: string)

  type Jobs = map<string, Job>

  predicate Finished(jobs: Jobs, id: string) {
    id in jobs && (jobs[id].state.Succeeded? || jobs[id].state.Failed?)
  }

  function Unfinished(jobs: Jobs): set<string> {
    set id | id in jobs && !Finished(jobs, id)
  }

  ghost predicate Distinct(order: seq<string>) {
    forall i, j | 0 <= i < j < |order| :: order[i] != order[j]
  }

  /** The order lists every job once. */
  ghost predicate Filed(order: seq<string>, jobs: Jobs) {
    Distinct(order) && (forall id :: id in order <==> id in jobs) && forall id | id in jobs :: jobs[id].id == id
  }

  // ---- trimming ----

  /** The order without the first `d` finished jobs. */
  function Trimmed(order: seq<string>, jobs: Jobs, d: nat): seq<string> {
    if order == [] then []
    else if d > 0 && Finished(jobs, order[0]) then Trimmed(order[1..], jobs, d - 1)
    else [order[0]] + Trimmed(order[1..], jobs, d)
  }

  function Done(order: seq<string>, jobs: Jobs): nat {
    if order == [] then 0 else (if Finished(jobs, order[0]) then 1 else 0) + Done(order[1..], jobs)
  }

  function Only(jobs: Jobs, order: seq<string>): Jobs {
    map id | id in jobs && id in order :: jobs[id]
  }

  /** How many jobs have to go: what is over the limit, as far as it is finished. */
  function Surplus(order: seq<string>, jobs: Jobs, keep: nat): nat {
    if |order| <= keep then 0
    else if |order| - keep <= Done(order, jobs) then |order| - keep else Done(order, jobs)
  }

  lemma {:induction false} TrimmedShape(order: seq<string>, jobs: Jobs, d: nat)
    requires d <= Done(order, jobs)
    ensures |Trimmed(order, jobs, d)| == |order| - d
    ensures Done(Trimmed(order, jobs, d), jobs) == Done(order, jobs) - d
    ensures forall id | id in Trimmed(order, jobs, d) :: id in order
    ensures forall id | id in order && !Finished(jobs, id) :: id in Trimmed(order, jobs, d)
    decreases |order|
  {
    if order != [] {
      var r := Trimmed(order[1..], jobs, d);
      assert forall id :: id in order <==> id == order[0] || id in order[1..];
      if d > 0 && Finished(jobs, order[0]) {
        TrimmedShape(order[1..], jobs, d - 1);
      } else {
        DoneBound(order, jobs);
        TrimmedShape(order[1..], jobs, d);
        assert ([order[0]] + r)[1..] == r;
      }
    }
  }

  lemma {:induction false} DoneBound(order: seq<string>, jobs: Jobs)
    ensures Done(order, jobs) <= |order|
    decreases |order|
  {
    if order != [] { DoneBound(order[1..], jobs); }
  }

  lemma {:induction false} TrimmedDistinct(order: seq<string>, jobs: Jobs, d: nat)
    requires Distinct(order)
    ensures Distinct(Trimmed(order, jobs, d))
    ensures forall id | id in Trimmed(order, jobs, d) :: id in order
    decreases |order|
  {
    if order != [] {
      var d' := if d > 0 && Finished(jobs, order[0]) then d - 1 else d;
      var r := Trimmed(order[1..], jobs, d');
      TrimmedDistinct(order[1..], jobs, d');
      forall id | id in r ensures id != order[0] {
        var i :| 0 <= i < |order[1..]| && order[1..][i] == id;
        assert order[i + 1] == id;
      }
      var t := Trimmed(order, jobs, d);
      assert t == r || t == [order[0]] + r;
      forall i, j | 0 <= i < j < |t| ensures t[i] != t[j] {
        if t != r { assert t[j] == r[j - 1] && r[j - 1] in r; }
      }
    }
  }

  /** What stays keeps its relative order. */
  ghost predicate Subsequence(s: seq<string>, r: seq<string>)
    decreases |r|
  {
    s == [] || (r != [] && ((s[0] == r[0] && Subsequence(s[1..], r[1..])) || Subsequence(s, r[1..])))
  }

  lemma {:induction false} TrimmedInOrder(order: seq<string>, jobs: Jobs, d: nat)
    ensures Subsequence(Trimmed(order, jobs, d), order)
    decreases |order|
  {
    if order != [] {
      if d > 0 && Finished(jobs, order[0]) {
        TrimmedInOrder(order[1..], jobs, d - 1);
      } else {
        TrimmedInOrder(order[1..], jobs, d);
        var r := Trimmed(order[1..], jobs, d);
        assert ([order[0]] + r)[1..] == r;
      }
    }
  }

  /** Taking out the first finished job of what is left is trimming by one more. */
  lemma {:induction false} TrimOne(order: seq<string>, jobs: Jobs, d: nat, i: nat)
    requires i < |Trimmed(order, jobs, d)| && Finished(jobs, Trimmed(order, jobs, d)[i])
    requires forall j | 0 <= j < i :: !Finished(jobs, Trimmed(order, jobs, d)[j])
    ensures var r := Trimmed(order, jobs, d);
      r[..i] + r[i + 1..] == Trimmed(order, jobs, d + 1)
    decreases |order|
  {
    var r := Trimmed(order, jobs, d);
    if d > 0 && Finished(jobs, order[0]) {
      TrimOne(order[1..], jobs, d - 1, i);
    } else {
      var q := Trimmed(order[1..], jobs, d);
      assert r == [order[0]] + q;
      if i == 0 {
        assert r[..0] + r[1..] == q;
        assert d == 0;
      } else {
        assert !Finished(jobs, r[0]);
        forall j | 0 <= j < i - 1 ensures !Finished(jobs, q[j]) { assert r[j + 1] == q[j]; }
        TrimOne(order[1..], jobs, d, i - 1);
        assert r[..i] + r[i + 1..] == [order[0]] + (q[..i - 1] + q[i..]);
      }
    }
  }

  lemma {:induction false} NoneDone(order: seq<string>, jobs: Jobs)
    requires forall i | 0 <= i < |order| :: !Finished(jobs, order[i])
    ensures Done(order, jobs) == 0
    decreases |order|
  {
    if order != [] { NoneDone(order[1..], jobs); }
  }

  lemma TrimmedFiled(order: seq<string>, jobs: Jobs, d: nat)
    requires Filed(order, jobs) && d <= Done(order, jobs)
    ensures Filed(Trimmed(order, jobs, d), Only(jobs, Trimmed(order, jobs, d)))
    ensures Unfinished(Only(jobs, Trimmed(order, jobs, d))) == Unfinished(jobs)
    ensures |Trimmed(order, jobs, d)| == |order| - d
  {
    TrimmedShape(order, jobs, d);
    TrimmedDistinct(order, jobs, d);
  }

  /** What a trim comes to: the oldest finished jobs go until the history fits or none is left; nothing else goes, and
      what stays keeps its order. */
  lemma TrimMeans(order: seq<string>, jobs: Jobs, keep: nat)
    requires Filed(order, jobs)
    ensures var r := Trimmed(order, jobs, Surplus(order, jobs, keep));
      && Subsequence(r, order) && Filed(r, Only(jobs, r))
      && Unfinished(Only(jobs, r)) == Unfinished(jobs)
      && (|r| <= keep || forall id | id in r :: !Finished(jobs, id))
      && (|order| <= keep ==> r == order)
  {
    var d := Surplus(order, jobs, keep);
    TrimmedInOrder(order, jobs, d);
    TrimmedFiled(order, jobs, d);
    TrimmedShape(order, jobs, d);
    var r := Trimmed(order, jobs, d);
    if |r| > keep { NoneLeft(r, jobs); }
    if |order| <= keep { TrimmedZero(order, jobs); }
  }

  lemma {:induction false} NoneLeft(order: seq<string>, jobs: Jobs)
    requires Done(order, jobs) == 0
    ensures forall id | id in order :: !Finished(jobs, id)
    decreases |order|
  {
    if order != [] { NoneLeft(order[1..], jobs); }
  }

  lemma {:induction false} TrimmedZero(order: seq<string>, jobs: Jobs)
    ensures Trimmed(order, jobs, 0) == order
    decreases |order|
  {
    if order != [] { TrimmedZero(order[1..], jobs); }
  }

  /** Older finished jobs go first. */
  lemma {:induction false} OldestGo(order: seq<string>, jobs: Jobs, d: nat, i: nat, j: nat)
    requires Distinct(order) && i < j < |order| && Finished(jobs, order[i]) && Finished(jobs, order[j])
    requires order[i] in Trimmed(order, jobs, d)
    ensures order[j] in Trimmed(order, jobs, d)
    decreases |order|
  {
    if d == 0 {
      TrimmedZero(order, jobs);
    } else if Finished(jobs, order[0]) {
      TrimmedDistinct(order[1..], jobs, d - 1);
      assert i > 0 by { assert forall id | id in Trimmed(order, jobs, d) :: id in order[1..]; }
      OldestGo(order[1..], jobs, d - 1, i - 1, j - 1);
    } else {
      assert order[i] in Trimmed(order[1..], jobs, d);
      OldestGo(order[1..], jobs, d, i - 1, j - 1);
    }
  }

  // ---- the manager ----

  datatype Refusal = Closed | Busy | BadPermit | DuplicateId | BadPath

  datatype Submitted = Accepted(job: Job) | Refused(why: Refusal)

  /** A slot reserved before the request body is read. */
  class UploadPermit {
    const manager: Manager

    constructor (m: Manager)
      ensures manager == m
    {
      manager := m;
    }

    /** Give the slot back unless a submission has consumed it; releasing again changes nothing. */
    method Release()
      requires manager.Valid()
      modifies manager`permits, manager`uploading
      ensures manager.Valid() && manager.permits == old(manager.permits) - {this}
    {
      hide Filed, Unfinished;
      if this !in manager.permits { return; }
      DropPermit(manager.permits, this);
      manager.permits := manager.permits - {this};
      if manager.uploading > 0 { manager.uploading := manager.uploading - 1; }
    }
  }

  lemma DropPermit(permits: set<UploadPermit>, p: UploadPermit)
    requires p in permits
    ensures |permits - {p}| == |permits| - 1
  {
  }

  class Manager {
    const max: nat
    const maxKeep: nat
    var running: int
    var uploading: int
    var permits: set<UploadPermit>
    var jobs: Jobs
    var order: seq<string>
    var closing: bool

    /** Every slot taken is a live permit or an unfinished job, and there are never more than `max`. */
    ghost predicate Valid()
      reads this
    {
      && uploading == |permits| && running == |Unfinished(jobs)| && running + uploading <= max
      && Filed(order, jobs) && forall p | p in permits :: p.manager == this
    }

    constructor (limit: nat)
      ensures Valid() && max == limit && maxKeep == 100 && !closing && permits == {} && order == []
    {
      max, maxKeep, running, uploading, permits, jobs, order, closing := limit, 100, 0, 0, {}, map[], [], false;
    }

    method ReserveUpload() returns (permit: UploadPermit?, why: Option<Refusal>)
      requires Valid()
      modifies this`permits, this`uploading
      ensures Valid()
      ensures why == if closing then Some(Closed)
        else if old(running) + old(uploading) >= max then Some(Busy) else None
      ensures why.Some? ==> permit == null && permits == old(permits)
      ensures why.None? ==> permit != null && fresh(permit) && permits == old(permits) + {permit}
    {
      hide Filed, Unfinished;
      if closing { return null, Some(Closed); }
      if running + uploading >= max { return null, Some(Busy); }
      uploading := uploading + 1;
      var p := new UploadPermit(this);
      permits := permits + {p};
      return p, None;
    }

    /** Start a job in a reserved slot, or in a free one; the history is trimmed around it. */
    method Submit(
      format: string, sourceName: string, permit: UploadPermit?, freshId: string, cleanup: bool, renamed: bool)
      returns (r: Submitted)
      requires Valid()
      modifies this`running, this`uploading, this`permits, this`jobs, this`order
      ensures Valid()
      ensures r == SubmitResult(old(closing), permit == null || permit in old(permits), permit != null,
                                old(running) + old(uploading) >= max, freshId in old(jobs), cleanup && !renamed,
                                NewJob(freshId, format, sourceName))
      ensures r.Refused? ==> jobs == old(jobs) && order == old(order) && permits == old(permits)
      ensures r.Accepted? ==> permits == (if permit == null then old(permits) else old(permits) - {permit})
      ensures r.Accepted? ==> r.job.id in jobs && jobs[r.job.id] == r.job
      ensures r.Accepted? ==>
        var all, list := old(jobs)[freshId := r.job], old(order) + [freshId];
        order == Trimmed(list, all, Surplus(list, all, maxKeep)) && jobs == Only(all, order)
    {
      hide Filed, Unfinished, Trimmed, Surplus, Only;
      if closing { return Refused(Closed); }
      if permit != null {
        if permit !in permits { return Refused(BadPermit); }
      } else if running + uploading >= max {
        return Refused(Busy);
      }
      if freshId in jobs { return Refused(DuplicateId); }
      if cleanup && !renamed { return Refused(BadPath); }
      if permit != null {
        DropPermit(permits, permit);
        permits := permits - {permit};
        if uploading > 0 { uploading := uploading - 1; }
      }
      var j := NewJob(freshId, format, sourceName);
      AddJob(order, jobs, j);
      jobs := jobs[freshId := j];
      order := order + [freshId];
      ghost var all := jobs;
      TrimLocked();
      StillThere(all, jobs, order, freshId);
      running := running + 1;
      return Accepted(j);
    }

    /** Drop the oldest finished jobs while the history is too long. */
    method TrimLocked()
      requires Filed(order, jobs)
      modifies this`jobs, this`order
      ensures Filed(order, jobs) && Unfinished(jobs) == Unfinished(old(jobs))
      ensures order == Trimmed(old(order), old(jobs), Surplus(old(order), old(jobs), maxKeep))
      ensures jobs == Only(old(jobs), order)
    {
      hide Filed, Unfinished, Trimmed, Only, Done, Finished;
      ghost var list, all, d := order, jobs, 0;
      TrimStart(list, all);
      while |order| > maxKeep
        invariant d <= Done(list, all) && (d == 0 || |list| - d >= maxKeep)
        invariant order == Trimmed(list, all, d) && jobs == Only(all, order) && |order| == |list| - d
        decreases |order|
      {
        var removeAt := FirstFinished(order, jobs);
        TrimNext(list, all, d, removeAt);
        if removeAt == |order| { break; }
        var oldId := order[removeAt];
        order := order[..removeAt] + order[removeAt + 1..];
        jobs := jobs - {oldId};
        d := d + 1;
      }
      TrimmedFiled(list, all, d);
    }

    method Patch(id: string, f: Job -> Job)
      requires Valid()
      requires id in jobs ==> f(jobs[id]).id == id && (IsDone(f(jobs[id])) <==> IsDone(jobs[id]))
      modifies this`jobs
      ensures Valid() && jobs == if id in old(jobs) then old(jobs)[id := f(old(jobs)[id])] else old(jobs)
    {
      hide Distinct;
      if id in jobs {
        PatchKeeps(order, jobs, f(jobs[id]));
        jobs := jobs[id := f(jobs[id])];
      }
    }

    /** The run of a job ends: its slot is free again and the history is trimmed. Called once per job the count of
        running jobs stays exact; for any other id it stays exact only where nothing is counted. */
    method Complete(id: string, f: Job -> Job, cleanupFailed: bool)
      requires Valid() && (id in jobs ==> f(jobs[id]).id == id && IsDone(f(jobs[id])))
      modifies this`running, this`jobs, this`order
      ensures running == if old(running) > 0 then old(running) - 1 else old(running)
      ensures var all := if id in old(jobs) then old(jobs)[id := WithCleanup(f(old(jobs)[id]), cleanupFailed)] else old(jobs);
        order == Trimmed(old(order), all, Surplus(old(order), all, maxKeep)) && jobs == Only(all, order)
      ensures Valid() <==> id in Unfinished(old(jobs)) || old(running) == 0
    {
      hide Filed, Unfinished, Trimmed, Surplus, Only;
      if id in jobs { EndJob(order, jobs, WithCleanup(f(jobs[id]), cleanupFailed)); } else { NotUnfinished(jobs, id); }
      if running > 0 { running := running - 1; }
      if id in jobs {
        var j := f(jobs[id]);
        if cleanupFailed {
          j := j.(state := Failed, error := "import completed but staged upload cleanup failed");
        }
        jobs := jobs[id := j];
      }
      TrimLocked();
    }
  }

  predicate IsDone(j: Job) {
    j.state.Succeeded? || j.state.Failed?
  }

  /** A finished job, marked failed when its upload could not be removed. */
  function WithCleanup(j: Job, cleanupFailed: bool): Job {
    if cleanupFailed then j.(state := Failed, error := "import completed but staged upload cleanup failed") else j
  }

  /** The index of the first finished job, or the length. */
  method FirstFinished(order: seq<string>, jobs: Jobs) returns (at: nat)
    ensures at <= |order| && (forall i | 0 <= i < at :: !Finished(jobs, order[i]))
    ensures at < |order| ==> Finished(jobs, order[at])
  {
    at := 0;
    while at < |order| && !Finished(jobs, order[at])
      invariant at <= |order| && forall i | 0 <= i < at :: !Finished(jobs, order[i])
    {
      at := at + 1;
    }
  }

  lemma TrimStart(order: seq<string>, jobs: Jobs)
    requires Filed(order, jobs)
    ensures Trimmed(order, jobs, 0) == order && Only(jobs, order) == jobs && Done(order, jobs) >= 0
  {
    TrimmedZero(order, jobs);
  }

  lemma TrimNext(order: seq<string>, jobs: Jobs, d: nat, at: nat)
    requires Filed(order, jobs) && d <= Done(order, jobs)
    requires var r := Trimmed(order, jobs, d);
      at <= |r| && (forall i | 0 <= i < at :: !Finished(Only(jobs, r), r[i])) && (at < |r| ==> Finished(Only(jobs, r), r[at]))
    ensures var r := Trimmed(order, jobs, d);
      if at == |r| then d == Done(order, jobs)
      else
        && d + 1 <= Done(order, jobs) && r[..at] + r[at + 1..] == Trimmed(order, jobs, d + 1)
        && Only(jobs, r) - {r[at]} == Only(jobs, Trimmed(order, jobs, d + 1))
  {
    var r := Trimmed(order, jobs, d);
    TrimmedShape(order, jobs, d);
    forall i | 0 <= i < |r| ensures Finished(jobs, r[i]) <==> Finished(Only(jobs, r), r[i]) {
      assert r[i] in r;
    }
    if at == |r| {
      NoneDone(r, jobs);
    } else {
      TrimOne(order, jobs, d, at);
      SomeDone(r, jobs, at);
      OnlyWithout(order, jobs, d, at);
    }
  }

  lemma OnlyWithout(order: seq<string>, jobs: Jobs, d: nat, at: nat)
    requires Filed(order, jobs) && at < |Trimmed(order, jobs, d)|
    ensures var r := Trimmed(order, jobs, d);
      Only(jobs, r) - {r[at]} == Only(jobs, r[..at] + r[at + 1..])
  {
    var r := Trimmed(order, jobs, d);
    TrimmedDistinct(order, jobs, d);
    var q := r[..at] + r[at + 1..];
    assert r == r[..at] + [r[at]] + r[at + 1..];
    assert forall id :: id in r <==> id in q || id == r[at];
    assert r[at] !in q;
  }

  lemma {:induction false} SomeDone(order: seq<string>, jobs: Jobs, at: nat)
    requires at < |order| && Finished(jobs, order[at])
    ensures Done(order, jobs) > 0
    decreases |order|
  {
    if at > 0 { SomeDone(order[1..], jobs, at - 1); }
  }

  lemma StillThere(all: Jobs, jobs: Jobs, order: seq<string>, id: string)
    requires id in Unfinished(all) && Unfinished(jobs) == Unfinished(all)
    ensures id in jobs && id in all
    ensures jobs == Only(all, order) ==> jobs[id] == all[id]
  {
    assert id in Unfinished(jobs);
  }

  lemma AddJob(order: seq<string>, jobs: Jobs, j: Job)
    requires Filed(order, jobs) && j.id !in jobs && !IsDone(j)
    ensures Filed(order + [j.id], jobs[j.id := j])
    ensures Unfinished(jobs[j.id := j]) == Unfinished(jobs) + {j.id} && j.id !in Unfinished(jobs)
    ensures |Unfinished(jobs[j.id := j])| == |Unfinished(jobs)| + 1
  {
    assert Unfinished(jobs[j.id := j]) == Unfinished(jobs) + {j.id};
  }

  lemma PatchKeeps(order: seq<string>, jobs: Jobs, j: Job)
    requires Filed(order, jobs) && j.id in jobs && (IsDone(j) <==> IsDone(jobs[j.id]))
    ensures Filed(order, jobs[j.id := j]) && Unfinished(jobs[j.id := j]) == Unfinished(jobs)
  {
  }

  lemma EndJob(order: seq<string>, jobs: Jobs, j: Job)
    requires Filed(order, jobs) && j.id in jobs && IsDone(j)
    ensures Filed(order, jobs[j.id := j])
    ensures Unfinished(jobs[j.id := j]) == Unfinished(jobs) - {j.id}
    ensures |Unfinished(jobs[j.id := j])| == |Unfinished(jobs)| - if j.id in Unfinished(jobs) then 1 else 0
  {
    assert Unfinished(jobs[j.id := j]) == Unfinished(jobs) - {j.id};
  }

  lemma NotUnfinished(jobs: Jobs, id: string)
    requires id !in jobs
    ensures id !in Unfinished(jobs)
  {
  }

  function NewJob(id: string, format: string, sourceName: string): Job {
    Job(id, format, sourceName, Queued, 0, 0, 0, 0, "", "", "")
  }

  function SubmitResult(
    closing: bool, permitOk: bool, reserved: bool, full: bool, duplicate: bool, badPath: bool, j: Job): Submitted {
    if closing then Refused(Closed)
    else if !permitOk then Refused(BadPermit)
    else if !reserved && full then Refused(Busy)
    else if duplicate then Refused(DuplicateId)
    else if badPath then Refused(BadPath)
    else Accepted(j)
  }
}
