/** The worker pool: one locked queue for each worker, jobs handed out in turn and stolen at random. */
module WorkerPool {
  import opened Options

  /** A job carries the number of the actor it will work on. */
  datatype Job = Job(actor: nat)

  /** All jobs in all queues. */
  function Jobs(queues: seq<seq<Job>>): multiset<Job> {
    if queues == [] then multiset{} else multiset(queues[0]) + Jobs(queues[1..])
  }

  lemma {:induction false} JobsUpdate(queues: seq<seq<Job>>, q: nat, x: seq<Job>, job: Job)
    requires q < |queues|
    ensures Jobs(queues[q := x])[job] + multiset(queues[q])[job] == Jobs(queues)[job] + multiset(x)[job]
  {
    var changed := queues[q := x];
    if q == 0 {
      assert changed[1..] == queues[1..];
    } else {
      assert changed[1..] == queues[1..][q - 1 := x];
      JobsUpdate(queues[1..], q - 1, x, job);
    }
  }

  lemma AddConserves(queues: seq<seq<Job>>, q: nat, job: Job)
    requires q < |queues|
    ensures Jobs(queues[q := queues[q] + [job]]) == Jobs(queues) + multiset{job}
  {
    var x := queues[q] + [job];
    var now, then_ := Jobs(queues[q := x]), Jobs(queues) + multiset{job};
    forall j: Job ensures now[j] == then_[j] {
      JobsUpdate(queues, q, x, j);
      assert multiset(x)[j] == multiset(queues[q])[j] + multiset{job}[j];
    }
    assert now == then_;
  }

  lemma RemoveConserves(queues: seq<seq<Job>>, q: nat)
    requires q < |queues| && queues[q] != []
    ensures Jobs(queues[q := queues[q][1..]]) + multiset{queues[q][0]} == Jobs(queues)
  {
    var x := queues[q][1..];
    assert queues[q] == [queues[q][0]] + x;
    var now, then_ := Jobs(queues[q := x]) + multiset{queues[q][0]}, Jobs(queues);
    forall j: Job ensures now[j] == then_[j] {
      JobsUpdate(queues, q, x, j);
      assert multiset(queues[q])[j] == multiset(x)[j] + multiset{queues[q][0]}[j];
    }
    assert now == then_;
  }

  class Pool {
    var index: nat
    var queues: seq<seq<Job>>

    constructor (size: nat)
      ensures |queues| == size && index == 0 && forall q :: 0 <= q < size ==> queues[q] == []
    {
      index, queues := 0, seq(size, i => []);
    }

    /** The job goes to the back of the queue next in turn; the counter is 64 bits wide. */
    method AddJob(job: Job)
      requires |queues| > 0 && index < 0x1_0000_0000_0000_0000
      modifies this
      ensures index == (old(index) + 1) % 0x1_0000_0000_0000_0000
      ensures queues == old(queues)[index % |old(queues)| := old(queues)[index % |old(queues)|] + [job]]
      ensures Jobs(queues) == old(Jobs(queues)) + multiset{job}
    {
      index := (index + 1) % 0x1_0000_0000_0000_0000;
      var q := index % |queues|;
      AddConserves(queues, q, job);
      queues := queues[q := queues[q] + [job]];
    }

    // sync_queue::pop on one worker's queue.
    method Pop(q: nat) returns (job: Option<Job>)
      requires q < |queues|
      modifies this`queues
      ensures job.None? <==> old(queues)[q] == []
      ensures job.None? ==> queues == old(queues)
      ensures job.Some? ==> job.value == old(queues)[q][0] && queues == old(queues)[q := old(queues)[q][1..]]
    {
      if queues[q] == [] {
        return None;
      }
      job := Some(queues[q][0]);
      queues := queues[q := queues[q][1..]];
    }

    /**
     Tries as many queues as there are workers, at the places the random numbers name (perhaps the same
     one again).  A steal takes the first job of one of these queues; it fails exactly when all of them are empty.
     */
    method StealJob(random: seq<nat>) returns (job: Option<Job>)
      requires |queues| > 0 && |random| == |queues|
      modifies this`queues
      ensures job.None? <==> forall i :: 0 <= i < |random| ==> old(queues)[random[i] % |old(queues)|] == []
      ensures job.None? ==> queues == old(queues)
      ensures job.Some? ==> exists q :: 0 <= q < |old(queues)| && old(queues)[q] != [] && job.value == old(queues)[q][0]
                                      && queues == old(queues)[q := old(queues)[q][1..]]
      ensures job.Some? ==> Jobs(queues) + multiset{job.value} == old(Jobs(queues))
    {
      for i := 0 to |queues|
        invariant queues == old(queues)
        invariant forall k :: 0 <= k < i ==> queues[random[k] % |queues|] == []
      {
        var q := random[i] % |queues|;
        job := Pop(q);
        if job.Some? {
          RemoveConserves(old(queues), q);
          return;
        }
      }
      job := None;
    }
  }
}
