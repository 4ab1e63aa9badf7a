/** The polling both clients' `wait` loops share: walking the job records of
    one query and taking the completed ones out of the caller's list of ids,
    and repeating polls until the list is empty.  The newer client removes an
    id before yielding its job, the older one yields first and removes
    afterwards. */
module Polling {
  import opened Common
  import opened Values
  import opened Http

  /** The message of the `ValueError` that `list.remove` raises for a missing item. */
  const RemoveMissing: string := "list.remove(x): x not in list"

  predicate IsCompleted(info: JobInfo) { info.status == "completed" }

  /** Every record has status `completed`. */
  predicate AllCompleted(infos: seq<JobInfo>)
  {
    forall k :: 0 <= k < |infos| ==> IsCompleted(infos[k])
  }

  lemma AllCompletedAppend(a: seq<JobInfo>, b: seq<JobInfo>)
    requires AllCompleted(a) && AllCompleted(b)
    ensures AllCompleted(a + b)
  {
  }

  /** The completed records, in order: every completed record is kept, every
      other one dropped. */
  function CompletedOf(infos: seq<JobInfo>): (r: seq<JobInfo>)
    ensures |r| <= |infos|
    ensures AllCompleted(r)
    ensures forall k :: 0 <= k < |infos| && IsCompleted(infos[k]) ==> infos[k] in r
    ensures forall x :: x in r ==> x in infos
    ensures AllCompleted(infos) ==> r == infos
  {
    if |infos| == 0 then []
    else
      var init := infos[..|infos| - 1];
      assert infos == init + [infos[|infos| - 1]];
      assert forall k :: 0 <= k < |infos| - 1 ==> infos[k] == init[k];
      CompletedOf(init) + (if IsCompleted(infos[|infos| - 1]) then [infos[|infos| - 1]] else [])
  }

  lemma CompletedOfAppend(infos: seq<JobInfo>, job: JobInfo)
    ensures CompletedOf(infos + [job]) == CompletedOf(infos) + (if IsCompleted(job) then [job] else [])
  {
    assert (infos + [job])[..|infos|] == infos;
  }

  /** A record without status `completed` is never kept. */
  lemma NotCompletedDropped(infos: seq<JobInfo>, x: JobInfo)
    requires !IsCompleted(x)
    ensures x !in CompletedOf(infos)
  {
  }

  // ---- Removing ids from the caller's list ----

  /** The ids of `removed`, each taken out of `items` in turn by `list.remove`. */
  function RemoveUuids(items: seq<string>, removed: seq<JobInfo>): seq<string>
    decreases |removed|
  {
    if |removed| == 0 then items
    else RemoveFirst(RemoveUuids(items, removed[..|removed| - 1]), removed[|removed| - 1].uuid)
  }

  lemma RemoveUuidsAppend(items: seq<string>, removed: seq<JobInfo>, job: JobInfo)
    ensures RemoveUuids(items, removed + [job]) == RemoveFirst(RemoveUuids(items, removed), job.uuid)
  {
    assert (removed + [job])[..|removed|] == removed;
  }

  /** Removing one batch of ids and then another is removing both in order. */
  lemma {:induction false} RemoveUuidsConcat(items: seq<string>, a: seq<JobInfo>, b: seq<JobInfo>)
    ensures RemoveUuids(RemoveUuids(items, a), b) == RemoveUuids(items, a + b)
    decreases |b|
  {
    if |b| == 0 {
      assert a + b == a;
    } else {
      var init, last := b[..|b| - 1], b[|b| - 1];
      assert b == init + [last];
      assert a + b == (a + init) + [last];
      RemoveUuidsConcat(items, a, init);
      RemoveUuidsAppend(RemoveUuids(items, a), init, last);
      RemoveUuidsAppend(items, a + init, last);
    }
  }

  /** Moving an id from the list to the yielded records keeps their union. */
  lemma MoveToTaken(items: seq<string>, taken: seq<JobInfo>, job: JobInfo, all: multiset<string>)
    requires job.uuid in items
    requires multiset(items) + multiset(UuidsOf(taken)) == all
    ensures multiset(RemoveFirst(items, job.uuid)) + multiset(UuidsOf(taken + [job])) == all
  {
    UuidsOfAppend(taken, [job]);
    assert UuidsOf([job]) == [job.uuid];
    var m, u := multiset(items), multiset{job.uuid};
    assert multiset(UuidsOf(taken + [job])) == multiset(UuidsOf(taken)) + u;
    assert multiset(RemoveFirst(items, job.uuid)) == m - u;
    assert job.uuid in m;
    assert m - u + u == m;
  }

  /** A record yielded without removing its id counts once more than the list. */
  lemma YieldedUnremoved(items: seq<string>, yielded: seq<JobInfo>, job: JobInfo, all: multiset<string>)
    requires multiset(items) + multiset(UuidsOf(yielded)) == all
    ensures multiset(items) + multiset(UuidsOf(yielded + [job])) == all + multiset{job.uuid}
  {
    UuidsOfAppend(yielded, [job]);
    assert UuidsOf([job]) == [job.uuid];
    var mI, mY := multiset(items), multiset(UuidsOf(yielded));
    assert multiset(UuidsOf(yielded + [job])) == mY + multiset{job.uuid};
  }

  /** One poll's removals, added to the earlier ones, still account for every
      id; `extra` is what the poll yielded without removing. */
  lemma AccountStep(before: seq<string>, after: seq<string>, yielded: seq<JobInfo>,
                    taken: seq<JobInfo>, all: multiset<string>, extra: multiset<string>)
    requires multiset(before) + multiset(UuidsOf(yielded)) == all
    requires multiset(after) + multiset(UuidsOf(taken)) == multiset(before) + extra
    ensures multiset(after) + multiset(UuidsOf(yielded + taken)) == all + extra
  {
    UuidsOfAppend(yielded, taken);
    var mA, mY, mT := multiset(after), multiset(UuidsOf(yielded)), multiset(UuidsOf(taken));
    assert multiset(UuidsOf(yielded + taken)) == mY + mT;
    assert mA + (mY + mT) == (mA + mT) + mY;
  }

  // ---- One poll of the newer client: remove, then yield ----

  /** What walking the records does to the list: the records taken, the ids
      left, and whether `list.remove` raised. */
  datatype Taken = Taken(taken: seq<JobInfo>, remaining: seq<string>, missing: bool)

  /** Reference definition of the newer poll body, one record at a time: a
      completed record's id is removed and the record taken; a completed
      record whose id is not in the list stops the walk. */
  function Take(items: seq<string>, infos: seq<JobInfo>): Taken
    decreases |infos|
  {
    if |infos| == 0 then Taken([], items, false)
    else
      var t := Take(items, infos[..|infos| - 1]);
      var job := infos[|infos| - 1];
      if t.missing || !IsCompleted(job) then t
      else if job.uuid !in t.remaining then Taken(t.taken, t.remaining, true)
      else Taken(t.taken + [job], RemoveFirst(t.remaining, job.uuid), false)
  }

  /** Once `list.remove` has raised, later records change nothing. */
  lemma {:induction false} TakeStaysMissing(items: seq<string>, infos: seq<JobInfo>, n: nat)
    requires n <= |infos| && Take(items, infos[..n]).missing
    ensures Take(items, infos) == Take(items, infos[..n])
    decreases |infos|
  {
    if n == |infos| {
      assert infos[..n] == infos;
    } else {
      var init := infos[..|infos| - 1];
      assert init[..n] == infos[..n];
      TakeStaysMissing(items, init, n);
    }
  }

  /** What one newer poll promises: the records taken are the completed ones
      in order, up to the first whose id is missing; their ids leave the list
      one by one as `list.remove` takes them, and nothing else does. */
  lemma {:induction false} TakeFacts(items: seq<string>, infos: seq<JobInfo>)
    ensures AllCompleted(Take(items, infos).taken)
    ensures Take(items, infos).remaining == RemoveUuids(items, Take(items, infos).taken)
    ensures multiset(Take(items, infos).remaining) + multiset(UuidsOf(Take(items, infos).taken)) == multiset(items)
    ensures !Take(items, infos).missing ==> Take(items, infos).taken == CompletedOf(infos)
    ensures Take(items, infos).missing ==>
      exists k :: 0 <= k < |infos| && IsCompleted(infos[k]) && infos[k].uuid !in Take(items, infos).remaining
                  && Take(items, infos).taken == CompletedOf(infos[..k])
    decreases |infos|
  {
    if |infos| > 0 {
      var init, job := infos[..|infos| - 1], infos[|infos| - 1];
      assert infos == init + [job];
      TakeFacts(items, init);
      CompletedOfAppend(init, job);
      var t := Take(items, init);
      if t.missing {
        var k :| 0 <= k < |init| && IsCompleted(init[k]) && init[k].uuid !in t.remaining
                 && t.taken == CompletedOf(init[..k]);
        assert infos[k] == init[k] && infos[..k] == init[..k];
      } else if !IsCompleted(job) {
      } else if job.uuid !in t.remaining {
        assert infos[..|init|] == init;
      } else {
        MoveToTaken(t.remaining, t.taken, job, multiset(items));
        RemoveUuidsAppend(items, t.taken, job);
      }
    }
  }

  /** The body of one poll of the newer `wait`: for each record in order, a
      completed job is removed from `jobs` and then yielded.  `missing` is
      set, and the walk stops, when a completed job's id is no longer in the
      list (`list.remove` raises). */
  method TakeCompleted(jobs: IdList, infos: seq<JobInfo>) returns (taken: seq<JobInfo>, missing: bool)
    modifies jobs
    ensures Take(old(jobs.items), infos) == Taken(taken, jobs.items, missing)
    ensures AllCompleted(taken)
    ensures jobs.items == RemoveUuids(old(jobs.items), taken)
    ensures multiset(jobs.items) + multiset(UuidsOf(taken)) == multiset(old(jobs.items))
    ensures !missing ==> taken == CompletedOf(infos)
    ensures missing ==> exists k :: 0 <= k < |infos| && IsCompleted(infos[k]) && infos[k].uuid !in jobs.items
                                    && taken == CompletedOf(infos[..k])
  {
    var items := jobs.items;
    ghost var start := items;
    taken := [];
    missing := false;
    var i := 0;
    while i < |infos| && !missing
      invariant 0 <= i <= |infos|
      invariant Take(start, infos[..i]) == Taken(taken, items, missing)
    {
      var job := infos[i];
      assert infos[..i + 1][..i] == infos[..i];
      if IsCompleted(job) {
        if job.uuid !in items {
          missing := true;
        } else {
          items := RemoveFirst(items, job.uuid);
          taken := taken + [job];
        }
      }
      i := i + 1;
    }
    if missing {
      TakeStaysMissing(start, infos, i);
    } else {
      assert infos[..i] == infos;
    }
    jobs.items := items;
    TakeFacts(start, infos);
  }

  // ---- One poll of the older client: yield, then remove ----

  /** The records yielded, the ids left, and the id `list.remove` could not
      find, if it raised. */
  datatype Yielded = Yielded(yielded: seq<JobInfo>, remaining: seq<string>, unremoved: Option<string>)

  /** Reference definition of the older poll body, one record at a time: a
      completed record is yielded and then its id removed; when the id is not
      in the list the record has been yielded and the walk stops. */
  function Yield(items: seq<string>, infos: seq<JobInfo>): Yielded
    decreases |infos|
  {
    if |infos| == 0 then Yielded([], items, None)
    else
      var t := Yield(items, infos[..|infos| - 1]);
      var job := infos[|infos| - 1];
      if t.unremoved.Some? || !IsCompleted(job) then t
      else if job.uuid !in t.remaining then Yielded(t.yielded + [job], t.remaining, Some(job.uuid))
      else Yielded(t.yielded + [job], RemoveFirst(t.remaining, job.uuid), None)
  }

  /** Once `list.remove` has raised, later records change nothing. */
  lemma {:induction false} YieldStaysUnremoved(items: seq<string>, infos: seq<JobInfo>, n: nat)
    requires n <= |infos| && Yield(items, infos[..n]).unremoved.Some?
    ensures Yield(items, infos) == Yield(items, infos[..n])
    decreases |infos|
  {
    if n == |infos| {
      assert infos[..n] == infos;
    } else {
      var init := infos[..|infos| - 1];
      assert init[..n] == infos[..n];
      YieldStaysUnremoved(items, init, n);
    }
  }

  /** What one older poll promises about the list: the records yielded are
      all completed; without an exception they are exactly the completed
      ones, and their ids leave the list one by one; with one, the id that
      could not be removed is counted once more than the list. */
  lemma {:induction false} YieldFacts(items: seq<string>, infos: seq<JobInfo>)
    ensures AllCompleted(Yield(items, infos).yielded)
    ensures Yield(items, infos).unremoved.None? ==>
      && Yield(items, infos).yielded == CompletedOf(infos)
      && Yield(items, infos).remaining == RemoveUuids(items, Yield(items, infos).yielded)
      && multiset(Yield(items, infos).remaining) + multiset(UuidsOf(Yield(items, infos).yielded)) == multiset(items)
    ensures Yield(items, infos).unremoved.Some? ==>
      && Yield(items, infos).unremoved.value !in Yield(items, infos).remaining
      && multiset(Yield(items, infos).remaining) + multiset(UuidsOf(Yield(items, infos).yielded))
         == multiset(items) + multiset{Yield(items, infos).unremoved.value}
    decreases |infos|
  {
    if |infos| > 0 {
      var init, job := infos[..|infos| - 1], infos[|infos| - 1];
      assert infos == init + [job];
      YieldFacts(items, init);
      CompletedOfAppend(init, job);
      var t := Yield(items, init);
      if t.unremoved.Some? {
      } else if !IsCompleted(job) {
      } else if job.uuid !in t.remaining {
        YieldedUnremoved(t.remaining, t.yielded, job, multiset(items));
      } else {
        MoveToTaken(t.remaining, t.yielded, job, multiset(items));
        RemoveUuidsAppend(items, t.yielded, job);
      }
    }
  }

  /** An older poll that stopped at record `k`: a completed record whose id
      `list.remove` could not find, yielded after the completed records
      before it, with the ids of those removed. */
  predicate StoppedAt(items: seq<string>, infos: seq<JobInfo>, k: int, y: Yielded)
  {
    && 0 <= k < |infos| && IsCompleted(infos[k]) && y.unremoved == Some(infos[k].uuid)
    && y.yielded == CompletedOf(infos[..k + 1])
    && y.remaining == RemoveUuids(items, CompletedOf(infos[..k]))
  }

  /** Where an older poll stops when `list.remove` raises. */
  lemma {:induction false} YieldStop(items: seq<string>, infos: seq<JobInfo>)
    ensures Yield(items, infos).unremoved.Some? ==> exists k :: StoppedAt(items, infos, k, Yield(items, infos))
    decreases |infos|
  {
    if |infos| > 0 {
      var init, job := infos[..|infos| - 1], infos[|infos| - 1];
      assert infos == init + [job];
      var t := Yield(items, init);
      if t.unremoved.Some? {
        YieldStop(items, init);
        var k :| StoppedAt(items, init, k, t);
        StoppedEarlier(items, init, job, k);
      } else if IsCompleted(job) && job.uuid !in t.remaining {
        StoppedHere(items, init, job);
      }
    }
  }

  /** A stop in a prefix of the records stays where it was. */
  lemma StoppedEarlier(items: seq<string>, init: seq<JobInfo>, job: JobInfo, k: int)
    requires StoppedAt(items, init, k, Yield(items, init))
    ensures StoppedAt(items, init + [job], k, Yield(items, init + [job]))
  {
    var infos := init + [job];
    assert infos[..|infos| - 1] == init;
    PrefixOfAppend(init, [job], k);
    PrefixOfAppend(init, [job], k + 1);
  }

  /** A completed record whose id is no longer listed stops the walk at its place. */
  lemma StoppedHere(items: seq<string>, init: seq<JobInfo>, job: JobInfo)
    requires Yield(items, init).unremoved.None?
    requires IsCompleted(job) && job.uuid !in Yield(items, init).remaining
    ensures StoppedAt(items, init + [job], |init|, Yield(items, init + [job]))
  {
    var infos := init + [job];
    assert infos[..|infos| - 1] == init;
    YieldFacts(items, init);
    CompletedOfAppend(init, job);
    assert infos[..|init|] == init && infos[..|init| + 1] == infos;
  }


  /** The older client's poll body: a completed job is yielded first and its
      id removed afterwards, so when the id is missing (`list.remove` raises)
      the job has already been yielded; `unremoved` is that id. */
  method YieldCompleted(jobs: IdList, infos: seq<JobInfo>) returns (yielded: seq<JobInfo>, unremoved: Option<string>)
    modifies jobs
    ensures Yield(old(jobs.items), infos) == Yielded(yielded, jobs.items, unremoved)
    ensures AllCompleted(yielded)
    ensures unremoved.None? ==> yielded == CompletedOf(infos) && jobs.items == RemoveUuids(old(jobs.items), yielded)
    ensures unremoved.Some? ==> exists k :: StoppedAt(old(jobs.items), infos, k, Yielded(yielded, jobs.items, unremoved))
    ensures unremoved.Some? ==> unremoved.value !in jobs.items
  {
    var items := jobs.items;
    ghost var start := items;
    yielded := [];
    unremoved := None;
    var i := 0;
    while i < |infos| && unremoved.None?
      invariant 0 <= i <= |infos|
      invariant Yield(start, infos[..i]) == Yielded(yielded, items, unremoved)
    {
      var job := infos[i];
      assert infos[..i + 1][..i] == infos[..i];
      if IsCompleted(job) {
        // The job is yielded whether or not its id can then be removed.
        yielded := yielded + [job];
        if job.uuid !in items {
          unremoved := Some(job.uuid);
        } else {
          items := RemoveFirst(items, job.uuid);
        }
      }
      i := i + 1;
    }
    if unremoved.Some? {
      YieldStaysUnremoved(start, infos, i);
    } else {
      assert infos[..i] == infos;
    }
    jobs.items := items;
    YieldFacts(start, infos);
    YieldStop(start, infos);
  }
}
