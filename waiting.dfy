/** The wait loop both clients share: polls repeated until the caller's list
    of ids is empty, an exception ends the run, or the polls allowed run out;
    and what a whole run keeps when every poll keeps it. */
module Waiting {
  import opened Common
  import opened Values
  import opened Http
  import opened Polling

  /** One poll as seen from the outside: the records yielded, the ids left,
      the exception that ends `wait` if any, the id yielded but not removed
      if any, and the requests sent. */
  datatype PollStep = PollStep(taken: seq<JobInfo>, remaining: seq<string>, crash: Option<Error>,
                               unremoved: Option<string>, sent: seq<Request>)

  /** One poll of the ids `items` when `start` requests have been sent before. */
  function Step(poll: (nat, seq<string>) -> PollStep, start: nat, items: seq<string>): PollStep
  {
    poll(start, items)
  }

  /** How `wait` ends: every id removed, an exception it does not catch, or
      (in this model only) the bound on polls reached. */
  datatype WaitOutcome = Done | Crashed(error: Error) | PollsExhausted

  /** A run of `wait`: what it yielded, the ids left, how it ended, the id
      yielded but not removed by the last poll, the requests sent and the
      number of polls made. */
  datatype WaitRun = WaitRun(yielded: seq<JobInfo>, remaining: seq<string>, outcome: WaitOutcome,
                             unremoved: Option<string>, sent: seq<Request>, polls: nat)

  /** Polls made before a run: their records and requests come first. */
  function After(yielded: seq<JobInfo>, sent: seq<Request>, polls: nat, w: WaitRun): WaitRun
  {
    WaitRun(yielded + w.yielded, w.remaining, w.outcome, w.unremoved, sent + w.sent, polls + w.polls)
  }

  /** Reference definition of `wait`.  After a poll,
      an exception ends the run, an empty list ends it normally, and otherwise
      the next poll follows with the requests counted on.  At most `fuel`
      polls are made. */
  function WaitOf(poll: (nat, seq<string>) -> PollStep, start: nat, items: seq<string>, fuel: nat): WaitRun
    decreases fuel
  {
    if fuel == 0 then WaitRun([], items, PollsExhausted, None, [], 0)
    else
      var p := Step(poll, start, items);
      if p.crash.Some? then WaitRun(p.taken, p.remaining, Crashed(p.crash.value), p.unremoved, p.sent, 1)
      else if |p.remaining| == 0 then WaitRun(p.taken, [], Done, None, p.sent, 1)
      else After(p.taken, p.sent, 1, WaitOf(poll, start + |p.sent|, p.remaining, fuel - 1))
  }

  /** Two polls that agree on every list and request count. */
  ghost predicate SamePolls(poll: (nat, seq<string>) -> PollStep, other: (nat, seq<string>) -> PollStep)
  {
    forall start: nat, items: seq<string> {:trigger Polled(start, items)} :: Polled(start, items) ==>
      Step(poll, start, items) == Step(other, start, items)
  }

  /** Two polls that agree give the same step at any one point. */
  lemma SameAt(poll: (nat, seq<string>) -> PollStep, other: (nat, seq<string>) -> PollStep,
               start: nat, items: seq<string>)
    requires SamePolls(poll, other)
    ensures Step(poll, start, items) == Step(other, start, items)
  {
    assert Polled(start, items);
  }

  /** A run depends only on what its polls do. */
  lemma {:induction false} WaitOfSame(poll: (nat, seq<string>) -> PollStep, other: (nat, seq<string>) -> PollStep,
                                      start: nat, items: seq<string>, fuel: nat)
    requires SamePolls(poll, other)
    ensures WaitOf(poll, start, items, fuel) == WaitOf(other, start, items, fuel)
    decreases fuel
  {
    if fuel > 0 {
      var p := Step(poll, start, items);
      assert Polled(start, items);
      if p.crash.None? && |p.remaining| > 0 {
        WaitOfSame(poll, other, start + |p.sent|, p.remaining, fuel - 1);
      }
    }
  }

  /** Polls made before polls made before a run. */
  lemma AfterAfter(yielded: seq<JobInfo>, sent: seq<Request>, polls: nat,
                   yielded2: seq<JobInfo>, sent2: seq<Request>, polls2: nat, w: WaitRun)
    ensures After(yielded, sent, polls, After(yielded2, sent2, polls2, w))
            == After(yielded + yielded2, sent + sent2, polls + polls2, w)
  {
    assert yielded + (yielded2 + w.yielded) == (yielded + yielded2) + w.yielded;
    assert sent + (sent2 + w.sent) == (sent + sent2) + w.sent;
  }

  /** What the first poll of a run decides: an exception ends the run, an
      empty list ends it normally, and otherwise the rest of the run follows. */
  lemma WaitStep(poll: (nat, seq<string>) -> PollStep, start: nat, items: seq<string>, fuel: nat)
    requires fuel > 0
    ensures var p := Step(poll, start, items);
      && (p.crash.Some? ==>
            WaitOf(poll, start, items, fuel) == WaitRun(p.taken, p.remaining, Crashed(p.crash.value), p.unremoved, p.sent, 1))
      && (p.crash.None? && p.remaining == [] ==>
            WaitOf(poll, start, items, fuel) == WaitRun(p.taken, [], Done, None, p.sent, 1))
      && (p.crash.None? && p.remaining != [] ==>
            WaitOf(poll, start, items, fuel) == After(p.taken, p.sent, 1, WaitOf(poll, start + |p.sent|, p.remaining, fuel - 1)))
  {
  }

  /** One more poll of a run already under way: `n` polls have yielded
      `yielded` and sent `sent`, and the next is made at `at` requests with the
      ids `before` still waiting. */
  lemma StepOn(poll: (nat, seq<string>) -> PollStep, fuel: nat, whole: WaitRun,
               yielded: seq<JobInfo>, sent: seq<Request>, n: nat, at: nat, before: seq<string>)
    requires n < fuel
    requires whole == After(yielded, sent, n, WaitOf(poll, at, before, fuel - n))
    ensures var p := Step(poll, at, before);
      && (p.crash.Some? ==>
            whole == WaitRun(yielded + p.taken, p.remaining, Crashed(p.crash.value), p.unremoved, sent + p.sent, n + 1))
      && (p.crash.None? && p.remaining == [] ==>
            whole == WaitRun(yielded + p.taken, [], Done, None, sent + p.sent, n + 1))
      && (p.crash.None? && p.remaining != [] ==>
            whole == After(yielded + p.taken, sent + p.sent, n + 1, WaitOf(poll, at + |p.sent|, p.remaining, fuel - n - 1)))
  {
    var p := Step(poll, at, before);
    WaitStep(poll, at, before, fuel - n);
    if p.crash.None? && p.remaining != [] {
      AfterAfter(yielded, sent, n, p.taken, p.sent, 1, WaitOf(poll, at + |p.sent|, p.remaining, fuel - n - 1));
    }
  }

  /** The shape of every run: it ends normally only with an empty list, runs
      out of polls only after exactly `fuel` of them with ids still waiting,
      and makes at least one poll unless `fuel` is 0. */
  lemma {:induction false} WaitShape(poll: (nat, seq<string>) -> PollStep, start: nat, items: seq<string>, fuel: nat)
    ensures WaitOf(poll, start, items, fuel).polls <= fuel
    ensures fuel > 0 ==> WaitOf(poll, start, items, fuel).polls >= 1
    ensures WaitOf(poll, start, items, fuel).outcome == Done ==> WaitOf(poll, start, items, fuel).remaining == []
    ensures WaitOf(poll, start, items, fuel).outcome == PollsExhausted ==>
      && WaitOf(poll, start, items, fuel).polls == fuel
      && (fuel == 0 ==> WaitOf(poll, start, items, fuel).remaining == items)
      && (fuel > 0 ==> WaitOf(poll, start, items, fuel).remaining != [])
    decreases fuel
  {
    if fuel > 0 {
      var p := Step(poll, start, items);
      if p.crash.None? && |p.remaining| > 0 {
        WaitShape(poll, start + |p.sent|, p.remaining, fuel - 1);
      }
    }
  }
  /** The ids a poll yielded without removing: the one `list.remove` could
      not find, if any. */
  function Extra(unremoved: Option<string>): multiset<string>
  {
    if unremoved.Some? then multiset{unremoved.value} else multiset{}
  }

  /** Marks the poll of `items` after `start` requests, so that a hypothesis
      about every poll is applied only to the polls a proof names. */
  predicate Polled(start: nat, items: seq<string>) { true }

  /** Every poll takes only completed records. */
  ghost predicate PollsComplete(poll: (nat, seq<string>) -> PollStep)
  {
    forall start: nat, items: seq<string> {:trigger Polled(start, items)} :: Polled(start, items) ==> AllCompleted(Step(poll, start, items).taken)
  }

  /** Every poll accounts for every id: still waiting, or taken, less the one
      it yielded without removing. */
  ghost predicate PollsCount(poll: (nat, seq<string>) -> PollStep)
  {
    forall start: nat, items: seq<string> {:trigger Polled(start, items)} :: Polled(start, items) ==>
      && multiset(Step(poll, start, items).remaining) + multiset(UuidsOf(Step(poll, start, items).taken))
         == multiset(items) + Extra(Step(poll, start, items).unremoved)
      && (Step(poll, start, items).unremoved.Some? ==> Step(poll, start, items).crash.Some?)
  }

  /** Every poll removes the ids of the records it took, in order, and
      nothing else, unless it left one unremoved. */
  ghost predicate PollsInOrder(poll: (nat, seq<string>) -> PollStep)
  {
    forall start: nat, items: seq<string> {:trigger Polled(start, items)} :: Polled(start, items) ==>
      Step(poll, start, items).unremoved.None? ==>
        Step(poll, start, items).remaining == RemoveUuids(items, Step(poll, start, items).taken)
  }

  /** An id a poll left unremoved is not waiting any more, and `list.remove`'s
      error ends `wait`. */
  ghost predicate PollsStop(poll: (nat, seq<string>) -> PollStep)
  {
    forall start: nat, items: seq<string> {:trigger Polled(start, items)} :: Polled(start, items) ==>
      Step(poll, start, items).unremoved.Some? ==>
        && Step(poll, start, items).unremoved.value !in Step(poll, start, items).remaining
        && Step(poll, start, items).crash == Some(ValueError(RemoveMissing))
  }

  /** Every poll ends `wait` only with `empty` (exactly for an empty list) or
      a `ValueError`. */
  ghost predicate PollsCrashWith(poll: (nat, seq<string>) -> PollStep, empty: Error)
  {
    forall start: nat, items: seq<string> {:trigger Polled(start, items)} :: Polled(start, items) ==>
      && (Step(poll, start, items).crash.Some? ==> Step(poll, start, items).crash.value == empty || Step(poll, start, items).crash.value.ValueError?)
      && (Step(poll, start, items).crash == Some(empty) <==> items == [])
  }

  /** A whole run yields only completed jobs when every poll takes only those. */
  lemma {:induction false} WaitComplete(poll: (nat, seq<string>) -> PollStep, start: nat, items: seq<string>, fuel: nat)
    requires PollsComplete(poll)
    ensures AllCompleted(WaitOf(poll, start, items, fuel).yielded)
    decreases fuel
  {
    if fuel > 0 {
      var p := Step(poll, start, items);
      assert Polled(start, items);
      if p.crash.None? && |p.remaining| > 0 {
        var w := WaitOf(poll, start + |p.sent|, p.remaining, fuel - 1);
        WaitComplete(poll, start + |p.sent|, p.remaining, fuel - 1);
        AllCompletedAppend(p.taken, w.yielded);
      }
    }
  }

  /** A whole run accounts for every starting id when every poll does: each is
      still waiting or was yielded, less the one left unremoved. */
  lemma {:induction false} WaitCounts(poll: (nat, seq<string>) -> PollStep, start: nat, items: seq<string>, fuel: nat)
    requires PollsCount(poll)
    ensures Counted(items, WaitOf(poll, start, items, fuel))
    decreases fuel
  {
    if fuel > 0 {
      var p := Step(poll, start, items);
      WaitCounts(poll, start + |p.sent|, p.remaining, fuel - 1);
    }
    CountedStep(poll, start, items, fuel);
  }

  /** A run keeps the count when its first poll does and the rest of the run
      does. */
  lemma CountedStep(poll: (nat, seq<string>) -> PollStep, start: nat, items: seq<string>, fuel: nat)
    requires PollsCount(poll)
    requires fuel > 0 ==> var p := Step(poll, start, items);
      Counted(p.remaining, WaitOf(poll, start + |p.sent|, p.remaining, fuel - 1))
    ensures Counted(items, WaitOf(poll, start, items, fuel))
  {
    var here := WaitOf(poll, start, items, fuel);
    if fuel == 0 {
      assert here == WaitRun([], items, PollsExhausted, None, [], 0);
      assert UuidsOf([]) == [];
    } else {
      var p := Step(poll, start, items);
      assert Polled(start, items);
      if p.crash.Some? {
        assert here == WaitRun(p.taken, p.remaining, Crashed(p.crash.value), p.unremoved, p.sent, 1);
      } else if |p.remaining| == 0 {
        assert here == WaitRun(p.taken, [], Done, None, p.sent, 1);
        assert p.remaining == [];
      } else {
        var w := WaitOf(poll, start + |p.sent|, p.remaining, fuel - 1);
        assert here == After(p.taken, p.sent, 1, w);
        CountedAfter(items, p, w);
      }
    }
  }

  /** Every id of `items` is still waiting at the end of run `w` or was
      yielded by it, less the one it left unremoved. */
  predicate Counted(items: seq<string>, w: WaitRun)
  {
    multiset(w.remaining) + multiset(UuidsOf(w.yielded)) == multiset(items) + Extra(w.unremoved)
  }

  lemma CountedAfter(items: seq<string>, p: PollStep, w: WaitRun)
    requires multiset(p.remaining) + multiset(UuidsOf(p.taken)) == multiset(items)
    requires Counted(p.remaining, w)
    ensures Counted(items, After(p.taken, p.sent, 1, w))
  {
    AccountStep(p.remaining, w.remaining, p.taken, w.yielded, multiset(items), Extra(w.unremoved));
  }

  /** A whole run removes the ids in the order their jobs were yielded when
      every poll does. */
  lemma {:induction false} WaitInOrder(poll: (nat, seq<string>) -> PollStep, start: nat, items: seq<string>, fuel: nat)
    requires PollsInOrder(poll) && PollsStop(poll)
    ensures InOrder(items, WaitOf(poll, start, items, fuel))
    decreases fuel
  {
    if fuel > 0 {
      var p := Step(poll, start, items);
      if p.crash.None? && |p.remaining| > 0 {
        WaitInOrder(poll, start + |p.sent|, p.remaining, fuel - 1);
      }
      InOrderPoll(poll, start, items, fuel);
    }
  }

  /** Unless run `w` left an id unremoved, it removed from `items` exactly the
      ids of the jobs it yielded, in order. */
  predicate InOrder(items: seq<string>, w: WaitRun)
  {
    w.unremoved.None? ==> w.remaining == RemoveUuids(items, w.yielded)
  }

  /** The first poll of a run keeps the order when the rest of the run does. */
  lemma {:induction false} InOrderPoll(poll: (nat, seq<string>) -> PollStep, start: nat, items: seq<string>, fuel: nat)
    requires PollsInOrder(poll) && PollsStop(poll) && fuel > 0
    requires var p := Step(poll, start, items);
      p.crash.None? && |p.remaining| > 0 ==> InOrder(p.remaining, WaitOf(poll, start + |p.sent|, p.remaining, fuel - 1))
    ensures InOrder(items, WaitOf(poll, start, items, fuel))
  {
    var p := Step(poll, start, items);
    assert Polled(start, items);
    var here := WaitOf(poll, start, items, fuel);
    if p.crash.Some? {
      assert here == WaitRun(p.taken, p.remaining, Crashed(p.crash.value), p.unremoved, p.sent, 1);
    } else if |p.remaining| == 0 {
      assert here == WaitRun(p.taken, [], Done, None, p.sent, 1);
    } else {
      var w := WaitOf(poll, start + |p.sent|, p.remaining, fuel - 1);
      assert here == After(p.taken, p.sent, 1, w);
      RemoveUuidsConcat(items, p.taken, w.yielded);
    }
  }

  /** An id left unremoved is the last thing that happens in a run: it is not
      waiting any more and `list.remove`'s error ends the run. */
  lemma {:induction false} WaitStop(poll: (nat, seq<string>) -> PollStep, start: nat, items: seq<string>, fuel: nat)
    requires PollsStop(poll)
    ensures var w := WaitOf(poll, start, items, fuel);
      w.unremoved.Some? ==> w.unremoved.value !in w.remaining && w.outcome == Crashed(ValueError(RemoveMissing))
    decreases fuel
  {
    if fuel > 0 {
      var p := Step(poll, start, items);
      assert Polled(start, items);
      if p.crash.None? && |p.remaining| > 0 {
        WaitStop(poll, start + |p.sent|, p.remaining, fuel - 1);
      }
    }
  }

  /** `list.remove`'s error ends a poll only after it yielded a job whose id
      it could not remove. */
  ghost predicate PollsStopOnlyUnremoved(poll: (nat, seq<string>) -> PollStep)
  {
    forall start: nat, items: seq<string> {:trigger Polled(start, items)} :: Polled(start, items) ==>
      Step(poll, start, items).crash == Some(ValueError(RemoveMissing)) ==> Step(poll, start, items).unremoved.Some?
  }

  /** A run whose polls end with `list.remove`'s error only after yielding a
      job they cannot remove ends that way only with an id unremoved. */
  lemma {:induction false} WaitStopsOnlyUnremoved(poll: (nat, seq<string>) -> PollStep, start: nat, items: seq<string>, fuel: nat)
    requires PollsStopOnlyUnremoved(poll)
    ensures WaitOf(poll, start, items, fuel).outcome == Crashed(ValueError(RemoveMissing)) ==>
      WaitOf(poll, start, items, fuel).unremoved.Some?
    decreases fuel
  {
    if fuel > 0 {
      var p := Step(poll, start, items);
      assert Polled(start, items);
      if p.crash.None? && |p.remaining| > 0 {
        WaitStopsOnlyUnremoved(poll, start + |p.sent|, p.remaining, fuel - 1);
      }
    }
  }

  /** Every poll removes every id it yields. */
  ghost predicate PollsRemoveAll(poll: (nat, seq<string>) -> PollStep)
  {
    forall start: nat, items: seq<string> {:trigger Polled(start, items)} :: Polled(start, items) ==>
      Step(poll, start, items).unremoved.None?
  }

  /** A run whose polls remove every id they yield leaves none unremoved. */
  lemma {:induction false} WaitRemovesAll(poll: (nat, seq<string>) -> PollStep, start: nat, items: seq<string>, fuel: nat)
    requires PollsRemoveAll(poll)
    ensures WaitOf(poll, start, items, fuel).unremoved.None?
    decreases fuel
  {
    if fuel > 0 {
      var p := Step(poll, start, items);
      assert Polled(start, items);
      if p.crash.None? && |p.remaining| > 0 {
        WaitRemovesAll(poll, start + |p.sent|, p.remaining, fuel - 1);
      }
    }
  }

  /** How a whole run can end early, when every poll ends `wait` only with
      `empty` or a `ValueError`: the same holds of the run, and `empty` ends
      it exactly when the starting list is empty. */
  lemma {:induction false} WaitCrashes(poll: (nat, seq<string>) -> PollStep, empty: Error, start: nat,
                                       items: seq<string>, fuel: nat)
    requires PollsCrashWith(poll, empty)
    ensures WaitOf(poll, start, items, fuel).outcome.Crashed? ==>
      WaitOf(poll, start, items, fuel).outcome.error == empty || WaitOf(poll, start, items, fuel).outcome.error.ValueError?
    ensures WaitOf(poll, start, items, fuel).outcome == Crashed(empty) <==> items == [] && fuel > 0
    decreases fuel
  {
    if fuel > 0 {
      var p := Step(poll, start, items);
      assert Polled(start, items);
      if p.crash.None? && |p.remaining| > 0 {
        WaitCrashes(poll, empty, start + |p.sent|, p.remaining, fuel - 1);
      }
    }
  }
}
