/** `AsyncEvent`: completion, registered callbacks and waiters. Every load, store, lock operation,
    callback and notification is a step, the steps of all threads interleave freely. */
module AsyncEvents {
  import opened Sums

  datatype Status = Pending | Running | Suspended | Completed | Cancelled | Failed

  predicate IsTerminal(s: Status)
  {
    s == Completed || s == Cancelled || s == Failed
  }

  /** The final states are those that are neither before the start nor under way. */
  lemma TerminalIff(s: Status)
    ensures IsTerminal(s) <==> !(s == Pending || s == Running || s == Suspended)
  {
  }

  const SLOTS: nat := 8

  datatype Job = Complete(final: Status) | Wait | Register

  datatype Pc =
    // complete
    | Start
    | Store
    | Acquire
    | Take
    | Leave(cbs: seq<nat>)
    | Fire(cbs: seq<nat>)
    | Notify
    // wait
    | WaitAcquire
    | WaitTest
    | WaitGoing
    | Asleep
    | WaitLeave
    // on_complete
    | CallAcquire
    | CallTest
    | CallPush
    | CallLeaveRun
    | CallRun
    | CallLeave
    //
    | Finish

  /** Where the callback of a registration is. */
  datatype Where = Away | Listed | Taken(owner: nat) | Fired | Dropped

  /** `lock` is the thread that holds the mutex, -1 if none; callbacks are named by the thread that
      registers them; `fired` counts their calls. */
  datatype State = State(status: Status, lock: int, callbacks: seq<nat>, pcs: seq<Pc>, fired: seq<nat>,
      where: seq<Where>)

  predicate Holding(pc: Pc)
  {
    pc.Take? || pc.Leave? || pc.WaitTest? || pc.WaitGoing? || pc.WaitLeave? || pc.CallTest? || pc.CallPush?
        || pc.CallLeaveRun? || pc.CallLeave?
  }

  function Go(s: State, i: nat, pc: Pc): State
    requires i < |s.pcs|
  {
    s.(pcs := s.pcs[i := pc])
  }

  /** Takes the mutex if it is free; otherwise the thread stays where it is. */
  function Lock(s: State, i: nat, pc: Pc): State
    requires i < |s.pcs|
  {
    if s.lock == -1 then Go(s, i, pc).(lock := i) else s
  }

  function Unlock(s: State, i: nat, pc: Pc): State
    requires i < |s.pcs|
  {
    Go(s, i, pc).(lock := -1)
  }

  /** The new places of the callbacks a completion takes along. */
  function TakeAll(where: seq<Where>, cbs: seq<nat>, i: nat): (w: seq<Where>)
    ensures |w| == |where|
  {
    seq(|where|, r requires 0 <= r < |where| => if r in cbs then Taken(i) else where[r])
  }

  /** `notify_all`. */
  function WakeAll(pcs: seq<Pc>): (w: seq<Pc>)
    ensures |w| == |pcs|
  {
    seq(|pcs|, j requires 0 <= j < |pcs| => if pcs[j].Asleep? then WaitAcquire else pcs[j])
  }

  function Call(s: State, r: nat): State
    requires r < |s.fired| && r < |s.where|
  {
    s.(fired := s.fired[r := s.fired[r] + 1], where := s.where[r := Fired])
  }

  predicate Sized(jobs: seq<Job>, s: State)
  {
    |s.pcs| == |s.fired| == |s.where| == |jobs|
  }

  /** One step of thread `i`. */
  function Step(jobs: seq<Job>, s: State, i: nat): State
    requires Sized(jobs, s) && i < |jobs|
  {
    match s.pcs[i]
    case Start =>
      if IsTerminal(s.status) then Go(s, i, if jobs[i].Register? then CallRun else Finish)
      else Go(s, i, match jobs[i] case Complete(_) => Store case Wait => WaitAcquire case Register => CallAcquire)
    case Store => Go(s, i, Acquire).(status := if jobs[i].Complete? then jobs[i].final else s.status)
    case Acquire => Lock(s, i, Take)
    case Take => Go(s, i, Leave(s.callbacks)).(callbacks := [], where := TakeAll(s.where, s.callbacks, i))
    case Leave(cbs) => Unlock(s, i, Fire(cbs))
    case Fire(cbs) =>
      if cbs == [] then Go(s, i, Notify)
      else if cbs[0] < |jobs| then Call(Go(s, i, Fire(cbs[1..])), cbs[0]) else s
    case Notify => Go(s.(pcs := WakeAll(s.pcs)), i, Finish)
    case WaitAcquire => Lock(s, i, WaitTest)
    case WaitTest => Go(s, i, if IsTerminal(s.status) then WaitLeave else WaitGoing)
    case WaitGoing => Unlock(s, i, Asleep)
    case Asleep => Go(s, i, WaitAcquire)
    case WaitLeave => Unlock(s, i, Finish)
    case CallAcquire => Lock(s, i, CallTest)
    case CallTest => Go(s, i, if IsTerminal(s.status) then CallLeaveRun else CallPush)
    case CallPush =>
      if |s.callbacks| < SLOTS then Go(s, i, CallLeave).(callbacks := s.callbacks + [i], where := s.where[i := Listed])
      else Go(s, i, CallLeave).(where := s.where[i := Dropped])
    case CallLeaveRun => Unlock(s, i, CallRun)
    case CallRun => Call(Go(s, i, Finish), i)
    case CallLeave => Unlock(s, i, Finish)
    case Finish => s
  }

  // What holds throughout.

  /** A completion that has stored its status and has not notified yet. */
  predicate Announcing(pc: Pc)
  {
    pc.Acquire? || pc.Take? || pc.Leave? || pc.Fire? || pc.Notify?
  }

  ghost predicate SomeAcquire(s: State)
  {
    exists j :: 0 <= j < |s.pcs| && s.pcs[j].Acquire?
  }

  ghost predicate SomeCollects(s: State)
  {
    exists j :: 0 <= j < |s.pcs| && (s.pcs[j].Acquire? || s.pcs[j].Take?)
  }

  ghost predicate SomeAnnounces(s: State)
  {
    exists j :: 0 <= j < |s.pcs| && Announcing(s.pcs[j])
  }

  /** The program counters a job can have. */
  predicate Fitting(job: Job, pc: Pc)
  {
    pc.Start? || pc.Finish? ||
    match job
    case Complete(final) => pc.Store? || Announcing(pc)
    case Wait => pc.WaitAcquire? || pc.WaitTest? || pc.WaitGoing? || pc.Asleep? || pc.WaitLeave?
    case Register => pc.CallAcquire? || pc.CallTest? || pc.CallPush? || pc.CallLeaveRun? || pc.CallRun? || pc.CallLeave?
  }

  /** The callbacks a completion still has to fire. */
  function Held(pc: Pc): seq<nat>
  {
    if pc.Leave? || pc.Fire? then pc.cbs else []
  }

  ghost predicate Distinct(a: seq<nat>)
  {
    forall k, l :: 0 <= k < l < |a| ==> a[k] != a[l]
  }

  ghost predicate ThreadOk(jobs: seq<Job>, s: State, i: nat)
    requires Sized(jobs, s) && i < |jobs|
  {
    PcOk(jobs, s, i) && AwaitOk(jobs, s, i) && HeldOk(jobs, s, i)
  }

  ghost predicate PcOk(jobs: seq<Job>, s: State, i: nat)
    requires Sized(jobs, s) && i < |jobs|
  {
    (Holding(s.pcs[i]) <==> s.lock == i) && PcFits(jobs, s, i)
  }

  ghost predicate PcFits(jobs: seq<Job>, s: State, i: nat)
    requires Sized(jobs, s) && i < |jobs|
  {
    && Fitting(jobs[i], s.pcs[i])
    && (Announcing(s.pcs[i]) || (!jobs[i].Register? && s.pcs[i].Finish?) || s.pcs[i].WaitLeave? || s.pcs[i].CallRun?
        || s.pcs[i].CallLeaveRun? ==>
          IsTerminal(s.status))
  }

  /** Once the status is terminal, whoever tested it before is still going to be noticed. */
  ghost predicate AwaitOk(jobs: seq<Job>, s: State, i: nat)
    requires Sized(jobs, s) && i < |jobs|
  {
    && (IsTerminal(s.status) && (s.pcs[i].WaitGoing? || s.pcs[i].CallPush?) ==> SomeAcquire(s))
    && (IsTerminal(s.status) && s.pcs[i].Asleep? ==> SomeAnnounces(s))
  }

  ghost predicate HeldOk(jobs: seq<Job>, s: State, i: nat)
    requires Sized(jobs, s) && i < |jobs|
  {
    && Distinct(Held(s.pcs[i]))
    && forall k :: 0 <= k < |Held(s.pcs[i])| ==> Held(s.pcs[i])[k] < |jobs| && s.where[Held(s.pcs[i])[k]] == Taken(i)
  }

  ghost predicate CallOk(jobs: seq<Job>, s: State, r: nat)
    requires Sized(jobs, s) && r < |jobs|
  {
    && s.fired[r] == (if s.where[r].Fired? then 1 else 0)
    && (s.where[r] == Listed <==> r in s.callbacks)
    && (s.where[r].Taken? ==> s.where[r].owner < |jobs| && r in Held(s.pcs[s.where[r].owner]))
    && (s.where[r].Fired? ==> IsTerminal(s.status))
    && (jobs[r].Register? ==>
          (s.where[r].Away? <==> !s.pcs[r].CallLeave? && !s.pcs[r].Finish?))
    && (!jobs[r].Register? ==> s.where[r].Away?)
  }

  ghost predicate ListOk(jobs: seq<Job>, s: State)
    requires Sized(jobs, s)
  {
    && |s.callbacks| <= SLOTS && Distinct(s.callbacks)
    && (forall k :: 0 <= k < |s.callbacks| ==> s.callbacks[k] < |jobs|)
    && (IsTerminal(s.status) && s.callbacks != [] ==> SomeCollects(s))
    && (s.lock == -1 || 0 <= s.lock < |jobs|)
  }

  /** Completions report terminal states. */
  ghost predicate Jobs(jobs: seq<Job>)
  {
    forall i :: 0 <= i < |jobs| && jobs[i].Complete? ==> IsTerminal(jobs[i].final)
  }

  ghost predicate Inv(jobs: seq<Job>, s: State)
  {
    && Jobs(jobs) && Sized(jobs, s) && ListOk(jobs, s)
    && (forall i: nat :: i < |jobs| ==> ThreadOk(jobs, s, i))
    && (forall r: nat :: r < |jobs| ==> CallOk(jobs, s, r))
  }

  lemma Facts(jobs: seq<Job>, s: State, i: nat)
    requires Inv(jobs, s) && i < |jobs|
    ensures Sized(jobs, s) && ListOk(jobs, s) && ThreadOk(jobs, s, i) && CallOk(jobs, s, i)
    ensures jobs[i].Complete? ==> IsTerminal(jobs[i].final)
  {
  }

  lemma PcIs(jobs: seq<Job>, s: State, i: nat)
    requires Inv(jobs, s) && i < |jobs|
    ensures Sized(jobs, s) && PcOk(jobs, s, i) && (jobs[i].Complete? ==> IsTerminal(jobs[i].final)) && s.lock >= -1
  {
    hide Inv, PcOk, HeldOk, CallOk, AwaitOk;
    Facts(jobs, s, i);
  }

  /** What a step of thread `i` does to the mutex. */
  lemma StepLock(jobs: seq<Job>, s: State, i: nat)
    requires Inv(jobs, s) && i < |jobs|
    ensures var s' := Step(jobs, s, i);
            && Sized(jobs, s) && Sized(jobs, s')
            && (s'.lock == s.lock || (s.lock == -1 && s'.lock == i) || (s.lock == i && s'.lock == -1))
            && (Holding(s'.pcs[i]) <==> s'.lock == i)
  {
    hide Inv, TakeAll, WakeAll, IsTerminal, PcFits;
    PcIs(jobs, s, i);
  }

  /** A completion and what it stores. */
  lemma CompletesTerminal(jobs: seq<Job>, s: State, i: nat)
    requires Sized(jobs, s) && i < |jobs| && PcOk(jobs, s, i) && jobs[i].Complete? && IsTerminal(jobs[i].final)
    ensures var s' := Step(jobs, s, i);
            Sized(jobs, s') && (IsTerminal(s.status) ==> IsTerminal(s'.status)) && PcFits(jobs, s', i)
  {
    hide TakeAll, WakeAll, Holding, IsTerminal;
  }

  /** Waits and registrations leave the status alone. */
  lemma WaitsTerminal(jobs: seq<Job>, s: State, i: nat)
    requires Sized(jobs, s) && i < |jobs| && PcOk(jobs, s, i) && jobs[i].Wait?
    ensures var s' := Step(jobs, s, i);
            Sized(jobs, s') && (IsTerminal(s.status) ==> IsTerminal(s'.status)) && PcFits(jobs, s', i)
  {
    hide TakeAll, WakeAll, Holding, IsTerminal, Call;
  }

  lemma CallsTerminal(jobs: seq<Job>, s: State, i: nat)
    requires Sized(jobs, s) && i < |jobs| && PcOk(jobs, s, i) && jobs[i].Register?
    ensures var s' := Step(jobs, s, i);
            Sized(jobs, s') && (IsTerminal(s.status) ==> IsTerminal(s'.status)) && PcFits(jobs, s', i)
  {
    hide TakeAll, WakeAll, Holding, IsTerminal;
  }

  lemma OwnPc(jobs: seq<Job>, s: State, i: nat)
    requires Inv(jobs, s) && i < |jobs|
    ensures Sized(jobs, Step(jobs, s, i)) && PcOk(jobs, Step(jobs, s, i), i)
    ensures IsTerminal(s.status) ==> IsTerminal(Step(jobs, s, i).status)
  {
    hide Inv, Step, Holding, IsTerminal, PcFits;
    PcIs(jobs, s, i);
    StepLock(jobs, s, i);
    if jobs[i].Complete? {
      CompletesTerminal(jobs, s, i);
    } else if jobs[i].Wait? {
      WaitsTerminal(jobs, s, i);
    } else {
      CallsTerminal(jobs, s, i);
    }
  }

  lemma OtherPc(jobs: seq<Job>, s: State, i: nat, j: nat)
    requires Inv(jobs, s) && i < |jobs| && j < |jobs| && i != j
    ensures Sized(jobs, Step(jobs, s, i)) && PcOk(jobs, Step(jobs, s, i), j)
  {
    hide Inv, Step, IsTerminal;
    StepLock(jobs, s, i);
    OwnPc(jobs, s, i);
    PcIs(jobs, s, j);
    OthersStay(jobs, s, i, j);
  }

  lemma OthersStay(jobs: seq<Job>, s: State, i: nat, j: nat)
    requires Sized(jobs, s) && i < |jobs| && j < |jobs|
    ensures Sized(jobs, Step(jobs, s, i))
    ensures i != j ==> Step(jobs, s, i).pcs[j] == if s.pcs[i].Notify? && s.pcs[j].Asleep? then WaitAcquire else s.pcs[j]
    ensures !s.pcs[i].Store? ==> Step(jobs, s, i).status == s.status
  {
    hide TakeAll;
  }

  /** A completion that waits for the mutex goes on waiting while somebody else holds it. */
  lemma AcquireStays(jobs: seq<Job>, s: State, i: nat)
    requires Sized(jobs, s) && i < |jobs| && SomeAcquire(s) && s.lock != -1
    ensures SomeAcquire(Step(jobs, s, i))
  {
    var k :| 0 <= k < |s.pcs| && s.pcs[k].Acquire?;
    assert Step(jobs, s, i).pcs[k].Acquire?;
  }

  /** Only the notification itself ends an announcement. */
  lemma AnnounceStays(jobs: seq<Job>, s: State, i: nat)
    requires Sized(jobs, s) && i < |jobs| && SomeAnnounces(s) && !s.pcs[i].Notify?
    ensures SomeAnnounces(Step(jobs, s, i))
  {
    var k :| 0 <= k < |s.pcs| && Announcing(s.pcs[k]);
    assert Announcing(Step(jobs, s, i).pcs[k]);
  }

  /** A thread about to sleep or to register holds the mutex, so a completion still waits for it. */
  lemma GoingNoticed(jobs: seq<Job>, s: State, i: nat, j: nat)
    requires Inv(jobs, s) && i < |jobs| && j < |jobs| && !s.pcs[i].Store?
    ensures var s' := Step(jobs, s, i);
            Sized(jobs, s') && (IsTerminal(s'.status) && (s'.pcs[j].WaitGoing? || s'.pcs[j].CallPush?) ==>
                SomeAcquire(s'))
  {
    hide Inv, HeldOk, CallOk, ListOk, SomeAcquire, SomeAnnounces, TakeAll, Fitting, Announcing;
    Facts(jobs, s, i);
    Facts(jobs, s, j);
    OthersStay(jobs, s, i, j);
    if SomeAcquire(s) && s.lock != -1 {
      AcquireStays(jobs, s, i);
    }
  }

  /** A sleeper waits for somebody who has yet to notify. */
  lemma SleepNoticed(jobs: seq<Job>, s: State, i: nat, j: nat)
    requires Inv(jobs, s) && i < |jobs| && j < |jobs| && !s.pcs[i].Store?
    ensures var s' := Step(jobs, s, i);
            Sized(jobs, s') && (IsTerminal(s'.status) && s'.pcs[j].Asleep? ==> SomeAnnounces(s'))
  {
    hide Inv, HeldOk, CallOk, ListOk, SomeAcquire, SomeAnnounces, TakeAll, Fitting, Announcing;
    Facts(jobs, s, i);
    Facts(jobs, s, j);
    OthersStay(jobs, s, i, j);
    if SomeAcquire(s) {
      AcquireAnnounces(s);
    }
    if SomeAnnounces(s) && !s.pcs[i].Notify? {
      AnnounceStays(jobs, s, i);
    }
  }

  lemma StepAwait(jobs: seq<Job>, s: State, i: nat, j: nat)
    requires Inv(jobs, s) && i < |jobs| && j < |jobs|
    ensures Sized(jobs, Step(jobs, s, i)) && AwaitOk(jobs, Step(jobs, s, i), j)
  {
    hide Inv, HeldOk, CallOk, ListOk, SomeAcquire, SomeAnnounces, PcOk, ThreadOk;
    Facts(jobs, s, i);
    if s.pcs[i].Store? {
      Stored(Step(jobs, s, i), i);
    } else {
      hide Step;
      GoingNoticed(jobs, s, i, j);
      SleepNoticed(jobs, s, i, j);
    }
  }

  lemma Stored(s: State, i: nat)
    requires i < |s.pcs| && s.pcs[i].Acquire?
    ensures SomeAcquire(s) && SomeAnnounces(s)
  {
    assert Announcing(s.pcs[i]);
  }

  lemma AcquireAnnounces(s: State)
    requires SomeAcquire(s)
    ensures SomeAnnounces(s)
  {
    var k :| 0 <= k < |s.pcs| && s.pcs[k].Acquire?;
    assert Announcing(s.pcs[k]);
  }

  /** The steps that move no callback. */
  predicate Quiet(pc: Pc)
  {
    !pc.Take? && !pc.Fire? && !pc.CallPush? && !pc.CallRun?
  }

  lemma QuietStep(jobs: seq<Job>, s: State, i: nat, j: nat)
    requires Sized(jobs, s) && i < |jobs| && j < |jobs| && Quiet(s.pcs[i])
    ensures var s' := Step(jobs, s, i);
            && Sized(jobs, s') && s'.callbacks == s.callbacks && s'.fired == s.fired && s'.where == s.where
            && Held(s'.pcs[j]) == Held(s.pcs[j])
            && (jobs[j].Register? && Fitting(jobs[j], s.pcs[j]) ==>
                  (s'.pcs[j].CallLeave? || s'.pcs[j].Finish? <==> s.pcs[j].CallLeave? || s.pcs[j].Finish?))
  {
    hide IsTerminal, TakeAll, Call;
    if j != i {
      OthersStay(jobs, s, i, j);
    }
  }

  /** The callback that a step moves. */
  function Mover(s: State, i: nat): nat
    requires i < |s.pcs|
  {
    if s.pcs[i].Fire? && s.pcs[i].cbs != [] then s.pcs[i].cbs[0] else i
  }

  lemma MoveStep(jobs: seq<Job>, s: State, i: nat, j: nat)
    requires Inv(jobs, s) && i < |jobs| && j < |jobs| && (s.pcs[i].Fire? || s.pcs[i].CallPush? || s.pcs[i].CallRun?)
    ensures var (s', r) := (Step(jobs, s, i), Mover(s, i));
            && Sized(jobs, s) && Sized(jobs, s') && r < |jobs|
            && (s'.where == s.where || s'.where == s.where[r := s'.where[r]])
            && (s.pcs[i].Fire? && s.pcs[i].cbs != [] ==> s.where[r] == Taken(i) && Held(s.pcs[i])[0] == r)
            && (!s.pcs[i].Fire? ==> s.where[r].Away?)
            && (s.pcs[i].Fire? && s.pcs[i].cbs == [] ==> s'.where == s.where)
            && Held(s'.pcs[j]) == if j == i && s.pcs[i].Fire? && s.pcs[i].cbs != [] then Held(s.pcs[j])[1..]
                else Held(s.pcs[j])
  {
    hide Inv, AwaitOk, SomeCollects, ListOk;
    Facts(jobs, s, i);
  }

  lemma StepHeld(jobs: seq<Job>, s: State, i: nat, j: nat)
    requires Inv(jobs, s) && i < |jobs| && j < |jobs|
    ensures Sized(jobs, Step(jobs, s, i)) && HeldOk(jobs, Step(jobs, s, i), j)
  {
    hide Inv, AwaitOk, SomeCollects, CallOk, PcOk;
    Facts(jobs, s, i);
    Facts(jobs, s, j);
    if Quiet(s.pcs[i]) {
      hide Step, Held;
      QuietStep(jobs, s, i, j);
    } else if s.pcs[i].Take? {
      ListIsListed(jobs, s);
    } else {
      MoveStep(jobs, s, i, j);
      hide Step, Held;
      Rest(Held(s.pcs[j]));
    }
  }

  lemma Rest(a: seq<nat>)
    requires Distinct(a)
    ensures a != [] ==> Distinct(a[1..]) && forall k :: 0 <= k < |a| - 1 ==> a[1..][k] == a[k + 1] && a[k + 1] != a[0]
  {
  }

  lemma ListIsListed(jobs: seq<Job>, s: State)
    requires Inv(jobs, s)
    ensures Sized(jobs, s)
    ensures forall k :: 0 <= k < |s.callbacks| ==> s.callbacks[k] < |jobs| && s.where[s.callbacks[k]] == Listed
  {
    forall k | 0 <= k < |s.callbacks|
      ensures s.callbacks[k] < |jobs| && s.where[s.callbacks[k]] == Listed
    {
      assert CallOk(jobs, s, s.callbacks[k]);
    }
  }

  lemma StepCall(jobs: seq<Job>, s: State, i: nat, r: nat)
    requires Inv(jobs, s) && i < |jobs| && r < |jobs|
    ensures Sized(jobs, Step(jobs, s, i)) && CallOk(jobs, Step(jobs, s, i), r)
  {
    hide Inv, AwaitOk, SomeCollects, IsTerminal;
    Facts(jobs, s, i);
    Facts(jobs, s, r);
    TerminalStep(jobs, s, i);
    if Quiet(s.pcs[i]) {
      hide HeldOk, ListOk, Holding;
      QuietStep(jobs, s, i, r);
      if s.where[r].Taken? && s.where[r].owner < |jobs| {
        QuietStep(jobs, s, i, s.where[r].owner);
      }
      hide Step, Held, Fitting;
    } else if s.pcs[i].Take? || s.pcs[i].Fire? {
      hide Holding;
      CollectorCall(jobs, s, i, r);
    } else {
      hide HeldOk;
    }
  }

  lemma TerminalStep(jobs: seq<Job>, s: State, i: nat)
    requires Inv(jobs, s) && i < |jobs|
    ensures Sized(jobs, s) && (IsTerminal(s.status) ==> IsTerminal(Step(jobs, s, i).status))
    ensures s.pcs[i].Fire? || s.pcs[i].CallRun? ==> IsTerminal(s.status)
  {
    hide Inv, Step, IsTerminal;
    PcIs(jobs, s, i);
    OwnPc(jobs, s, i);
  }

  lemma TakeCall(jobs: seq<Job>, s: State, i: nat, r: nat)
    requires Inv(jobs, s) && i < |jobs| && r < |jobs| && s.pcs[i].Take?
    ensures Sized(jobs, Step(jobs, s, i)) && CallOk(jobs, Step(jobs, s, i), r)
  {
    hide Inv, AwaitOk, SomeCollects, IsTerminal, Holding, Announcing;
    Facts(jobs, s, i);
    Facts(jobs, s, r);
  }

  /** What firing a callback changes. */
  lemma FireIs(jobs: seq<Job>, s: State, i: nat)
    requires Sized(jobs, s) && i < |jobs| && s.pcs[i].Fire? && s.pcs[i].cbs != [] && s.pcs[i].cbs[0] < |jobs|
    ensures var c := s.pcs[i].cbs[0];
            Step(jobs, s, i) == s.(pcs := s.pcs[i := Fire(s.pcs[i].cbs[1..])], fired :=
                s.fired[c := s.fired[c] + 1], where := s.where[c := Fired])
  {
  }

  lemma FireOne(jobs: seq<Job>, s: State, i: nat)
    requires Sized(jobs, s) && i < |jobs| && s.pcs[i].Fire? && s.pcs[i].cbs != [] && HeldOk(jobs, s, i)
             && IsTerminal(s.status)
    requires s.pcs[i].cbs[0] < |jobs| && CallOk(jobs, s, s.pcs[i].cbs[0])
    ensures Sized(jobs, Step(jobs, s, i)) && CallOk(jobs, Step(jobs, s, i), s.pcs[i].cbs[0])
  {
    hide Step, IsTerminal, Distinct;
    FireIs(jobs, s, i);
    assert Held(s.pcs[i])[0] == s.pcs[i].cbs[0];
  }

  lemma FireOther(jobs: seq<Job>, s: State, i: nat, r: nat)
    requires Sized(jobs, s) && i < |jobs| && s.pcs[i].Fire? && s.pcs[i].cbs != [] && s.pcs[i].cbs[0] < |jobs|
    requires r < |jobs| && r != s.pcs[i].cbs[0] && CallOk(jobs, s, r)
    ensures Sized(jobs, Step(jobs, s, i)) && CallOk(jobs, Step(jobs, s, i), r)
  {
    hide Step, IsTerminal;
    FireIs(jobs, s, i);
    var cbs := s.pcs[i].cbs;
    assert cbs == [cbs[0]] + cbs[1..];
  }

  lemma FireNone(jobs: seq<Job>, s: State, i: nat, r: nat)
    requires Sized(jobs, s) && i < |jobs| && s.pcs[i] == Fire([]) && r < |jobs| && CallOk(jobs, s, r)
    ensures Sized(jobs, Step(jobs, s, i)) && CallOk(jobs, Step(jobs, s, i), r)
  {
    hide IsTerminal, TakeAll, WakeAll, Call;
  }

  lemma FireCall(jobs: seq<Job>, s: State, i: nat, r: nat)
    requires Inv(jobs, s) && i < |jobs| && r < |jobs| && s.pcs[i].Fire?
    ensures Sized(jobs, Step(jobs, s, i)) && CallOk(jobs, Step(jobs, s, i), r)
  {
    hide Inv, Step, AwaitOk, IsTerminal, ListOk, PcOk, CallOk, Distinct;
    Facts(jobs, s, i);
    Facts(jobs, s, r);
    TerminalStep(jobs, s, i);
    if s.pcs[i].cbs == [] {
      FireNone(jobs, s, i, r);
    } else {
      assert Held(s.pcs[i])[0] < |jobs|;
      if r == s.pcs[i].cbs[0] {
        FireOne(jobs, s, i);
      } else {
        FireOther(jobs, s, i, r);
      }
    }
  }

  lemma CollectorCall(jobs: seq<Job>, s: State, i: nat, r: nat)
    requires Inv(jobs, s) && i < |jobs| && r < |jobs| && (s.pcs[i].Take? || s.pcs[i].Fire?)
    ensures Sized(jobs, Step(jobs, s, i)) && CallOk(jobs, Step(jobs, s, i), r)
  {
    hide Inv, Step, CallOk;
    Facts(jobs, s, i);
    if s.pcs[i].Take? {
      TakeCall(jobs, s, i, r);
    } else {
      FireCall(jobs, s, i, r);
    }
  }

  lemma StepList(jobs: seq<Job>, s: State, i: nat)
    requires Inv(jobs, s) && i < |jobs|
    ensures Sized(jobs, Step(jobs, s, i)) && ListOk(jobs, Step(jobs, s, i))
  {
    hide Inv, HeldOk, SomeAcquire, SomeCollects;
    Facts(jobs, s, i);
    var s' := Step(jobs, s, i);
    if s.pcs[i].Store? {
      Stored(s', i);
      AcquireCollects(s');
    } else if IsTerminal(s.status) {
      if SomeAcquire(s) {
        AcquireCollects(s);
      }
      if SomeCollects(s) && !s.pcs[i].Take? {
        CollectStays(jobs, s, i);
      }
    }
  }

  lemma AcquireCollects(s: State)
    requires SomeAcquire(s)
    ensures SomeCollects(s)
  {
    var k :| 0 <= k < |s.pcs| && s.pcs[k].Acquire?;
    assert s.pcs[k].Acquire?;
  }

  lemma CollectStays(jobs: seq<Job>, s: State, i: nat)
    requires Sized(jobs, s) && i < |jobs| && SomeCollects(s) && !s.pcs[i].Take?
    ensures SomeCollects(Step(jobs, s, i))
  {
    var k :| 0 <= k < |s.pcs| && (s.pcs[k].Acquire? || s.pcs[k].Take?);
    assert Step(jobs, s, i).pcs[k].Acquire? || Step(jobs, s, i).pcs[k].Take?;
  }

  lemma StepKeepsInv(jobs: seq<Job>, s: State, i: nat)
    requires Inv(jobs, s) && i < |jobs|
    ensures Inv(jobs, Step(jobs, s, i))
  {
    hide Step, PcOk, AwaitOk, HeldOk, CallOk, ListOk;
    StepList(jobs, s, i);
    forall j: nat | j < |jobs|
      ensures ThreadOk(jobs, Step(jobs, s, i), j) && CallOk(jobs, Step(jobs, s, i), j)
    {
      if j == i {
        OwnPc(jobs, s, i);
      } else {
        OtherPc(jobs, s, i, j);
      }
      StepAwait(jobs, s, i, j);
      StepHeld(jobs, s, i, j);
      StepCall(jobs, s, i, j);
    }
  }

  /** The event as created: pending, nobody has done anything. */
  ghost predicate Begun(jobs: seq<Job>, s: State)
  {
    && Jobs(jobs) && Sized(jobs, s) && s.status == Pending && s.lock == -1 && s.callbacks == []
    && forall i :: 0 <= i < |jobs| ==> s.pcs[i] == Start && s.fired[i] == 0 && s.where[i] == Away
  }

  lemma BegunInv(jobs: seq<Job>, s: State)
    requires Begun(jobs, s)
    ensures Inv(jobs, s)
  {
  }

  /** Any interleaving. */
  ghost function Run(jobs: seq<Job>, s: State, schedule: seq<nat>): (r: State)
    requires Inv(jobs, s) && forall k :: 0 <= k < |schedule| ==> schedule[k] < |jobs|
    ensures Inv(jobs, r)
    ensures IsTerminal(s.status) ==> IsTerminal(r.status)
    decreases |schedule|
  {
    if schedule == [] then s
    else
      StepKeepsInv(jobs, s, schedule[0]);
      StaysTerminal(jobs, s, schedule[0]);
      Run(jobs, Step(jobs, s, schedule[0]), schedule[1..])
  }

  /** `wait` returns, and `complete` with it, only on a terminal event; a waiter that has seen another
      status sleeps, or is about to, or tests again. */
  lemma WaitReturns(jobs: seq<Job>, s: State, schedule: seq<nat>, i: nat)
    requires Begun(jobs, s) && i < |jobs| && forall k :: 0 <= k < |schedule| ==> schedule[k] < |jobs|
    ensures Inv(jobs, s)
    ensures var r := Run(jobs, s, schedule);
            && (!jobs[i].Register? && r.pcs[i].Finish? ==> IsTerminal(r.status))
            && (jobs[i].Wait? && !IsTerminal(r.status) ==>
                r.pcs[i].Start? || r.pcs[i].WaitAcquire? || r.pcs[i].WaitTest? || r.pcs[i].WaitGoing?
                    || r.pcs[i].Asleep?)
  {
    hide Inv, Run, Begun, IsTerminal;
    BegunInv(jobs, s);
    PcIs(jobs, Run(jobs, s, schedule), i);
  }

  /** A completion that has stored its status, or has found another there. */
  ghost predicate StatusOf(jobs: seq<Job>, s: State)
  {
    s.status == Pending || exists i: nat :: StoredBy(jobs, s, i)
  }

  predicate StoredBy(jobs: seq<Job>, s: State, i: nat)
  {
    i < |jobs| && i < |s.pcs| && jobs[i].Complete? && s.status == jobs[i].final
        && (Announcing(s.pcs[i]) || s.pcs[i].Finish?)
  }

  lemma StepStatus(jobs: seq<Job>, s: State, i: nat)
    requires Inv(jobs, s) && i < |jobs| && StatusOf(jobs, s)
    ensures StatusOf(jobs, Step(jobs, s, i))
  {
    hide Inv, Holding, IsTerminal, TakeAll, WakeAll;
    PcIs(jobs, s, i);
    var s' := Step(jobs, s, i);
    if s.pcs[i].Store? {
      assert StoredBy(jobs, s', i);
    } else if j: nat :| StoredBy(jobs, s, j) {
      OthersStay(jobs, s, i, j);
      assert StoredBy(jobs, s', j);
    }
  }

  lemma {:induction false} RunStatus(jobs: seq<Job>, s: State, schedule: seq<nat>)
    requires Inv(jobs, s) && StatusOf(jobs, s) && forall k :: 0 <= k < |schedule| ==> schedule[k] < |jobs|
    ensures StatusOf(jobs, Run(jobs, s, schedule))
    decreases |schedule|
  {
    hide Inv, Step, StatusOf, IsTerminal;
    if schedule != [] {
      PcIs(jobs, s, schedule[0]);
      StepKeepsInv(jobs, s, schedule[0]);
      StepStatus(jobs, s, schedule[0]);
      RunStatus(jobs, Step(jobs, s, schedule[0]), schedule[1..]);
    }
  }

  /** The status is always `pending` or that of a completion that has stored it; a completion that is
      the only one leaves its own. */
  lemma StatusReported(jobs: seq<Job>, s: State, schedule: seq<nat>, i: nat)
    requires Begun(jobs, s) && i < |jobs| && forall k :: 0 <= k < |schedule| ==> schedule[k] < |jobs|
    ensures Inv(jobs, s)
    ensures var r := Run(jobs, s, schedule);
            && StatusOf(jobs, r)
            && (jobs[i].Complete? && r.pcs[i].Finish?
                && (forall j :: 0 <= j < |jobs| && jobs[j].Complete? ==> j == i) ==>
                r.status == jobs[i].final)
  {
    hide Inv, Run, Begun;
    BegunInv(jobs, s);
    BegunStatus(jobs, s);
    RunStatus(jobs, s, schedule);
    PcIs(jobs, Run(jobs, s, schedule), i);
  }

  lemma BegunStatus(jobs: seq<Job>, s: State)
    requires Begun(jobs, s)
    ensures StatusOf(jobs, s)
  {
  }

  /** Terminal once, terminal for good; and no callback fires before. */
  lemma StaysTerminal(jobs: seq<Job>, s: State, i: nat)
    requires Inv(jobs, s) && i < |jobs|
    ensures Sized(jobs, s) && (IsTerminal(s.status) ==> IsTerminal(Step(jobs, s, i).status))
    ensures forall r :: 0 <= r < |jobs| && Step(jobs, s, i).fired[r] != s.fired[r] ==>
            IsTerminal(s.status) && Step(jobs, s, i).fired[r] == 1
  {
    hide Inv, AwaitOk, SomeCollects;
    Facts(jobs, s, i);
    if s.pcs[i].Fire? && s.pcs[i].cbs != [] {
      assert Held(s.pcs[i])[0] < |jobs|;
      Facts(jobs, s, s.pcs[i].cbs[0]);
    }
  }

  /** Without the demand on completions a terminal status may be undone: exactly by the store of a
      completion that has found the event pending and reports a state that is not terminal. */
  lemma StatusUndone(jobs: seq<Job>, s: State, i: nat)
    requires Sized(jobs, s) && i < |jobs| && IsTerminal(s.status)
    ensures IsTerminal(Step(jobs, s, i).status) <==>
            !(s.pcs[i].Store? && jobs[i].Complete? && !IsTerminal(jobs[i].final))
  {
  }

  /** An input: two completions, one of them with `running`, that both find the event pending. */
  lemma UndoneRun()
    ensures var jobs := [Complete(Completed), Complete(Running)];
            var s := State(Pending, -1, [], [Start, Start], [0, 0], [Away, Away]);
            var r := Step(jobs, Step(jobs, Step(jobs, s, 0), 1), 0);
            IsTerminal(r.status) && Step(jobs, r, 1).status == Running
  {
    var jobs := [Complete(Completed), Complete(Running)];
    var s := State(Pending, -1, [], [Start, Start], [0, 0], [Away, Away]);
    var s1 := Step(jobs, s, 0);
    assert s1.pcs == [Store, Start];
    var s2 := Step(jobs, s1, 1);
    assert s2.pcs == [Store, Store];
    var s3 := Step(jobs, s2, 0);
    assert s3.pcs == [Acquire, Store] && s3.status == Completed;
  }

  /** No lost wake-up: when every completion is through, nobody sleeps on a terminal event. */
  lemma NobodySleeps(jobs: seq<Job>, s: State, i: nat)
    requires Inv(jobs, s) && i < |jobs| && IsTerminal(s.status)
    requires forall j :: 0 <= j < |jobs| && jobs[j].Complete? ==> s.pcs[j].Finish?
    ensures !s.pcs[i].Asleep? && !s.pcs[i].WaitGoing?
  {
    hide ListOk, CallOk, HeldOk;
    assert ThreadOk(jobs, s, i);
    forall j: nat | j < |jobs|
      ensures !Announcing(s.pcs[j])
    {
      assert ThreadOk(jobs, s, j);
    }
  }

  /** Every callback runs at most once; once all threads are through and the event is complete,
      every callback that was not turned away for want of room has run exactly once. */
  lemma CalledOnce(jobs: seq<Job>, s: State, r: nat)
    requires Inv(jobs, s) && r < |jobs|
    ensures s.fired[r] <= 1 && (s.fired[r] == 1 ==> IsTerminal(s.status))
    ensures jobs[r].Register? && IsTerminal(s.status) && (forall j :: 0 <= j < |jobs| ==> s.pcs[j].Finish?) ==>
              s.where[r] == Dropped || s.fired[r] == 1
  {
    hide AwaitOk;
    assert CallOk(jobs, s, r);
  }

  /** A callback is turned away only by a full list. */
  lemma DroppedWhenFull(jobs: seq<Job>, s: State, i: nat, r: nat)
    requires Inv(jobs, s) && i < |jobs| && r < |jobs|
    ensures Sized(jobs, s) && Sized(jobs, Step(jobs, s, i))
    ensures s.where[r] != Dropped && Step(jobs, s, i).where[r] == Dropped ==> r == i && |s.callbacks| == 8
  {
    hide Inv, AwaitOk, SomeCollects;
    Facts(jobs, s, i);
  }

  // The order of the callbacks.

  /** `r` stands in front of `q` in a list of callbacks. */
  ghost predicate InFront(a: seq<nat>, r: nat, q: nat)
  {
    exists k: nat, l: nat :: k < l < |a| && a[k] == r && a[l] == q
  }

  /** Both wait to be called, `r` before `q`: in the list, or with a completion that has taken it. */
  ghost predicate Before(s: State, r: nat, q: nat)
  {
    InFront(s.callbacks, r, q) || exists j: nat :: j < |s.pcs| && InFront(Held(s.pcs[j]), r, q)
  }

  lemma FrontRest(a: seq<nat>, r: nat, q: nat)
    requires a != [] && InFront(a, r, q)
    ensures a[0] == r || InFront(a[1..], r, q)
  {
    var k: nat, l: nat :| k < l < |a| && a[k] == r && a[l] == q;
    if k > 0 {
      assert a[1..][k - 1] == r && a[1..][l - 1] == q;
    }
  }

  lemma FrontMore(a: seq<nat>, r: nat, q: nat, i: nat)
    ensures InFront(a, r, q) || (r in a && q == i) ==> InFront(a + [i], r, q)
  {
    if InFront(a, r, q) {
      var k: nat, l: nat :| k < l < |a| && a[k] == r && a[l] == q;
      assert (a + [i])[k] == r && (a + [i])[l] == q;
    } else if r in a && q == i {
      var k: nat :| k < |a| && a[k] == r;
      assert (a + [i])[k] == r && (a + [i])[|a|] == q;
    }
  }

  lemma HeldFront(s: State, r: nat, q: nat, j: nat)
    requires j < |s.pcs| && InFront(Held(s.pcs[j]), r, q)
    ensures Before(s, r, q)
  {
  }

  lemma FrontIn(a: seq<nat>, r: nat, q: nat)
    requires InFront(a, r, q)
    ensures r in a && q in a && a != [] && (Distinct(a) ==> q != a[0] && r != q)
  {
  }

  /** Callbacks that wait have not been called. */
  lemma Uncalled(jobs: seq<Job>, s: State, r: nat)
    requires Inv(jobs, s) && r < |jobs| && (s.where[r] == Listed || s.where[r].Taken?)
    ensures s.fired[r] == 0 && (jobs[r].Register? ==> s.pcs[r].CallLeave? || s.pcs[r].Finish?) && jobs[r].Register?
  {
    hide ThreadOk, ListOk;
    assert CallOk(jobs, s, r);
  }

  /** Where the callbacks wait that stand one before the other. */
  lemma BeforeWhere(jobs: seq<Job>, s: State, r: nat, q: nat) returns (j: nat)
    requires Inv(jobs, s) && Before(s, r, q)
    ensures Sized(jobs, s) && r < |jobs| && q < |jobs| && r != q
    ensures if j == |jobs| then InFront(s.callbacks, r, q) && s.where[r] == s.where[q] == Listed
            else j < |jobs| && InFront(Held(s.pcs[j]), r, q) && s.where[r] == s.where[q] == Taken(j)
  {
    hide PcOk, AwaitOk, InFront, CallOk, Held;
    if InFront(s.callbacks, r, q) {
      j := |jobs|;
      FrontIn(s.callbacks, r, q);
      ListIsListed(jobs, s);
    } else {
      j :| j < |s.pcs| && InFront(Held(s.pcs[j]), r, q);
      assert ThreadOk(jobs, s, j);
      FrontIn(Held(s.pcs[j]), r, q);
    }
  }

  /** Still one before the other, or the first of them just called. */
  ghost predicate StillBefore(jobs: seq<Job>, s: State, s': State, r: nat, q: nat)
  {
    && Sized(jobs, s) && Sized(jobs, s') && r < |jobs| && q < |jobs| && s.fired[q] == 0 && s'.fired[q] == 0
    && (Before(s', r, q) || (s.fired[r] == 0 && s'.fired[r] == 1))
  }

  lemma QuietBefore(jobs: seq<Job>, s: State, i: nat, r: nat, q: nat)
    requires Inv(jobs, s) && i < |jobs| && Before(s, r, q) && Sized(jobs, s) && Quiet(s.pcs[i])
    ensures StillBefore(jobs, s, Step(jobs, s, i), r, q)
  {
    hide Inv, Step, InFront, Held, Quiet;
    var j := BeforeWhere(jobs, s, r, q);
    Uncalled(jobs, s, q);
    QuietStep(jobs, s, i, i);
    if j < |jobs| {
      QuietStep(jobs, s, i, j);
      HeldFront(Step(jobs, s, i), r, q, j);
    }
  }

  lemma TakeBefore(jobs: seq<Job>, s: State, i: nat, r: nat, q: nat)
    requires Inv(jobs, s) && i < |jobs| && Before(s, r, q) && Sized(jobs, s) && s.pcs[i].Take?
    ensures StillBefore(jobs, s, Step(jobs, s, i), r, q)
  {
    hide Inv, InFront, TakeAll, WakeAll, IsTerminal, Call, Before;
    var j := BeforeWhere(jobs, s, r, q);
    Uncalled(jobs, s, q);
    var s' := Step(jobs, s, i);
    if j == |jobs| {
      HeldFront(s', r, q, i);
    } else {
      FrontIn(Held(s.pcs[j]), r, q);
      assert j != i && s'.pcs[j] == s.pcs[j];
      HeldFront(s', r, q, j);
    }
  }

  lemma FireBefore(jobs: seq<Job>, s: State, i: nat, r: nat, q: nat)
    requires Inv(jobs, s) && i < |jobs| && Before(s, r, q) && Sized(jobs, s) && s.pcs[i].Fire? && s.pcs[i].cbs != []
    ensures StillBefore(jobs, s, Step(jobs, s, i), r, q)
  {
    hide Inv, Step, InFront, Before, PcOk, AwaitOk, CallOk, ListOk, Distinct;
    var j := BeforeWhere(jobs, s, r, q);
    Uncalled(jobs, s, q);
    Uncalled(jobs, s, r);
    Facts(jobs, s, i);
    var s' := Step(jobs, s, i);
    var cbs := s.pcs[i].cbs;
    assert Held(s.pcs[i])[0] < |jobs| && s.where[cbs[0]] == Taken(i);
    FireIs(jobs, s, i);
    if j == |jobs| {
      ListFront(s', r, q);
    } else if j != i {
      HeldFront(s', r, q, j);
    } else {
      FrontIn(cbs, r, q);
      FrontRest(cbs, r, q);
      if cbs[0] != r {
        HeldFront(s', r, q, i);
      }
    }
  }

  lemma ListFront(s: State, r: nat, q: nat)
    requires InFront(s.callbacks, r, q)
    ensures Before(s, r, q)
  {
  }

  /** The other steps that move callbacks, or end the list of those held. */
  lemma CallBefore(jobs: seq<Job>, s: State, i: nat, r: nat, q: nat)
    requires Inv(jobs, s) && i < |jobs| && Before(s, r, q) && Sized(jobs, s)
    requires s.pcs[i].CallPush? || s.pcs[i].CallRun? || s.pcs[i] == Fire([])
    ensures StillBefore(jobs, s, Step(jobs, s, i), r, q)
  {
    hide Inv, InFront, Before, TakeAll, WakeAll, IsTerminal;
    var j := BeforeWhere(jobs, s, r, q);
    Uncalled(jobs, s, q);
    Uncalled(jobs, s, r);
    var s' := Step(jobs, s, i);
    FrontMore(s.callbacks, r, q, i);
    if j == |jobs| {
      ListFront(s', r, q);
    } else {
      FrontIn(Held(s.pcs[j]), r, q);
      assert j != i ==> s'.pcs[j] == s.pcs[j];
      HeldFront(s', r, q, j);
    }
  }

  /** Callbacks are called in the order in which they were registered: one that is listed stands
      behind all that are there, and as long as another stands before it, it is not called. */
  lemma CalledInOrder(jobs: seq<Job>, s: State, i: nat, r: nat, q: nat)
    requires Inv(jobs, s) && i < |jobs|
    ensures Sized(jobs, s) && (Before(s, r, q) ==> StillBefore(jobs, s, Step(jobs, s, i), r, q))
    ensures r in s.callbacks && s.pcs[i].CallPush? && |s.callbacks| < SLOTS ==> Before(Step(jobs, s, i), r, i)
  {
    hide Inv, InFront, Before, StillBefore, TakeAll, WakeAll, Call, IsTerminal;
    PcIs(jobs, s, i);
    if Before(s, r, q) {
      hide Step;
      if Quiet(s.pcs[i]) {
        QuietBefore(jobs, s, i, r, q);
      } else if s.pcs[i].Take? {
        TakeBefore(jobs, s, i, r, q);
      } else if s.pcs[i].Fire? && s.pcs[i].cbs != [] {
        FireBefore(jobs, s, i, r, q);
      } else {
        CallBefore(jobs, s, i, r, q);
      }
    }
    PushBehind(jobs, s, i, r);
  }

  lemma PushBehind(jobs: seq<Job>, s: State, i: nat, r: nat)
    requires Sized(jobs, s) && i < |jobs|
    ensures r in s.callbacks && s.pcs[i].CallPush? && |s.callbacks| < SLOTS ==> Before(Step(jobs, s, i), r, i)
  {
    FrontMore(s.callbacks, r, i, i);
  }

  // Progress.

  /** A thread that a step takes further: it is neither through nor asleep, nor waiting for a mutex
      that is taken. */
  predicate Ready(s: State, i: nat)
  {
    i < |s.pcs| && !s.pcs[i].Finish? && !s.pcs[i].Asleep? &&
    (s.pcs[i].Acquire? || s.pcs[i].WaitAcquire? || s.pcs[i].CallAcquire? ==> s.lock == -1)
  }

  /** Whoever holds the mutex is ready to go on. */
  lemma HolderReady(jobs: seq<Job>, s: State)
    requires Inv(jobs, s) && s.lock != -1
    ensures 0 <= s.lock < |jobs| && Ready(s, s.lock)
  {
    hide CallOk, HeldOk, AwaitOk;
    assert ThreadOk(jobs, s, s.lock);
  }

  /** No deadlock: as long as a completion or a registration is not through, some thread is ready; and
      on a terminal event, as long as any thread is not. */
  lemma NoDeadlock(jobs: seq<Job>, s: State, i: nat) returns (j: nat)
    requires Inv(jobs, s) && i < |jobs| && !s.pcs[i].Finish? && (IsTerminal(s.status) || !jobs[i].Wait?)
    ensures j < |jobs| && Ready(s, j)
  {
    hide Inv, CallOk, HeldOk, ListOk;
    Facts(jobs, s, i);
    j := i;
    if s.pcs[i].Asleep? {
      j :| j < |s.pcs| && Announcing(s.pcs[j]);
    }
    if !Ready(s, j) {
      HolderReady(jobs, s);
      j := s.lock;
    }
  }

  /** Steps that a thread may still take; waits only on a terminal event. */
  function Ahead(pc: Pc): nat
  {
    match pc
    case Start => SLOTS + 8
    case Store => SLOTS + 7
    case Acquire => SLOTS + 6
    case Take => SLOTS + 5
    case Leave(cbs) => |cbs| + 4
    case Fire(cbs) => |cbs| + 3
    case Notify => 2
    case WaitGoing => 6
    case Asleep => 5
    case WaitAcquire => 4
    case WaitTest => 3
    case WaitLeave => 2
    case CallAcquire => 4
    case CallTest => 3
    case CallPush => 2
    case CallLeaveRun => 2
    case CallRun => 1
    case CallLeave => 1
    case Finish => 0
  }

  function Aheads(s: State): seq<nat>
  {
    seq(|s.pcs|, i requires 0 <= i < |s.pcs| => Ahead(s.pcs[i]))
  }

  lemma FireAhead(jobs: seq<Job>, s: State, i: nat)
    requires Inv(jobs, s) && i < |jobs| && s.pcs[i].Fire?
    ensures Sized(jobs, Step(jobs, s, i)) && Ahead(Step(jobs, s, i).pcs[i]) < Ahead(s.pcs[i])
  {
    hide Inv, AwaitOk, CallOk, PcOk, ListOk, Distinct;
    Facts(jobs, s, i);
    if s.pcs[i].cbs != [] {
      assert Held(s.pcs[i])[0] < |jobs|;
    }
  }

  /** Every step of a completion or a registration that is ready brings it nearer to its end, whatever
      the status. */
  lemma OwnAhead(jobs: seq<Job>, s: State, i: nat)
    requires Inv(jobs, s) && i < |jobs| && (Ready(s, i) || s.pcs[i].Asleep?)
    requires IsTerminal(s.status) || !jobs[i].Wait?
    ensures Sized(jobs, Step(jobs, s, i)) && Ahead(Step(jobs, s, i).pcs[i]) < Ahead(s.pcs[i])
  {
    hide Inv, AwaitOk, HeldOk, CallOk, TakeAll, WakeAll, SomeCollects, Distinct, IsTerminal;
    Facts(jobs, s, i);
    if s.pcs[i].Fire? {
      FireAhead(jobs, s, i);
    }
  }

  /** Every step of a ready thread, and every waking, brings all threads nearer to their end. Together
      with the freedom from deadlock: on a terminal event completions get through, the list of
      callbacks is emptied and every thread returns. */
  lemma StepProgress(jobs: seq<Job>, s: State, i: nat)
    requires Inv(jobs, s) && IsTerminal(s.status) && i < |jobs| && (Ready(s, i) || s.pcs[i].Asleep?)
    ensures Sum(Aheads(Step(jobs, s, i))) < Sum(Aheads(s))
  {
    hide Inv, Step, Ahead, Sum;
    OwnAhead(jobs, s, i);
    Facts(jobs, s, i);
    var (v, w) := (Aheads(s), Aheads(Step(jobs, s, i)));
    forall j: nat | j < |w|
      ensures w[j] <= v[i := w[i]][j]
    {
      if j != i {
        OthersStay(jobs, s, i, j);
        WakingAhead(s.pcs[j]);
      }
    }
    SumOrder(w, v[i := w[i]]);
    SumUpdate(v, i, w[i]);
  }

  lemma WakingAhead(pc: Pc)
    ensures pc.Asleep? ==> Ahead(WaitAcquire) <= Ahead(pc)
  {
  }
}
