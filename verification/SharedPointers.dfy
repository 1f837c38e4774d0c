/** The control block of `SharedPtr` and `WeakPtr`: every atomic operation on the two counts is a
    step, the steps of all handles interleave freely. */
module SharedPointers {
  import opened Sums

  /** A handle and what it is in the middle of. */
  datatype Handle =
    | Null
    | Strong
    | Weak
    | Locking(from: nat, count: nat)  // `try_add_strong`, with the count last read
    | Destroying                      // released the last strong count
    | Dropping                        // destroyed the object, gives up the weak count held for it
    | Deleting                        // released the last weak count

  /** `destroyed` and `deleted` count how often object and block were disposed of. */
  datatype State = State(strong: nat, weak: nat, ptr: bool, handles: seq<Handle>, destroyed: nat, deleted: nat)

  datatype Action =
    | Copy(to: nat, from: nat)
    | CopyWeak(to: nat, from: nat)
    | Move(to: nat, from: nat)
    | Lock(to: nat, from: nat)
    | TryAdd(at: nat, spurious: bool)
    | Release(at: nat)
    | Destroy(at: nat)
    | Drop(at: nat)
    | Delete(at: nat)

  /** A weak handle that is being locked is not released or moved by anybody. */
  predicate Pinned(s: State, i: nat)
  {
    exists j :: 0 <= j < |s.handles| && s.handles[j].Locking? && s.handles[j].from == i
  }

  predicate Is(s: State, i: nat, h: Handle)
  {
    i < |s.handles| && s.handles[i] == h
  }

  function Set(s: State, i: nat, h: Handle): State
    requires i < |s.handles|
  {
    s.(handles := s.handles[i := h])
  }

  /** `release_weak`: the last one deletes the block. */
  function ReleaseWeak(s: State, i: nat): State
    requires i < |s.handles|
  {
    var s1 := s.(weak := if s.weak > 0 then s.weak - 1 else 0);
    Set(s1, i, if s.weak == 1 then Deleting else Null)
  }

  /** One step; an action that its handles do not allow changes nothing. */
  function Step(s: State, a: Action): State
  {
    match a
    case Copy(i, j) =>
      if Is(s, i, Null) && Is(s, j, Strong) then Set(s, i, Strong).(strong := s.strong + 1) else s
    case CopyWeak(i, j) =>
      if Is(s, i, Null) && (Is(s, j, Strong) || Is(s, j, Weak)) then Set(s, i, Weak).(weak := s.weak + 1) else s
    case Move(i, j) =>
      if Is(s, i, Null) && (Is(s, j, Strong) || Is(s, j, Weak)) && !Pinned(s, j) then
          Set(Set(s, i, s.handles[j]), j, Null) else s
    case Lock(i, j) =>
      if Is(s, i, Null) && Is(s, j, Weak) then Set(s, i, Locking(j, s.strong)) else s
    case TryAdd(i, spurious) =>
      if i < |s.handles| && s.handles[i].Locking? then
        var count := s.handles[i].count;
        if count == 0 then Set(s, i, Null)
        else if s.strong == count && !spurious then Set(s, i, Strong).(strong := s.strong + 1)
        else Set(s, i, Locking(s.handles[i].from, s.strong))
      else s
    case Release(i) =>
      if Is(s, i, Strong) then
        Set(s, i, if s.strong == 1 then Destroying else Null).(strong := if s.strong > 0 then s.strong - 1 else 0)
      else if Is(s, i, Weak) && !Pinned(s, i) then ReleaseWeak(s, i)
      else s
    case Destroy(i) =>
      if Is(s, i, Destroying) then
        Set(s, i, Dropping).(ptr := false, destroyed := if s.ptr then s.destroyed + 1 else s.destroyed)
      else s
    case Drop(i) =>
      if Is(s, i, Dropping) then ReleaseWeak(s, i) else s
    case Delete(i) =>
      if Is(s, i, Deleting) then Set(s, i, Null).(deleted := s.deleted + 1) else s
  }

  // Counting handles.

  function IsStrong(h: Handle): nat { if h.Strong? then 1 else 0 }

  function IsWeak(h: Handle): nat { if h.Weak? then 1 else 0 }

  /** Busy with the end of the object. */
  function IsLast(h: Handle): nat { if h.Destroying? || h.Dropping? then 1 else 0 }

  function IsDeleting(h: Handle): nat { if h.Deleting? then 1 else 0 }

  function Strongs(s: seq<Handle>): nat { Sum(seq(|s|, i requires 0 <= i < |s| => IsStrong(s[i]))) }

  function Weaks(s: seq<Handle>): nat { Sum(seq(|s|, i requires 0 <= i < |s| => IsWeak(s[i]))) }

  function Lasts(s: seq<Handle>): nat { Sum(seq(|s|, i requires 0 <= i < |s| => IsLast(s[i]))) }

  function Deletings(s: seq<Handle>): nat { Sum(seq(|s|, i requires 0 <= i < |s| => IsDeleting(s[i]))) }

  /** How the four counts change with one handle. */
  lemma CountsChange(s: seq<Handle>, i: nat, h: Handle)
    requires i < |s|
    ensures Strongs(s[i := h]) + IsStrong(s[i]) == Strongs(s) + IsStrong(h)
    ensures Weaks(s[i := h]) + IsWeak(s[i]) == Weaks(s) + IsWeak(h)
    ensures Lasts(s[i := h]) + IsLast(s[i]) == Lasts(s) + IsLast(h)
    ensures Deletings(s[i := h]) + IsDeleting(s[i]) == Deletings(s) + IsDeleting(h)
    ensures Strongs(s) >= IsStrong(s[i]) && Weaks(s) >= IsWeak(s[i]) && Lasts(s) >= IsLast(s[i])
            && Deletings(s) >= IsDeleting(s[i])
  {
    ChangeOne(seq(|s|, i requires 0 <= i < |s| => IsStrong(s[i])), i, IsStrong(h));
    ChangeOne(seq(|s|, i requires 0 <= i < |s| => IsWeak(s[i])), i, IsWeak(h));
    ChangeOne(seq(|s|, i requires 0 <= i < |s| => IsLast(s[i])), i, IsLast(h));
    ChangeOne(seq(|s|, i requires 0 <= i < |s| => IsDeleting(s[i])), i, IsDeleting(h));
    var t := s[i := h];
    assert seq(|t|, k requires 0 <= k < |t| => IsStrong(t[k])) ==
        seq(|s|, k requires 0 <= k < |s| => IsStrong(s[k]))[i := IsStrong(h)];
    assert seq(|t|, k requires 0 <= k < |t| => IsWeak(t[k])) ==
        seq(|s|, k requires 0 <= k < |s| => IsWeak(s[k]))[i := IsWeak(h)];
    assert seq(|t|, k requires 0 <= k < |t| => IsLast(t[k])) ==
        seq(|s|, k requires 0 <= k < |s| => IsLast(s[k]))[i := IsLast(h)];
    assert seq(|t|, k requires 0 <= k < |t| => IsDeleting(t[k])) ==
        seq(|s|, k requires 0 <= k < |s| => IsDeleting(s[k]))[i := IsDeleting(h)];
  }

  lemma ChangeOne(w: seq<nat>, k: nat, v: nat)
    requires k < |w|
    ensures Sum(w[k := v]) + w[k] == Sum(w) + v && Sum(w) >= w[k]
  {
    SumUpdate(w, k, v);
    SumUpdate(w, k, 0);
  }

  /** The counts tell the number of live handles; the weak count also stands for the strong
      handles together, until the last of them has dropped it. */
  ghost predicate CountsOk(s: State)
  {
    && s.strong == Strongs(s.handles)
    && s.weak == Weaks(s.handles) + Lasts(s.handles) + (if s.strong > 0 then 1 else 0)
    && Lasts(s.handles) <= (if s.strong > 0 then 0 else 1)
    && s.destroyed == (if s.ptr then 0 else 1)
    && (s.strong > 0 ==> s.ptr)
    && (s.strong == 0 && Lasts(s.handles) == 0 ==> !s.ptr)
    && Deletings(s.handles) + s.deleted == if s.weak == 0 then 1 else 0
  }

  ghost predicate Inv(s: State)
  {
    CountsOk(s) && forall i :: 0 <= i < |s.handles| ==> HandleOk(s, i)
  }

  ghost predicate HandleOk(s: State, i: int)
    requires 0 <= i < |s.handles|
  {
    match s.handles[i]
    case Locking(j, count) => Is(s, j, Weak) && (count == 0 ==> s.strong == 0)
    case Destroying => s.ptr
    case Dropping => !s.ptr
    case _ => true
  }

  /** `lock` never revives a dead object: a new strong handle appears only while the object lives. */
  lemma NoRevival(s: State, a: Action)
    requires Inv(s)
    ensures !s.ptr ==> Step(s, a).strong == 0 && !Step(s, a).ptr
    ensures s.strong == 0 ==> Step(s, a).strong == 0
  {
    hide Strongs, Weaks, Lasts, Deletings;
    match a
    case Copy(i, j) =>
      if Is(s, j, Strong) {
        CountsChange(s.handles, j, Strong);
      }
    case _ =>
  }

  lemma HandleKept(s: State, a: Action, k: nat)
    requires Inv(s) && k < |s.handles|
    ensures |Step(s, a).handles| == |s.handles| && HandleOk(Step(s, a), k)
  {
    hide Strongs, Weaks, Lasts, Deletings;
    assert HandleOk(s, k);
    NoRevival(s, a);
    match a
    case Destroy(i) =>
      if Is(s, i, Destroying) && k != i {
        OneLast(s.handles, i, k);
      }
    case _ =>
  }

  lemma OneLast(h: seq<Handle>, i: nat, k: nat)
    requires i < |h| && k < |h| && i != k && IsLast(h[i]) == 1 && Lasts(h) <= 1
    ensures IsLast(h[k]) == 0
  {
    CountsChange(h, i, Null);
    CountsChange(h[i := Null], k, Null);
  }

  lemma MoveCounts(s: State, i: nat, j: nat)
    requires CountsOk(s) && i < |s.handles| && j < |s.handles| && s.handles[i].Null?
             && (s.handles[j].Strong? || s.handles[j].Weak?)
    ensures CountsOk(Set(Set(s, i, s.handles[j]), j, Null))
  {
    hide Strongs, Weaks, Lasts, Deletings;
    CountsChange(s.handles, i, s.handles[j]);
    CountsChange(s.handles[i := s.handles[j]], j, Null);
  }

  /** One handle changes, and with it the counts. */
  lemma CountsWith(s: State, i: nat, h: Handle, s': State)
    requires CountsOk(s) && i < |s.handles| && s'.handles == s.handles[i := h]
    requires s'.strong + IsStrong(s.handles[i]) == s.strong + IsStrong(h)
    requires s'.weak + IsWeak(s.handles[i]) + IsLast(s.handles[i]) + (if s.strong > 0 then 1 else 0)
             == s.weak + IsWeak(h) + IsLast(h) + if s'.strong > 0 then 1 else 0
    requires IsLast(h) == 1 ==> s'.strong == 0 && (IsLast(s.handles[i]) == 1 || s.strong > 0)
    requires s'.strong > 0 ==> s.strong > 0
    requires s'.ptr == s.ptr || (s.ptr && !s'.ptr && h == Dropping && IsLast(s.handles[i]) == 1 && s'.strong == 0)
    requires s'.destroyed == if s.ptr && !s'.ptr then s.destroyed + 1 else s.destroyed
    requires s.handles[i].Dropping? || (s.strong > 0 && s'.strong == 0 && IsLast(h) == 0) ==> !s.ptr
    requires IsLast(s.handles[i]) == 1 && IsLast(h) == 0 ==> s.handles[i].Dropping?
    requires IsDeleting(h) + s'.deleted + (if s.weak == 0 then 1 else 0) ==
             IsDeleting(s.handles[i]) + s.deleted + if s'.weak == 0 then 1 else 0
    ensures CountsOk(s')
  {
    hide Strongs, Weaks, Lasts, Deletings;
    CountsChange(s.handles, i, h);
  }

  /** Handles that come to life. */
  lemma GainCounts(s: State, a: Action)
    requires CountsOk(s) && (a.Copy? || a.CopyWeak? || a.Lock? || a.TryAdd?)
    ensures CountsOk(Step(s, a))
  {
    hide Strongs, Weaks, Lasts, Deletings, CountsOk;
    var s' := Step(s, a);
    if s' != s {
      match a
      case Copy(i, j) =>
        Alive(s, j);
        CountsWith(s, i, Strong, s');
      case CopyWeak(i, j) =>
        Alive(s, j);
        CountsWith(s, i, Weak, s');
      case Lock(i, j) => CountsWith(s, i, s'.handles[i], s');
      case TryAdd(i, _) =>
        Alive(s, i);
        CountsWith(s, i, s'.handles[i], s');
    }
  }

  lemma ReleaseCounts(s: State, i: nat)
    requires CountsOk(s)
    ensures CountsOk(Step(s, Release(i)))
  {
    hide Strongs, Weaks, Lasts, Deletings, Pinned, CountsOk;
    var s' := Step(s, Release(i));
    if s' != s {
      Alive(s, i);
      CountsWith(s, i, s'.handles[i], s');
    }
  }

  /** The end of object and block. */
  lemma EndCounts(s: State, a: Action)
    requires CountsOk(s) && (a.Destroy? || a.Drop? || a.Delete?) && (a.Drop? && Is(s, a.at, Dropping) ==> !s.ptr)
    ensures CountsOk(Step(s, a))
  {
    hide Strongs, Weaks, Lasts, Deletings, CountsOk;
    var s' := Step(s, a);
    if s' != s {
      Alive(s, a.at);
      CountsWith(s, a.at, s'.handles[a.at], s');
    }
  }

  lemma StepCounts(s: State, a: Action)
    requires CountsOk(s) && (a.Drop? && Is(s, a.at, Dropping) ==> !s.ptr)
    ensures CountsOk(Step(s, a))
  {
    hide Strongs, Weaks, Lasts, Deletings, Pinned, CountsOk;
    match a
    case Move(i, j) =>
      if Step(s, a) != s {
        MoveCounts(s, i, j);
      }
    case Release(i) => ReleaseCounts(s, i);
    case Destroy(_) => EndCounts(s, a);
    case Drop(_) => EndCounts(s, a);
    case Delete(_) => EndCounts(s, a);
    case _ => GainCounts(s, a);
  }

  /** What one handle says about the counts. */
  lemma Alive(s: State, i: nat)
    requires CountsOk(s) && i < |s.handles|
    ensures s.handles[i].Strong? ==> s.strong >= 1 && s.weak >= 1
    ensures s.handles[i].Weak? || IsLast(s.handles[i]) == 1 ==> s.weak >= 1
    ensures IsLast(s.handles[i]) == 1 ==> s.strong == 0
    ensures s.strong > 0 ==> s.weak >= 1
  {
    hide Strongs, Weaks, Lasts, Deletings;
    CountsChange(s.handles, i, s.handles[i]);
  }

  lemma StepKeepsInv(s: State, a: Action)
    requires Inv(s)
    ensures Inv(Step(s, a))
  {
    hide Strongs, Weaks, Lasts, Deletings, Step, CountsOk;
    assert a.Drop? && Is(s, a.at, Dropping) ==> HandleOk(s, a.at);
    StepCounts(s, a);
    hide HandleOk;
    forall k: nat | k < |s.handles|
      ensures |Step(s, a).handles| == |s.handles| && HandleOk(Step(s, a), k)
    {
      HandleKept(s, a, k);
    }
    Length(s, a);
  }

  lemma Length(s: State, a: Action)
    ensures |Step(s, a).handles| == |s.handles|
  {
  }

  /** One strong handle on a fresh object, room for any number of others. */
  function Init(n: nat): State
  {
    State(1, 1, true, seq(n + 1, i => if i == 0 then Strong else Null), 0, 0)
  }

  lemma {:induction false} SumAt(w: seq<nat>, k: nat)
    requires k < |w| && forall j :: 0 <= j < |w| && j != k ==> w[j] == 0
    ensures Sum(w) == w[k]
  {
    if k == 0 {
      SumZero(w[1..]);
    } else {
      SumAt(w[1..], k - 1);
    }
  }

  lemma InitInv(n: nat)
    ensures Inv(Init(n))
  {
    var h := Init(n).handles;
    SumAt(seq(|h|, i requires 0 <= i < |h| => IsStrong(h[i])), 0);
    SumZero(seq(|h|, i requires 0 <= i < |h| => IsWeak(h[i])));
    SumZero(seq(|h|, i requires 0 <= i < |h| => IsLast(h[i])));
    SumZero(seq(|h|, i requires 0 <= i < |h| => IsDeleting(h[i])));
  }

  /** Any interleaving of operations on any number of handles. */
  function Run(s: State, schedule: seq<Action>): (r: State)
    decreases |schedule|
  {
    if schedule == [] then s else Run(Step(s, schedule[0]), schedule[1..])
  }

  lemma {:induction false} RunKeepsInv(s: State, schedule: seq<Action>)
    requires Inv(s)
    ensures Inv(Run(s, schedule)) && |Run(s, schedule).handles| == |s.handles|
    decreases |schedule|
  {
    hide Inv, Step;
    if schedule != [] {
      Length(s, schedule[0]);
      StepKeepsInv(s, schedule[0]);
      RunKeepsInv(Step(s, schedule[0]), schedule[1..]);
    }
  }

  /** A handle in use: the block must still exist. */
  predicate Uses(h: Handle)
  {
    !h.Null?
  }

  /** While any handle is live or at work the block exists, while a strong handle lives the object
      exists, and neither is disposed of twice. */
  lemma Safe(s: State, i: nat)
    requires Inv(s) && i < |s.handles|
    ensures Uses(s.handles[i]) ==> s.deleted == 0
    ensures s.handles[i].Strong? ==> s.ptr && s.destroyed == 0
    ensures s.destroyed <= 1 && s.deleted <= 1 && (s.deleted == 1 ==> s.destroyed == 1)
  {
    hide Strongs, Weaks, Lasts, Deletings;
    assert HandleOk(s, i);
    CountsChange(s.handles, i, s.handles[i]);
    if s.handles[i].Locking? {
      CountsChange(s.handles, s.handles[i].from, Weak);
    }
  }

  /** Whatever the others do, a lock gives up only when the object is dead: its last strong handle is
      gone, and for good. If it succeeds the object lives. */
  lemma LockVerdict(s: State, i: nat, spurious: bool, schedule: seq<Action>)
    requires Inv(s) && i < |s.handles| && s.handles[i].Locking?
    ensures var s' := Step(s, TryAdd(i, spurious));
            && |s'.handles| == |s.handles| && (s'.handles[i].Null? || s'.handles[i].Strong? || s'.handles[i].Locking?)
            && (s'.handles[i].Null? ==> s.strong == 0 && s'.strong == 0 && Run(s', schedule).strong == 0)
            && (s'.handles[i].Strong? ==> s.strong > 0 && s'.ptr && s'.destroyed == 0)
            && (s'.handles[i].Locking? ==> spurious || s.strong != s.handles[i].count)
  {
    hide Strongs, Weaks, Lasts, Deletings;
    assert HandleOk(s, i);
    var s' := Step(s, TryAdd(i, spurious));
    StepKeepsInv(s, TryAdd(i, spurious));
    if s'.handles[i].Null? {
      DeadForGood(s', schedule);
    }
  }

  lemma {:induction false} DeadForGood(s: State, schedule: seq<Action>)
    requires Inv(s) && s.strong == 0
    ensures Run(s, schedule).strong == 0
    decreases |schedule|
  {
    hide Inv, Step;
    if schedule != [] {
      NoRevival(s, schedule[0]);
      StepKeepsInv(s, schedule[0]);
      DeadForGood(Step(s, schedule[0]), schedule[1..]);
    }
  }

  // Whole calls that nobody disturbs.

  function Spurious(i: nat, k: nat): (a: seq<Action>)
    ensures |a| == k
  {
    seq(k, _ => TryAdd(i, true))
  }

  /** The rest of a lock, however many swaps fail spuriously. */
  lemma {:induction false} LockEnds(s: State, i: nat, j: nat, k: nat)
    requires i < |s.handles| && s.handles[i] == Locking(j, s.strong)
    ensures Run(s, Spurious(i, k) + [TryAdd(i, false)]) ==
            if s.strong > 0 then Set(s, i, Strong).(strong := s.strong + 1) else Set(s, i, Null)
    decreases k
  {
    var schedule := Spurious(i, k) + [TryAdd(i, false)];
    if k == 0 {
      assert schedule == [TryAdd(i, false)] && schedule[1..] == [];
    } else {
      assert schedule[1..] == Spurious(i, k - 1) + [TryAdd(i, false)];
      var s' := Step(s, schedule[0]);
      if s.strong > 0 {
        assert s' == s;
        LockEnds(s, i, j, k - 1);
      } else {
        Idles(s', i, Spurious(i, k - 1) + [TryAdd(i, false)]);
      }
    }
  }

  lemma {:induction false} Idles(s: State, i: nat, schedule: seq<Action>)
    requires Is(s, i, Null) && forall k :: 0 <= k < |schedule| ==> schedule[k].TryAdd? && schedule[k].at == i
    ensures Run(s, schedule) == s
    decreases |schedule|
  {
    if schedule != [] {
      Idles(s, i, schedule[1..]);
    }
  }

  /** `lock` as a whole: while the object lives it makes one more strong handle, after that it makes
      none, and nothing else changes. */
  lemma LockWhole(s: State, i: nat, j: nat, k: nat)
    requires Inv(s) && Is(s, i, Null) && Is(s, j, Weak)
    ensures Step(s, Lock(i, j)) == Set(s, i, Locking(j, s.strong))
    ensures var r := Run(s, [Lock(i, j)] + (Spurious(i, k) + [TryAdd(i, false)]));
            && r == (if s.strong > 0 then s.(handles := s.handles[i := Strong], strong := s.strong + 1) else s)
            && (r.handles[i].Strong? <==> s.ptr && s.strong > 0)
  {
    hide Strongs, Weaks, Lasts, Deletings, Run;
    var rest := Spurious(i, k) + [TryAdd(i, false)];
    var s' := Step(s, Lock(i, j));
    LockEnds(s', i, j, k);
    RunStep(s, Lock(i, j), rest);
    assert s.handles[i := Null] == s.handles;
    assert s'.handles[i := Strong] == s.handles[i := Strong] && s'.handles[i := Null] == s.handles;
  }

  lemma RunStep(s: State, a: Action, rest: seq<Action>)
    ensures Run(s, [a] + rest) == Run(Step(s, a), rest)
    ensures Run(s, [a]) == Step(s, a)
  {
    assert ([a] + rest)[1..] == rest;
    assert [a][1..] == [] && Run(Step(s, a), []) == Step(s, a);
  }

  /** `a = b`, also for weak handles, gives a second handle beside the first, which its release takes
      back; a move gives the handle away, and a move back restores it. */
  lemma CopiesAndMoves(s: State, i: nat, j: nat)
    requires Inv(s) && Is(s, i, Null) && j < |s.handles|
    ensures s.handles[j].Strong? ==>
            && Step(s, Copy(i, j)) == s.(handles := s.handles[i := Strong], strong := s.strong + 1)
            && Run(s, [Copy(i, j), Release(i)]) == s
    ensures s.handles[j].Strong? || s.handles[j].Weak? ==>
            && Step(s, CopyWeak(i, j)) == s.(handles := s.handles[i := Weak], weak := s.weak + 1)
            && Run(s, [CopyWeak(i, j), Release(i)]) == s
    ensures (s.handles[j].Strong? || s.handles[j].Weak?) && !Pinned(s, j) ==>
            && Step(s, Move(i, j)) == s.(handles := s.handles[i := s.handles[j]][j := Null])
            && Run(s, [Move(i, j), Move(j, i)]) == s
  {
    hide Inv, Step, Run, Pinned;
    if s.handles[j].Strong? {
      CopyBack(s, i, j);
    }
    if s.handles[j].Strong? || s.handles[j].Weak? {
      WeakBack(s, i, j);
      if !Pinned(s, j) {
        MoveBack(s, i, j);
      }
    }
  }

  lemma CopyBack(s: State, i: nat, j: nat)
    requires Inv(s) && Is(s, i, Null) && j < |s.handles| && s.handles[j].Strong?
    ensures Step(s, Copy(i, j)) == s.(handles := s.handles[i := Strong], strong := s.strong + 1)
    ensures Run(s, [Copy(i, j), Release(i)]) == s
  {
    hide Strongs, Weaks, Lasts, Deletings, Run, CountsOk;
    Alive(s, j);
    TwoSteps(s, Copy(i, j), Release(i));
    assert s.handles[i := Strong][i := Null] == s.handles;
  }

  lemma WeakBack(s: State, i: nat, j: nat)
    requires Inv(s) && Is(s, i, Null) && j < |s.handles| && (s.handles[j].Strong? || s.handles[j].Weak?)
    ensures Step(s, CopyWeak(i, j)) == s.(handles := s.handles[i := Weak], weak := s.weak + 1)
    ensures Run(s, [CopyWeak(i, j), Release(i)]) == s
  {
    NotPinned(s, i);
    Alive(s, j);
    hide Strongs, Weaks, Lasts, Deletings, Run, CountsOk, HandleOk;
    TwoSteps(s, CopyWeak(i, j), Release(i));
    var s' := s.(handles := s.handles[i := Weak], weak := s.weak + 1);
    OtherFree(s, s', i, i, Weak);
    assert s.handles[i := Weak][i := Null] == s.handles;
  }

  lemma MoveBack(s: State, i: nat, j: nat)
    requires Inv(s) && Is(s, i, Null) && j < |s.handles| && (s.handles[j].Strong? || s.handles[j].Weak?)
             && !Pinned(s, j)
    ensures Step(s, Move(i, j)) == s.(handles := s.handles[i := s.handles[j]][j := Null])
    ensures Run(s, [Move(i, j), Move(j, i)]) == s
  {
    NotPinned(s, i);
    hide Inv, Run, Pinned;
    var (h, s1) := (s.handles[j], s.(handles := s.handles[i := s.handles[j]]));
    var s2 := s1.(handles := s1.handles[j := Null]);
    OtherFree(s, s1, i, i, h);
    OtherFree(s1, s2, i, j, Null);
    TwoSteps(s, Move(i, j), Move(j, i));
    assert s2.handles[j := h][i := Null] == s.handles;
  }

  lemma OtherFree(s: State, s': State, i: nat, j: nat, h: Handle)
    requires j < |s.handles| && !Pinned(s, i) && s'.handles == s.handles[j := h] && !h.Locking?
    ensures !Pinned(s', i)
  {
    forall k | 0 <= k < |s'.handles| && s'.handles[k].Locking?
      ensures s'.handles[k].from != i
    {
      assert s.handles[k].Locking?;
    }
  }

  lemma TwoSteps(s: State, a: Action, b: Action)
    ensures Run(s, [a, b]) == Step(Step(s, a), b)
  {
    RunStep(s, a, [b]);
    RunStep(Step(s, a), b, []);
    assert [a] + [b] == [a, b];
  }

  /** Only weak handles are being locked. */
  lemma NotPinned(s: State, i: nat)
    requires Inv(s) && i < |s.handles| && !s.handles[i].Weak?
    ensures !Pinned(s, i)
  {
    forall j | 0 <= j < |s.handles| && s.handles[j].Locking?
      ensures s.handles[j].from != i
    {
      assert HandleOk(s, j);
    }
  }

  /** What a release does as a whole, with everything that follows from it. */
  function Ending(i: nat): seq<Action>
  {
    [Release(i), Destroy(i), Drop(i), Delete(i)]
  }

  /** The handle is gone; the object is destroyed exactly with its last strong handle, the block
      deleted exactly if nothing else holds it. */
  lemma ReleaseWhole(s: State, i: nat)
    requires Inv(s) && i < |s.handles| && (s.handles[i].Strong? || (s.handles[i].Weak? && !Pinned(s, i)))
    ensures var (r, last) := (Run(s, Ending(i)), s.handles[i].Strong? && s.strong == 1);
            && r.handles == s.handles[i := Null]
            && r.strong == (if s.handles[i].Strong? then s.strong - 1 else s.strong)
            && r.weak == (if s.handles[i].Weak? || last then s.weak - 1 else s.weak)
            && r.ptr == (s.ptr && !last) && r.destroyed == (if last then 1 else s.destroyed)
            && r.deleted == (if s.weak == 1 && (s.handles[i].Weak? || last) then 1 else 0)
  {
    hide Inv, Step, Run, Pinned;
    FourSteps(s, Release(i), Destroy(i), Drop(i), Delete(i));
    ReleaseFirst(s, i);
    var s1 := Step(s, Release(i));
    if s1.handles[i].Destroying? {
      DestroyRest(s1, i);
    } else {
      NothingLeft(s1, i);
    }
  }

  lemma ReleaseFirst(s: State, i: nat)
    requires Inv(s) && i < |s.handles| && (s.handles[i].Strong? || (s.handles[i].Weak? && !Pinned(s, i)))
    ensures var (s', last) := (Step(s, Release(i)), s.handles[i].Strong? && s.strong == 1);
            && s' == s.(handles := s'.handles, strong := s'.strong, weak := s'.weak)
            && s'.handles == s.handles[i := if last then Destroying
                else if s.weak == 1 && s.handles[i].Weak? then Deleting
                else Null]
            && s'.strong == (if s.handles[i].Strong? then s.strong - 1 else s.strong)
            && s'.weak == (if s.handles[i].Weak? then s.weak - 1 else s.weak)
            && s.deleted == 0 && s.weak >= 1 && (last ==> s.ptr && s.destroyed == 0)
  {
    hide Strongs, Weaks, Lasts, Deletings, Run, Pinned, HandleOk, CountsOk;
    Alive(s, i);
    Safe(s, i);
  }

  /** Nothing follows the release of a handle that was not the last. */
  lemma NothingLeft(s: State, i: nat)
    requires i < |s.handles| && (s.handles[i].Null? || s.handles[i].Deleting?)
    ensures Step(Step(Step(s, Destroy(i)), Drop(i)), Delete(i)) ==
            s.(handles := s.handles[i := Null], deleted := if s.handles[i].Null? then s.deleted else s.deleted + 1)
  {
    assert s.handles[i].Null? ==> s.handles[i := Null] == s.handles;
  }

  /** The last strong handle ends the object, and the block if nobody else holds it. */
  lemma DestroyRest(s: State, i: nat)
    requires i < |s.handles| && s.handles[i].Destroying? && s.ptr && s.weak >= 1
    ensures Step(Step(Step(s, Destroy(i)), Drop(i)), Delete(i)) ==
            s.(handles := s.handles[i := Null], ptr := false, destroyed := s.destroyed + 1, weak := s.weak - 1,
                deleted := if s.weak == 1 then s.deleted + 1 else s.deleted)
  {
    var s1 := Step(s, Destroy(i));
    assert s1 == s.(handles := s.handles[i := Dropping], ptr := false, destroyed := s.destroyed + 1);
    var s2 := Step(s1, Drop(i));
    assert s2 == s1.(handles := s1.handles[i := if s.weak == 1 then Deleting else Null], weak := s.weak - 1);
    assert s.handles[i := Dropping][i := Null] == s.handles[i := Null];
  }

  lemma FourSteps(s: State, a: Action, b: Action, c: Action, d: Action)
    ensures Run(s, [a, b, c, d]) == Step(Step(Step(Step(s, a), b), c), d)
  {
    hide Step, Run;
    RunStep(s, a, [b, c, d]);
    RunStep(Step(s, a), b, [c, d]);
    TwoSteps(Step(Step(s, a), b), c, d);
    assert [a] + [b, c, d] == [a, b, c, d] && [b] + [c, d] == [b, c, d];
  }

  lemma AllNull(h: seq<Handle>)
    requires forall i :: 0 <= i < |h| ==> h[i] == Null
    ensures Strongs(h) == 0 && Weaks(h) == 0 && Lasts(h) == 0 && Deletings(h) == 0
  {
    SumZero(seq(|h|, i requires 0 <= i < |h| => IsStrong(h[i])));
    SumZero(seq(|h|, i requires 0 <= i < |h| => IsWeak(h[i])));
    SumZero(seq(|h|, i requires 0 <= i < |h| => IsLast(h[i])));
    SumZero(seq(|h|, i requires 0 <= i < |h| => IsDeleting(h[i])));
  }

  /** Whatever the interleaving: once all handles are gone, the object has been destroyed exactly
      once, and the block has been deleted exactly once. */
  lemma AllGone(n: nat, schedule: seq<Action>)
    ensures var r := Run(Init(n), schedule);
            (forall i :: 0 <= i < |r.handles| ==> r.handles[i] == Null) ==> r.destroyed == 1 && r.deleted == 1
    ensures var r := Run(Init(n), schedule);
            && r.strong == Strongs(r.handles)
            && (Lasts(r.handles) == 0 ==> r.weak == Weaks(r.handles) + if r.strong > 0 then 1 else 0)
  {
    InitInv(n);
    RunKeepsInv(Init(n), schedule);
    var r := Run(Init(n), schedule);
    if forall i :: 0 <= i < |r.handles| ==> r.handles[i] == Null {
      AllNull(r.handles);
    }
  }
}
