/** The reader-writer admission lock, and every interleaving of tasks that use it. */
module AdmissionLock {

  /** The lock's three fields; each section below runs under the mutex and is therefore one step. */
  datatype Lock = Lock(readers: int, writer: bool, writeRequested: bool)

  const FREE: Lock := Lock(0, false, false)

  predicate MayShare(l: Lock) { !l.writer && !l.writeRequested }

  predicate MayExclude(l: Lock) { l.readers == 0 && !l.writer }

  function EnterShared(l: Lock): Lock { l.(readers := l.readers + 1) }

  function LeaveShared(l: Lock): Lock { l.(readers := l.readers - 1) }

  function RequestExclusive(l: Lock): Lock { l.(writeRequested := true) }

  function EnterExclusive(l: Lock): Lock { l.(writer := true) }

  function LeaveExclusive(l: Lock): Lock { l.(writer := false, writeRequested := false) }

  class AdmissionLock {
    var readers: int
    var writer: bool
    var writeRequested: bool

    ghost function View(): Lock
      reads this
    {
      Lock(readers, writer, writeRequested)
    }

    constructor ()
      ensures View() == FREE
    {
      readers, writer, writeRequested := 0, false, false;
    }

    method TryShared() returns (entered: bool)
      modifies this
      ensures entered <==> MayShare(old(View()))
      ensures View() == if entered then EnterShared(old(View())) else old(View())
    {
      entered := false;
      if !writer && !writeRequested {
        readers := readers + 1;
        entered := true;
      }
    }

    method ReleaseShared()
      modifies this
      ensures View() == LeaveShared(old(View()))
    {
      readers := readers - 1;
    }

    method Request()
      modifies this
      ensures View() == RequestExclusive(old(View()))
    {
      writeRequested := true;
    }

    method TryExclusive() returns (entered: bool)
      modifies this
      ensures entered <==> MayExclude(old(View()))
      ensures View() == if entered then EnterExclusive(old(View())) else old(View())
    {
      entered := false;
      if readers == 0 && !writer {
        writer := true;
        entered := true;
      }
    }

    method ReleaseExclusive()
      modifies this
      ensures View() == LeaveExclusive(old(View()))
    {
      writer := false;
      writeRequested := false;
    }
  }

  // ---- Sums over tasks ----

  function Total(weights: seq<nat>): nat {
    if weights == [] then 0 else Total(weights[..|weights| - 1]) + weights[|weights| - 1]
  }

  lemma {:induction false} TotalUpdate(weights: seq<nat>, i: nat, w: nat)
    requires i < |weights|
    ensures Total(weights[i := w]) == Total(weights) - weights[i] + w
    decreases |weights|
  {
    var n := |weights| - 1;
    if i == n {
      assert weights[i := w][..n] == weights[..n];
    } else {
      assert weights[i := w][..n] == weights[..n][i := w];
      TotalUpdate(weights[..n], i, w);
    }
  }

  lemma {:induction false} TotalCovers(weights: seq<nat>, i: nat, j: nat)
    requires i < |weights| && j < |weights|
    ensures weights[i] <= Total(weights)
    ensures i != j ==> weights[i] + weights[j] <= Total(weights)
    decreases |weights|
  {
    var n := |weights| - 1;
    if i < n && j < n {
      TotalCovers(weights[..n], i, j);
    } else if i < n {
      TotalCovers(weights[..n], i, i);
    } else if j < n {
      TotalCovers(weights[..n], j, j);
    }
  }

  lemma {:induction false} TotalZero(weights: seq<nat>)
    requires forall i :: 0 <= i < |weights| ==> weights[i] == 0
    ensures Total(weights) == 0
    decreases |weights|
  {
    if weights != [] { TotalZero(weights[..|weights| - 1]); }
  }

  lemma {:induction false} TotalPositive(weights: seq<nat>) returns (i: nat)
    requires Total(weights) > 0
    ensures i < |weights| && weights[i] > 0
    decreases |weights|
  {
    i := |weights| - 1;
    if weights[i] == 0 { i := TotalPositive(weights[..i]); }
  }

  // ---- Tasks ----

  datatype Want = Nothing | WantShared | WantExclusive

  /** How many shared and exclusive sections a task is inside of, and what it is waiting for. */
  datatype Task = Task(shared: nat, exclusive: nat, want: Want)

  datatype Action = AskShared | AskExclusive | Poll | ExitShared | ExitExclusive

  datatype Step = Step(task: nat, action: Action)

  datatype System = System(lock: Lock, tasks: seq<Task>)

  /** A step that is not enabled leaves the system as it is: the task polls again later. */
  function Move(s: System, step: Step): System {
    if step.task >= |s.tasks| then s else
      var i, t := step.task, s.tasks[step.task];
      match step.action
      case AskShared =>
        if t.want != Nothing then s else s.(tasks := s.tasks[i := t.(want := WantShared)])
      case AskExclusive =>
        if t.want != Nothing then s
        else System(RequestExclusive(s.lock), s.tasks[i := t.(want := WantExclusive)])
      case Poll =>
        if t.want == WantShared && MayShare(s.lock)
        then System(EnterShared(s.lock), s.tasks[i := t.(shared := t.shared + 1, want := Nothing)])
        else if t.want == WantExclusive && MayExclude(s.lock)
        then System(EnterExclusive(s.lock), s.tasks[i := t.(exclusive := t.exclusive + 1, want := Nothing)])
        else s
      case ExitShared =>
        if t.want != Nothing || t.shared == 0 then s
        else System(LeaveShared(s.lock), s.tasks[i := t.(shared := t.shared - 1)])
      case ExitExclusive =>
        if t.want != Nothing || t.exclusive == 0 then s
        else System(LeaveExclusive(s.lock), s.tasks[i := t.(exclusive := t.exclusive - 1)])
  }

  function Exec(s: System, steps: seq<Step>): System
    decreases |steps|
  {
    if steps == [] then s else Move(Exec(s, steps[..|steps| - 1]), steps[|steps| - 1])
  }

  function Shares(tasks: seq<Task>): seq<nat> {
    seq(|tasks|, i requires 0 <= i < |tasks| => tasks[i].shared)
  }

  function Exclusions(tasks: seq<Task>): seq<nat> {
    seq(|tasks|, i requires 0 <= i < |tasks| => tasks[i].exclusive)
  }

  /** The counters mean what they are for: shared sections are counted, at most one exclusive section is marked, never both. */
  ghost predicate Sound(s: System) {
    && s.lock.readers == Total(Shares(s.tasks))
    && Total(Exclusions(s.tasks)) == (if s.lock.writer then 1 else 0)
    && (s.lock.writer ==> s.lock.readers == 0)
  }

  lemma TaskUpdate(tasks: seq<Task>, i: nat, t: Task)
    requires i < |tasks|
    ensures Total(Shares(tasks[i := t])) == Total(Shares(tasks)) - tasks[i].shared + t.shared
    ensures Total(Exclusions(tasks[i := t])) == Total(Exclusions(tasks)) - tasks[i].exclusive + t.exclusive
    ensures tasks[i].shared <= Total(Shares(tasks)) && tasks[i].exclusive <= Total(Exclusions(tasks))
  {
    assert Shares(tasks[i := t]) == Shares(tasks)[i := t.shared];
    assert Exclusions(tasks[i := t]) == Exclusions(tasks)[i := t.exclusive];
    TotalUpdate(Shares(tasks), i, t.shared);
    TotalUpdate(Exclusions(tasks), i, t.exclusive);
    TotalCovers(Shares(tasks), i, i);
    TotalCovers(Exclusions(tasks), i, i);
  }

  // ---- The counters in every run ----

  lemma MoveSound(s: System, step: Step)
    requires Sound(s)
    ensures Sound(Move(s, step)) && |Move(s, step).tasks| == |s.tasks|
  {
    hide Total, Shares, Exclusions;
    var s' := Move(s, step);
    if step.task < |s.tasks| && s'.tasks != s.tasks {
      assert s'.tasks == s.tasks[step.task := s'.tasks[step.task]];
      TaskUpdate(s.tasks, step.task, s'.tasks[step.task]);
    }
  }

  lemma {:induction false} ExecSound(s: System, steps: seq<Step>)
    requires Sound(s)
    ensures Sound(Exec(s, steps)) && |Exec(s, steps).tasks| == |s.tasks|
    decreases |steps|
  {
    hide Sound, Move;
    if steps != [] {
      ExecSound(s, steps[..|steps| - 1]);
      MoveSound(Exec(s, steps[..|steps| - 1]), steps[|steps| - 1]);
    }
  }

  lemma StartSound(tasks: seq<Task>)
    requires forall i :: 0 <= i < |tasks| ==> tasks[i] == Task(0, 0, Nothing)
    ensures Sound(System(FREE, tasks))
  {
    TotalZero(Shares(tasks));
    TotalZero(Exclusions(tasks));
  }

  ghost predicate SomeInside(s: System) {
    exists i :: 0 <= i < |s.tasks| && s.tasks[i].exclusive > 0
  }

  /**
   * In every run of any number of tasks: a task inside an exclusive section is there once and alone, the writer
   * mark is set exactly while there is one, and the reader count is zero exactly when no task is in a shared section.
   */
  lemma MutualExclusion(tasks: seq<Task>, steps: seq<Step>, i: nat, j: nat)
    requires forall k :: 0 <= k < |tasks| ==> tasks[k] == Task(0, 0, Nothing)
    requires i < |tasks| && j < |tasks|
    ensures var s := Exec(System(FREE, tasks), steps);
            && |s.tasks| == |tasks|
            && s.lock.readers == Total(Shares(s.tasks))
            && (s.lock.writer <==> SomeInside(s))
            && (s.tasks[i].exclusive > 0 ==> s.tasks[i].exclusive == 1 && s.tasks[j].shared == 0)
            && (i != j && s.tasks[i].exclusive > 0 ==> s.tasks[j].exclusive == 0)
  {
    hide Exec;
    StartSound(tasks);
    ExecSound(System(FREE, tasks), steps);
    var s := Exec(System(FREE, tasks), steps);
    SoundMeans(s, i, j);
  }

  lemma SoundMeans(s: System, i: nat, j: nat)
    requires Sound(s) && i < |s.tasks| && j < |s.tasks|
    ensures s.lock.writer <==> SomeInside(s)
    ensures s.tasks[i].exclusive > 0 ==> s.tasks[i].exclusive == 1 && s.tasks[j].shared == 0
    ensures i != j && s.tasks[i].exclusive > 0 ==> s.tasks[j].exclusive == 0
    ensures s.lock.readers >= s.tasks[j].shared
  {
    hide Total;
    TotalCovers(Shares(s.tasks), j, j);
    TotalCovers(Exclusions(s.tasks), i, j);
    if s.lock.writer {
      var k := TotalPositive(Exclusions(s.tasks));
      assert s.tasks[k].exclusive > 0;
    } else if SomeInside(s) {
      var k :| 0 <= k < |s.tasks| && s.tasks[k].exclusive > 0;
      TotalCovers(Exclusions(s.tasks), k, k);
    }
  }

  // ---- Who may enter ----

  /** Step k asks for an exclusive section and is heard. */
  predicate AsksAt(s: System, steps: seq<Step>, k: int) {
    && 0 <= k < |steps| && steps[k].action == AskExclusive && steps[k].task < |s.tasks|
    && var t := Exec(s, steps[..k]); steps[k].task < |t.tasks| && t.tasks[steps[k].task].want == Nothing
  }

  /** Step k ends an exclusive section. */
  predicate LeavesAt(s: System, steps: seq<Step>, k: int) {
    && 0 <= k < |steps| && steps[k].action == ExitExclusive && steps[k].task < |s.tasks|
    && var t := Exec(s, steps[..k]);
       steps[k].task < |t.tasks| && t.tasks[steps[k].task].want == Nothing && t.tasks[steps[k].task].exclusive > 0
  }

  /** Some task has asked for an exclusive section since the last time a writer left. */
  ghost predicate AskedSince(s: System, steps: seq<Step>) {
    exists k :: AsksAt(s, steps, k) && forall j :: k < j < |steps| ==> !LeavesAt(s, steps, j)
  }

  lemma EarlierSteps(s: System, steps: seq<Step>, k: int)
    requires steps != [] && k < |steps| - 1
    ensures AsksAt(s, steps, k) <==> AsksAt(s, steps[..|steps| - 1], k)
    ensures LeavesAt(s, steps, k) <==> LeavesAt(s, steps[..|steps| - 1], k)
  {
    hide Exec;
    if 0 <= k { assert steps[..|steps| - 1][..k] == steps[..k] && steps[..|steps| - 1][k] == steps[k]; }
  }

  /** The last step sets the flag when it is a request, clears it when a writer leaves, and else leaves it. */
  lemma AskedLast(s: System, steps: seq<Step>)
    requires steps != []
    ensures var (init, last) := (steps[..|steps| - 1], |steps| - 1);
            AskedSince(s, steps) <==> AsksAt(s, steps, last) || (AskedSince(s, init) && !LeavesAt(s, steps, last))
  {
    hide AsksAt, LeavesAt;
    var init, last := steps[..|steps| - 1], |steps| - 1;
    forall k | k < last ensures (AsksAt(s, steps, k) <==> AsksAt(s, init, k)) && (LeavesAt(s, steps, k) <==> LeavesAt(s, init, k)) {
      EarlierSteps(s, steps, k);
    }
    AskRange(s, steps);
    AskRange(s, init);
    if AskedSince(s, steps) {
      var k :| AsksAt(s, steps, k) && forall j :: k < j < |steps| ==> !LeavesAt(s, steps, j);
      if k < last { assert AsksAt(s, init, k); }
    }
    if AskedSince(s, init) && !LeavesAt(s, steps, last) {
      var k :| AsksAt(s, init, k) && forall j :: k < j < |init| ==> !LeavesAt(s, init, j);
      assert AsksAt(s, steps, k);
    }
  }

  lemma AskRange(s: System, steps: seq<Step>)
    ensures forall k :: AsksAt(s, steps, k) ==> 0 <= k < |steps|
  {
    hide Exec;
  }

  lemma {:induction false} ExecTasks(s: System, steps: seq<Step>)
    ensures |Exec(s, steps).tasks| == |s.tasks|
    decreases |steps|
  {
    if steps != [] { ExecTasks(s, steps[..|steps| - 1]); }
  }

  /** In every run the request flag is set exactly while a request is younger than the last exit of a writer. */
  lemma {:induction false} FlagMeaning(s: System, steps: seq<Step>)
    requires !s.lock.writeRequested
    ensures Exec(s, steps).lock.writeRequested <==> AskedSince(s, steps)
    decreases |steps|
  {
    hide AskedSince, Move;
    if steps == [] {
      NoneAsked(s);
    } else {
      FlagMeaning(s, steps[..|steps| - 1]);
      AskedLast(s, steps);
      ExecTasks(s, steps[..|steps| - 1]);
      FlagStep(Exec(s, steps[..|steps| - 1]), steps[|steps| - 1]);
    }
  }

  lemma NoneAsked(s: System)
    ensures !AskedSince(s, [])
  {
  }

  lemma FlagStep(s: System, step: Step)
    ensures var t := Move(s, step);
            t.lock.writeRequested <==>
              (step.task < |s.tasks| && step.action == AskExclusive && s.tasks[step.task].want == Nothing)
              || (s.lock.writeRequested && !(step.task < |s.tasks| && step.action == ExitExclusive
                    && s.tasks[step.task].want == Nothing && s.tasks[step.task].exclusive > 0))
  {
  }

  ghost predicate AllOutside(s: System) {
    forall k :: 0 <= k < |s.tasks| ==> s.tasks[k].shared == 0 && s.tasks[k].exclusive == 0
  }

  /**
   * In every run: a task waiting for an exclusive section gets in exactly when nobody is inside any section, and one
   * waiting for a shared section exactly when no writer is inside and none has asked since the last one left.
   */
  lemma WaitersEnterExactlyWhen(tasks: seq<Task>, steps: seq<Step>, i: nat)
    requires forall k :: 0 <= k < |tasks| ==> tasks[k] == Task(0, 0, Nothing)
    requires i < |tasks|
    ensures var (s, t) := (Exec(System(FREE, tasks), steps), Exec(System(FREE, tasks), steps + [Step(i, Poll)]));
            && |s.tasks| == |t.tasks| == |tasks|
            && (s.tasks[i].want == WantExclusive ==>
                  if AllOutside(s) then t.tasks[i] == Task(0, 1, Nothing) else t.tasks[i] == s.tasks[i])
            && (s.tasks[i].want == WantShared ==>
                  if !SomeInside(s) && !AskedSince(System(FREE, tasks), steps)
                  then t.tasks[i] == s.tasks[i].(shared := s.tasks[i].shared + 1, want := Nothing) else t.tasks[i] == s.tasks[i])
  {
    hide Exec, AskedSince, Sound;
    var s0 := System(FREE, tasks);
    var s := Exec(s0, steps);
    StartSound(tasks);
    ExecSound(s0, steps);
    FlagMeaning(s0, steps);
    SoundMeans(s, i, i);
    FreeMeans(s);
    ExecOne(s0, steps, Step(i, Poll), steps + [Step(i, Poll)]);
  }

  lemma FreeMeans(s: System)
    requires Sound(s)
    ensures s.lock.readers == 0 && !s.lock.writer <==> AllOutside(s)
  {
    hide Total;
    if s.lock.readers == 0 && !s.lock.writer {
      forall k | 0 <= k < |s.tasks| ensures s.tasks[k].shared == 0 && s.tasks[k].exclusive == 0 {
        TotalCovers(Shares(s.tasks), k, k);
        TotalCovers(Exclusions(s.tasks), k, k);
      }
    }
    if AllOutside(s) {
      TotalZero(Shares(s.tasks));
      TotalZero(Exclusions(s.tasks));
    }
  }

  // ---- Draining ----

  predicate NoWriterLeaves(steps: seq<Step>) {
    forall k :: 0 <= k < |steps| ==> steps[k].action != ExitExclusive
  }

  /** From a write request until some writer leaves, the reader count never rises. */
  lemma {:induction false} RequestDrains(s: System, steps: seq<Step>, k: nat)
    requires s.lock.writeRequested && NoWriterLeaves(steps) && k <= |steps|
    ensures Exec(s, steps).lock.writeRequested
    ensures Exec(s, steps).lock.readers <= Exec(s, steps[..k]).lock.readers
    decreases |steps|
  {
    if k < |steps| {
      var n := |steps| - 1;
      RequestDrains(s, steps[..n], k);
      assert steps[..n][..k] == steps[..k];
    } else {
      assert steps[..k] == steps;
      if steps != [] { RequestDrains(s, steps[..|steps| - 1], 0); }
    }
  }

  /** The flag is shared by all writers: the first one to leave clears it, and a reader overtakes the second. */
  lemma SecondWriterIsOvertaken()
    ensures var steps := [Step(0, AskExclusive), Step(0, Poll), Step(1, AskExclusive), Step(0, ExitExclusive),
                          Step(2, AskShared), Step(2, Poll)];
            var s := Exec(System(FREE, [Task(0, 0, Nothing), Task(0, 0, Nothing), Task(0, 0, Nothing)]), steps);
            |s.tasks| == 3 && s.tasks[1].want == WantExclusive && s.tasks[2].shared == 1 && s.lock.readers == 1
  {
    var idle := Task(0, 0, Nothing);
    var s0 := System(FREE, [idle, idle, idle]);
    var s1 := Move(s0, Step(0, AskExclusive));
    var s2 := Move(s1, Step(0, Poll));
    var s3 := Move(s2, Step(1, AskExclusive));
    var s4 := Move(s3, Step(0, ExitExclusive));
    var s5 := Move(s4, Step(2, AskShared));
    assert s5 == System(Lock(0, false, false), [idle, Task(0, 0, WantExclusive), Task(0, 0, WantShared)]);
    var a0, a1, a2, a3 := Step(0, AskExclusive), Step(0, Poll), Step(1, AskExclusive), Step(0, ExitExclusive);
    var a4, a5 := Step(2, AskShared), Step(2, Poll);
    assert Exec(s0, []) == s0;
    ExecOne(s0, [], a0, [a0]);
    ExecOne(s0, [a0], a1, [a0, a1]);
    ExecOne(s0, [a0, a1], a2, [a0, a1, a2]);
    ExecOne(s0, [a0, a1, a2], a3, [a0, a1, a2, a3]);
    ExecOne(s0, [a0, a1, a2, a3], a4, [a0, a1, a2, a3, a4]);
    ExecOne(s0, [a0, a1, a2, a3, a4], a5, [a0, a1, a2, a3, a4, a5]);
  }

  lemma ExecOne(s: System, before: seq<Step>, step: Step, steps: seq<Step>)
    requires steps == before + [step]
    ensures Exec(s, steps) == Move(Exec(s, before), step)
  {
    assert steps[..|before|] == before;
  }

  // ---- Nesting ----

  /** A task that asks for a shared section from inside an exclusive one. */
  predicate NestedShared(s: System, i: nat) {
    i < |s.tasks| && s.tasks[i].exclusive > 0 && s.tasks[i].want == WantShared
  }

  /** A task that asks for an exclusive section from inside a shared one. */
  predicate NestedExclusive(s: System, i: nat) {
    i < |s.tasks| && s.tasks[i].shared > 0 && s.tasks[i].want == WantExclusive && s.lock.writeRequested
  }

  lemma NestedSharedStep(s: System, i: nat, step: Step)
    requires Sound(s) && NestedShared(s, i)
    ensures Move(s, step).tasks[i] == s.tasks[i] && NestedShared(Move(s, step), i)
    ensures !MayShare(Move(s, step).lock) && !MayExclude(Move(s, step).lock)
  {
    hide Total;
    SoundMeans(s, i, if step.task < |s.tasks| then step.task else i);
  }

  /** It never proceeds, in any continuation, and neither does any other task that waits to get in. */
  lemma {:induction false} NestedSharedNeverProceeds(s: System, i: nat, steps: seq<Step>)
    requires Sound(s) && NestedShared(s, i)
    ensures i < |Exec(s, steps).tasks| && Exec(s, steps).tasks[i] == s.tasks[i]
    ensures !MayShare(Exec(s, steps).lock) && !MayExclude(Exec(s, steps).lock)
    decreases |steps|
  {
    hide Move, Sound;
    if steps == [] {
      NestedSharedStep(s, i, Step(|s.tasks|, Poll));
      NoTask(s);
    } else {
      var n := |steps| - 1;
      NestedSharedNeverProceeds(s, i, steps[..n]);
      ExecSound(s, steps[..n]);
      NestedSharedStep(Exec(s, steps[..n]), i, steps[n]);
    }
  }

  lemma NoTask(s: System)
    ensures Move(s, Step(|s.tasks|, Poll)) == s
  {
  }

  lemma NestedExclusiveStep(s: System, i: nat, step: Step)
    requires Sound(s) && NestedExclusive(s, i)
    ensures Move(s, step).tasks[i] == s.tasks[i] && NestedExclusive(Move(s, step), i)
    ensures !MayShare(Move(s, step).lock) && !MayExclude(Move(s, step).lock)
  {
    hide Total;
    if step.task < |s.tasks| {
      SoundMeans(s, step.task, i);
      MoveSound(s, step);
      SoundMeans(Move(s, step), step.task, i);
    } else {
      SoundMeans(s, i, i);
    }
  }

  /** Asking the other way round blocks everything just the same. */
  lemma {:induction false} NestedExclusiveNeverProceeds(s: System, i: nat, steps: seq<Step>)
    requires Sound(s) && NestedExclusive(s, i)
    ensures NestedExclusive(Exec(s, steps), i) && Exec(s, steps).tasks[i] == s.tasks[i]
    ensures !MayShare(Exec(s, steps).lock) && !MayExclude(Exec(s, steps).lock)
    decreases |steps|
  {
    hide Move, Sound;
    if steps == [] {
      NestedExclusiveStep(s, i, Step(|s.tasks|, Poll));
      NoTask(s);
    } else {
      var n := |steps| - 1;
      NestedExclusiveNeverProceeds(s, i, steps[..n]);
      ExecSound(s, steps[..n]);
      NestedExclusiveStep(Exec(s, steps[..n]), i, steps[n]);
    }
  }
}
