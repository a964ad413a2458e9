/** Two tasks that sleep alike, on which the schedulers differ. */
module TiedTasks {
  import opened Wrappers
  import opened Programs
  import opened Timers
  import opened Runtime
  import opened Execution
  import opened Scheduling
  import opened Equivalence
  import opened WholeRuns
  import opened Guarantees

  function Five(env: Env): int {
    5
  }

  function Nothing(env: Env): Val {
    Unit
  }

  const DONE := Return(Nothing)

  /** Sleeps, then posts a task. */
  const POSTER := Sleep(Five, Spawn(DONE, DONE))

  /** Sleeps as long. */
  const SLEEPER := Sleep(Five, DONE)

  function Detached(code: Code, origin: Body, at: int, since: int): Frame {
    Frame(code, [], None, Itself, since, Some(Origin(origin, [], at)))
  }

  function Tasks(frames: seq<Frame>): Store {
    Store(frames, [], false, false)
  }

  const NEW := Tasks([Detached(Start(POSTER), POSTER, 0, 0), Detached(Start(SLEEPER), SLEEPER, 0, 0)])
  const ONE_ASLEEP := Tasks([Detached(Sleeping(5, POSTER), POSTER, 0, 0), Detached(Start(SLEEPER), SLEEPER, 0, 0)])
  const ASLEEP := Tasks([Detached(Sleeping(5, POSTER), POSTER, 0, 0), Detached(Sleeping(5, SLEEPER), SLEEPER, 0, 0)])
  const POSTED := Tasks([Detached(Code.Destroyed(Value(Unit)), POSTER, 0, 5),
    Detached(Sleeping(5, SLEEPER), SLEEPER, 0, 0),
                         Detached(Start(DONE), DONE, 5, 5)])
  const SERVED := Tasks([Detached(Code.Destroyed(Value(Unit)), POSTER, 0, 5),
    Detached(Sleeping(5, SLEEPER), SLEEPER, 0, 0),
                         Detached(Code.Destroyed(Value(Unit)), DONE, 5, 5)])
  const OVER := Tasks([Detached(Code.Destroyed(Value(Unit)), POSTER, 0, 5),
    Detached(Code.Destroyed(Value(Unit)), SLEEPER, 0, 5),
                       Detached(Code.Destroyed(Value(Unit)), DONE, 5, 5)])

  /** The two tasks, launched at time 0. */
  function TwoTasks(): Sys<Store> {
    Launched(Launched(Idle(0), POSTER, [], true), SLEEPER, [], true)
  }

  // ---- One, two or three steps to a resumption ----

  lemma {:induction false} OneStep(s: Store, h: Handle, now: int)
    requires !s.aborted && Mass(s.frames) >= 1 && Step(s, h, now, now).run == None
    ensures var m := Step(s, h, now, now); Resume(s, h, now) == Reaction(m.store, m.posts, m.sleeps)
  {
    hide Step, Mass;
    StandsStill(now, STILL);
    var m := Step(s, h, now, now);
    assert Exec(m.store, None, now, Onward(STILL), Mass(s.frames) - 1) == Lapse(Reaction(m.store, [], []), now);
  }

  lemma {:induction false} MoreSteps(s: Store, h: Handle, now: int, pace: Pace, fuel: nat)
    requires fuel > 0 && Standing(pace)
    ensures var m := Step(s, h, now, now); var l := Exec(m.store, m.run, now, STILL, fuel - 1);
      Exec(s, Some(h), now, pace, fuel).reaction
      == Reaction(l.reaction.state, m.posts + l.reaction.posts, m.sleeps + l.reaction.sleeps)
  {
    hide Step;
    StandsStill(now, pace);
    var m := Step(s, h, now, now);
    ExecStill(m.store, m.run, now, Onward(pace), STILL, fuel - 1);
  }

  lemma {:induction false} Masses()
    ensures Mass(NEW.frames) >= 1 && Mass(ONE_ASLEEP.frames) >= 1 && Mass(ASLEEP.frames) >= 3
    ensures Mass(POSTED.frames) >= 1 && Mass(SERVED.frames) >= 2
  {
    WeightInMass(NEW.frames, 0);
    WeightInMass(ONE_ASLEEP.frames, 1);
    WeightInMass(ASLEEP.frames, 0);
    WeightInMass(POSTED.frames, 2);
    WeightInMass(SERVED.frames, 1);
  }

  // ---- The tasks' resumptions ----

  lemma {:induction false} FallAsleep()
    ensures Resume(NEW, 0, 0) == Reaction(ONE_ASLEEP, [], [Timer(5, 0)])
    ensures Resume(ONE_ASLEEP, 1, 0) == Reaction(ASLEEP, [], [Timer(5, 1)])
  {
    Masses();
    assert Step(NEW, 0, 0, 0).store.frames == ONE_ASLEEP.frames;
    assert Step(ONE_ASLEEP, 1, 0, 0).store.frames == ASLEEP.frames;
    OneStep(NEW, 0, 0);
    OneStep(ONE_ASLEEP, 1, 0);
  }

  lemma {:induction false} WakeAndPost()
    ensures Resume(ASLEEP, 0, 5) == Reaction(POSTED, [2], [])
  {
    Masses();
    var sleeper := Detached(Sleeping(5, SLEEPER), SLEEPER, 0, 0);
    var s1 := Tasks([Detached(Start(Spawn(DONE, DONE)), POSTER, 0, 0), sleeper]);
    var s2 := Tasks([Detached(Start(DONE), POSTER, 0, 0), sleeper, Detached(Start(DONE), DONE, 5, 5)]);
    assert Step(ASLEEP, 0, 5, 5) == Move(s1, Some(0), [], []);
    assert Step(s1, 0, 5, 5) == Move(s2, Some(0), [2], []);
    assert Step(s2, 0, 5, 5) == Move(POSTED, None, [], []);
    hide Step;
    var fuel := Mass(ASLEEP.frames);
    MoreSteps(ASLEEP, 0, 5, STILL, fuel);
    MoreSteps(s1, 0, 5, STILL, fuel - 1);
    MoreSteps(s2, 0, 5, STILL, fuel - 2);
  }

  lemma {:induction false} ServeThePosted()
    ensures Resume(POSTED, 2, 5) == Reaction(SERVED, [], [])
  {
    Masses();
    assert Step(POSTED, 2, 5, 5).store.frames == SERVED.frames;
    OneStep(POSTED, 2, 5);
  }

  lemma {:induction false} WakeTheOther()
    ensures Resume(SERVED, 1, 5) == Reaction(OVER, [], [])
  {
    Masses();
    var s1 := SERVED.(frames := SERVED.frames[1 := Detached(Start(DONE), SLEEPER, 0, 0)]);
    assert Step(SERVED, 1, 5, 5) == Move(s1, Some(1), [], []);
    assert Step(s1, 1, 5, 5).store.frames == OVER.frames;
    assert Step(s1, 1, 5, 5) == Move(OVER, None, [], []);
    hide Step;
    var fuel := Mass(SERVED.frames);
    MoreSteps(SERVED, 1, 5, STILL, fuel);
    MoreSteps(s1, 1, 5, STILL, fuel - 1);
  }

  lemma {:induction false} InOrderOfSleep()
    ensures InsertAll([], [Timer(5, 0)]) == [Timer(5, 0)]
    ensures InsertAll([Timer(5, 0)], [Timer(5, 1)]) == [Timer(5, 0), Timer(5, 1)]
    ensures forall ts :: InsertAll(ts, []) == ts
  {
    assert [Timer(5, 0)][..0] == [] && [Timer(5, 1)][..0] == [];
  }

  // ---- The schedulers differ ----

  const ALARMS := [Timer(5, 0), Timer(5, 1)]

  const LAUNCHED: Sys<Store> := Sys(NEW, [0, 1], [], 0, [], [], [])
  const FIRST_ASLEEP: Sys<Store> := Sys(ONE_ASLEEP, [1], [Timer(5, 0)], 0, [Event(0, 0)], [Timer(5, 0)], [])
  const BOTH_ASLEEP: Sys<Store> := Sys(ASLEEP, [], ALARMS, 0, [Event(0, 0), Event(1, 0)], ALARMS, [])
  const FIRST_AWAKE: Sys<Store> :=
    Sys(POSTED, [2], [Timer(5, 1)], 5, [Event(0, 0), Event(1, 0), Event(0, 5)], ALARMS, [Timer(5, 0)])
  const POST_SERVED: Sys<Store> :=
    Sys(SERVED, [], [Timer(5, 1)], 5, [Event(0, 0), Event(1, 0), Event(0, 5), Event(2, 5)], ALARMS, [Timer(5, 0)])
  const EXHAUSTED: Sys<Store> :=
    Sys(OVER, [], [], 5, [Event(0, 0), Event(1, 0), Event(0, 5), Event(2, 5), Event(1, 5)], ALARMS, ALARMS)

  lemma {:induction false} AsLaunched()
    ensures TwoTasks() == LAUNCHED
  {
    var m := TwoTasks();
    assert m.state.frames == NEW.frames && m.ready == [0, 1];
  }

  lemma {:induction false} BothGoToSleep()
    ensures ServeFront(Resume, LAUNCHED) == FIRST_ASLEEP && ServeFront(Resume, FIRST_ASLEEP) == BOTH_ASLEEP
  {
    hide Resume;
    FallAsleep();
    InOrderOfSleep();
  }

  lemma {:induction false} FirstWakes()
    ensures FireFront(Resume, BOTH_ASLEEP) == FIRST_AWAKE && Clash(Resume, BOTH_ASLEEP)
  {
    hide Resume;
    WakeAndPost();
    InOrderOfSleep();
    assert BOTH_ASLEEP.timers[1..] == [Timer(5, 1)];
  }

  lemma {:induction false} SecondWakes()
    ensures ServeFront(Resume, FIRST_AWAKE) == POST_SERVED && FireFront(Resume, POST_SERVED) == EXHAUSTED
  {
    hide Resume;
    ServeThePosted();
    WakeTheOther();
    InOrderOfSleep();
  }

  /** The advance wakes the first sleeper, serves what it posts, and only then wakes the second. */
  lemma {:induction false} AdvanceOverTie()
    ensures AdvancesTo(Resume, TwoTasks(), 5, 5, EXHAUSTED) && !NoClash(Resume, TwoTasks(), 5, 5)
    ensures EXHAUSTED.trace == [Event(0, 0), Event(1, 0), Event(0, 5), Event(2, 5), Event(1, 5)]
  {
    hide Resume, ServeFront, FireFront, Clash;
    AsLaunched();
    BothGoToSleep();
    FirstWakes();
    SecondWakes();
    assert AdvancesTo(Resume, POST_SERVED, 5, 1, EXHAUSTED);
    assert AdvancesTo(Resume, FIRST_AWAKE, 5, 2, EXHAUSTED);
    assert AdvancesTo(Resume, BOTH_ASLEEP, 5, 3, EXHAUSTED) && !NoClash(Resume, BOTH_ASLEEP, 5, 3);
    assert AdvancesTo(Resume, FIRST_ASLEEP, 5, 4, EXHAUSTED) && !NoClash(Resume, FIRST_ASLEEP, 5, 4);
  }

  /** Two closed programs with equal deadlines on which `Run` has another trace. */
  lemma {:induction false} ClosedProgramsDiffer() returns (n: nat, end: Sys<Store>)
    ensures AdvancesTo(Resume, TwoTasks(), 5, 5, EXHAUSTED)
    ensures RunsOut(Resume, TwoTasks(), n, end) && end.trace != EXHAUSTED.trace
  {
    hide Good, NoClash, AdvancesTo, RunsOut, Resume;
    AdvanceOverTie();
    IdleGood(true, 0);
    LaunchGood(true, Idle(0), POSTER, [], true);
    LaunchGood(true, Launched(Idle(0), POSTER, [], true), SLEEPER, [], true);
    n, end := RunHalts(true, TwoTasks());
    SchedulersAgree(TwoTasks(), 5, 5, EXHAUSTED, n, end);
  }
}
