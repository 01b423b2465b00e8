/** A run that reuses an id and loses an acknowledged put: the assumption of timely links is needed. */
module LostPut {
  import opened Base
  import opened Names
  import opened Lifecycle
  import opened Protocol
  import opened Phases

  const DELETE_A := Op(Delete, "a", "", [], [], "")
  const PUT_A := Op(Put, "a", "b", [], [], "")

  /** One stored file `a.b`; two deletes and a put of the same id have just arrived. */
  const ARRIVED := Sys(
    Shared(Disk(map[Data("a", "b") := 0], map[0 := Node([], true)], 1, map["a" := []]), map["a" := "b"], {"a"}, 0, 0),
    map[1 := Task(DELETE_A, Start, []), 2 := Task(DELETE_A, Start, []), 3 := Task(PUT_A, Start, [])])

  /** The process just started, over that one file. */
  const ONE_FILE := Sys(ARRIVED.sh, map[])

  lemma OneFileIsInitial()
    ensures Initial(ONE_FILE)
  {
    assert IndexOf(ONE_FILE.sh.disk.dir.Keys) == map["a" := "b"];
    assert ValidComponent("a") && ValidComponent("b");
  }

  lemma ArrivedIsReachable()
    ensures Initial(ONE_FILE) && Enabled(ONE_FILE, Spawn(1, DELETE_A))
    ensures var s1 := Apply(ONE_FILE, Spawn(1, DELETE_A));
            && Enabled(s1, Spawn(2, DELETE_A))
            && var s2 := Apply(s1, Spawn(2, DELETE_A));
               Enabled(s2, Spawn(3, PUT_A)) && Apply(s2, Spawn(3, PUT_A)) == ARRIVED
  {
    OneFileIsInitial();
    assert ValidComponent("a") && ValidComponent("b");
    var s2 := Apply(Apply(ONE_FILE, Spawn(1, DELETE_A)), Spawn(2, DELETE_A));
    assert Apply(s2, Spawn(3, PUT_A)).tasks == ARRIVED.tasks;
  }

  /** The first delete reads the extension; the second deletes the file; the put is about to link a new one. */
  function Poised(): Sys {
    StepMany(StepMany(Step(ARRIVED, 1, true), 2, 3), 3, 5)
  }

  /** The put links its file; the first delete unlinks it; the put indexes it and reports success. */
  function Finished(): Sys {
    StepMany(StepMany(Step(Poised(), 3, true), 1, 2), 3, 3)
  }

  const DELETED_A := Task(DELETE_A, Done(Deleted(true)), [])

  const POISE := Sys(
    Shared(Disk(map[Reserve("a") := 1, Temp("a", 0, 0) := 2],
                map[0 := Node([], true), 1 := Node([], false), 2 := Node([], false)], 3, map["a" := []]),
           map[], {"a"}, 0, 1),
    map[1 := Task(DELETE_A, Seen("b"), []), 2 := DELETED_A, 3 := Task(PUT_A, Flushed(0), [])])

  /** The second delete is done; the first has not moved since it read the extension. */
  const OVERTAKEN := Sys(
    Shared(Disk(map[], map[0 := Node([], true)], 1, map["a" := []]), map[], {"a"}, 0, 0),
    map[1 := Task(DELETE_A, Seen("b"), []), 2 := DELETED_A, 3 := Task(PUT_A, Start, [])])

  /** The put's file is linked and already unlinked again. */
  const STRUCK := Sys(
    Shared(Disk(map[Reserve("a") := 1, Temp("a", 0, 0) := 2],
                map[0 := Node([], true), 1 := Node([], false), 2 := Node([], true)], 3, map["a" := []]),
           map[], {"a"}, 0, 1),
    map[1 := DELETED_A, 2 := DELETED_A, 3 := Task(PUT_A, Published(0), [])])

  lemma ThreeSteps(s: Sys, t: Tid)
    requires t in s.tasks
    ensures StepMany(s, t, 3) == Step(Step(Step(s, t, true), t, true), t, true)
  {
    var s1 := Step(s, t, true);
    var s2 := Step(s1, t, true);
    assert StepMany(s, t, 3) == StepMany(s1, t, 2) == StepMany(s2, t, 1);
  }

  /** The first delete has read the extension. */
  const ALERT := Sys(ARRIVED.sh, map[1 := Task(DELETE_A, Seen("b"), []), 2 := Task(DELETE_A, Start, []), 3 := Task(PUT_A, Start, [])])

  /** So has the second, and it has unlinked the file. */
  const UNLINKED := Sys(
    ARRIVED.sh.(disk := ARRIVED.sh.disk.(dir := map[])),
    map[1 := Task(DELETE_A, Seen("b"), []), 2 := Task(DELETE_A, Unlinked, []), 3 := Task(PUT_A, Start, [])])

  lemma AlertIs()
    ensures Step(ARRIVED, 1, true) == ALERT
  {
    assert Step(ARRIVED, 1, true).tasks == ALERT.tasks;
  }

  lemma UnlinkedIs()
    ensures Step(Step(ALERT, 2, true), 2, true) == UNLINKED
  {
    var s := Step(ALERT, 2, true);
    assert s.tasks[2] == Task(DELETE_A, Seen("b"), []);
    assert Step(s, 2, true).sh.disk.dir == map[];
    assert Step(s, 2, true).tasks == UNLINKED.tasks;
  }

  lemma OvertakenIs()
    ensures StepMany(Step(ARRIVED, 1, true), 2, 3) == OVERTAKEN
  {
    AlertIs();
    UnlinkedIs();
    ThreeSteps(ALERT, 2);
    assert Step(UNLINKED, 2, true).sh.index == map[];
    assert Step(UNLINKED, 2, true).tasks == OVERTAKEN.tasks;
  }

  lemma PoisedIs()
    ensures StepMany(OVERTAKEN, 3, 5) == POISE
  {
    var s1 := Step(OVERTAKEN, 3, true);
    var s2 := Step(s1, 3, true);
    assert StepMany(OVERTAKEN, 3, 5) == StepMany(s1, 3, 4) == StepMany(s2, 3, 3);
    ThreeSteps(s2, 3);
    var s5 := StepMany(s2, 3, 3);
    assert s2.tasks[3] == Task(PUT_A, Space, []) && s5.tasks[3] == Task(PUT_A, Flushed(0), []);
    assert s5.sh.disk.dir == POISE.sh.disk.dir;
    assert s5.sh.disk.data == POISE.sh.disk.data;
    assert s5.tasks == POISE.tasks;
  }

  const EXPOSURE := STRUCK.(
    sh := STRUCK.sh.(disk := STRUCK.sh.disk.(dir := STRUCK.sh.disk.dir[Data("a", "b") := 2])),
    tasks := STRUCK.tasks[1 := Task(DELETE_A, Seen("b"), [])])

  lemma ExposureIs()
    ensures LinkMade(POISE.sh, POISE.tasks[3], true) == Some(("a", "b")) && !Timely(POISE, Run(3, true))
    ensures Step(POISE, 3, true) == EXPOSURE
  {
    assert Roles(POISE.tasks)[1].seen == Some(("a", "b"));
    assert Step(POISE, 3, true).sh.disk.data == EXPOSURE.sh.disk.data;
    assert Step(POISE, 3, true).tasks == EXPOSURE.tasks;
  }

  /** The first delete has unlinked the new file. */
  const HIT := STRUCK.(tasks := STRUCK.tasks[1 := Task(DELETE_A, Unlinked, [])])

  lemma HitIs()
    ensures Step(EXPOSURE, 1, true) == HIT
  {
    assert Step(EXPOSURE, 1, true).sh.disk.dir == HIT.sh.disk.dir;
    assert Step(EXPOSURE, 1, true).tasks == HIT.tasks;
  }

  lemma StruckIs()
    ensures StepMany(EXPOSURE, 1, 2) == STRUCK
  {
    HitIs();
    assert StepMany(EXPOSURE, 1, 2) == StepMany(HIT, 1, 1) == Step(HIT, 1, true);
    assert Step(HIT, 1, true).tasks == STRUCK.tasks;
  }

  lemma StruckFinishes()
    ensures var s := StepMany(STRUCK, 3, 3);
            && s.sh.disk.dir == map[] && s.sh.index == map["a" := "b"]
            && s.tasks[1] == DELETED_A && s.tasks[3] == Task(PUT_A, Done(Success), [])
  {
    ThreeSteps(STRUCK, 3);
    assert StepMany(STRUCK, 3, 3).sh.disk.dir.Keys == {};
  }

  /** The link is untimely; the put then reports success, its file is gone, and its index entry stays. */
  lemma PutIsLost()
    ensures LinkMade(Poised().sh, Poised().tasks[3], true) == Some(("a", "b")) && !Timely(Poised(), Run(3, true))
    ensures Finished().tasks[3].pc == Done(Success) && Finished().tasks[1].pc == Done(Deleted(true))
    ensures Finished().sh.index == map["a" := "b"] && Finished().sh.disk.dir == map[]
  {
    OvertakenIs();
    PoisedIs();
    ExposureIs();
    StruckIs();
    StruckFinishes();
  }
}
