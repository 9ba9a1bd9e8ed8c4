/** What holds of every run of the reservation protocol. */
module ReservationTheorems {
  import opened Wrappers
  import opened Reservation

  /** No run, no failure and no crash leaves anything but a whole envelope of its kind behind a fixed name. */
  lemma FixedFilesAreWhole(steps: seq<Step>, kind: Kind)
    ensures var w := Run(INITIAL, steps);
            Fixed(kind) in w.dir.now ==> exists pair :: Holds(w.inodes, w.dir.now[Fixed(kind)], kind, pair)
  {
    RunKeeps(INITIAL, steps);
    assert FixedInv(Run(INITIAL, steps).dir, Run(INITIAL, steps).inodes, kind);
  }

  // ----- One reservation per kind -------------------------------------------------------------------

  /** What may be reported of a kind once `pair` is reserved for it: that pair, or an error. */
  predicate Agrees(e: Event, kind: Kind, pair: Pair) {
    e.kind == kind ==> e.CreateFailed? || e.LoadFailed? || e == Loaded(kind, Some(pair))
  }

  /** A step reports at most one thing, and about a reserved kind only what agrees with the reservation. */
  lemma StepAgrees(w: World, step: Step, kind: Kind, pair: Pair)
    requires Inv(w) && Created(kind, pair) in w.log
    ensures w.log <= Apply(w, step).log && |Apply(w, step).log| <= |w.log| + 1
            && Created(kind, pair) in Apply(w, step).log
    ensures |Apply(w, step).log| > |w.log| ==> Agrees(Apply(w, step).log[|w.log|], kind, pair)
  {
    assert Reserved(w.dir, w.inodes, w.processes, kind, pair);
    if step.Proceed? && step.pid in w.processes {
      var process := w.processes[step.pid];
      assert ProcessInv(w.dir, w.inodes, process);
    }
  }

  lemma {:induction false} LaterEventsAgree(w: World, steps: seq<Step>, kind: Kind, pair: Pair, j: nat)
    requires Inv(w) && Created(kind, pair) in w.log && |w.log| <= j < |Run(w, steps).log|
    ensures Agrees(Run(w, steps).log[j], kind, pair)
    decreases |steps|
  {
    if steps != [] {
      var next := Apply(w, steps[0]);
      StepKeeps(w, steps[0]);
      StepAgrees(w, steps[0], kind, pair);
      if j < |next.log| {
        LogGrows(next, steps[1..]);
        assert Run(w, steps).log[j] == next.log[j];
      } else {
        LaterEventsAgree(next, steps[1..], kind, pair, j);
      }
    }
  }

  lemma StepLogs(w: World, step: Step)
    ensures w.log <= Apply(w, step).log && |Apply(w, step).log| <= |w.log| + 1
  {
  }

  lemma {:induction false} LogGrows(w: World, steps: seq<Step>)
    ensures w.log <= Run(w, steps).log
    decreases |steps|
  {
    if steps != [] {
      StepLogs(w, steps[0]);
      LogGrows(Apply(w, steps[0]), steps[1..]);
    }
  }

  /** The moment an event was reported. */
  lemma {:induction false} ReportedAt(w: World, steps: seq<Step>, i: nat) returns (before: seq<Step>, after: seq<Step>)
    requires |w.log| <= i < |Run(w, steps).log|
    ensures steps == before + after && i < |Run(w, before).log| <= i + 1
    ensures Run(w, steps) == Run(Run(w, before), after)
    decreases |steps|
  {
    var next := Apply(w, steps[0]);
    StepLogs(w, steps[0]);
    if i < |next.log| {
      before, after := [steps[0]], steps[1..];
      assert Run(next, [steps[0]][1..]) == next;
    } else {
      var b, a := ReportedAt(next, steps[1..], i);
      before, after := [steps[0]] + b, a;
      assert before[1..] == b;
    }
  }

  /**
   Over every run, failures, kills and crashes included: once a creation has been reported, no other
   creation of its kind is, and every load reported later of that kind is that pair or an error, never
   nothing and never another pair.
   */
  lemma OneReservationForever(steps: seq<Step>, i: nat, j: nat)
    requires i < j < |Run(INITIAL, steps).log| && Run(INITIAL, steps).log[i].Created?
    ensures var log := Run(INITIAL, steps).log; Agrees(log[j], log[i].kind, log[i].pair)
  {
    var before, after := ReportedAt(INITIAL, steps, i);
    var w := Run(INITIAL, before);
    RunKeeps(INITIAL, before);
    LogGrows(w, after);
    var e := Run(INITIAL, steps).log[i];
    assert w.log[i] == e;
    LaterEventsAgree(w, after, e.kind, e.pair, j);
  }

  // ----- Never replaced, and exactly when it is there to stay ------------------------------------------

  /** Without a machine crash a fixed name, once bound, keeps its file and the file its content. */
  lemma StepKeepsFixed(w: World, step: Step, kind: Kind)
    requires Inv(w) && !step.Crash? && Fixed(kind) in w.dir.now
    ensures Apply(w, step).dir.Bound(Fixed(kind)) == w.dir.Bound(Fixed(kind))
    ensures var i := w.dir.now[Fixed(kind)];
            i in w.inodes && i in Apply(w, step).inodes && Apply(w, step).inodes[i] == w.inodes[i]
  {
    assert FixedInv(w.dir, w.inodes, kind);
    if step.Proceed? && step.pid in w.processes {
      assert ProcessInv(w.dir, w.inodes, w.processes[step.pid]);
    }
  }

  /** A fixed file that every crash leaves, stays. */
  lemma {:induction false} DurableStays(w: World, steps: seq<Step>, kind: Kind)
    requires Inv(w) && Fixed(kind) in w.dir.now && w.dir.Possible(Fixed(kind)) == {w.dir.Bound(Fixed(kind))}
    ensures Run(w, steps).dir.Bound(Fixed(kind)) == w.dir.Bound(Fixed(kind))
    decreases |steps|
  {
    if steps != [] {
      StepKeeps(w, steps[0]);
      StepKeepsDurable(w, steps[0], kind);
      DurableStays(Apply(w, steps[0]), steps[1..], kind);
    }
  }

  lemma StepKeepsDurable(w: World, step: Step, kind: Kind)
    requires Inv(w) && Fixed(kind) in w.dir.now && w.dir.Possible(Fixed(kind)) == {w.dir.Bound(Fixed(kind))}
    ensures Apply(w, step).dir.Bound(Fixed(kind)) == w.dir.Bound(Fixed(kind))
    ensures Apply(w, step).dir.Possible(Fixed(kind)) == {w.dir.Bound(Fixed(kind))}
  {
    if step.Crash? {
      assert Survives(w.dir, step.survivor) ==> step.survivor.Bound(Fixed(kind)) in w.dir.Possible(Fixed(kind));
    } else {
      StepKeepsFixed(w, step, kind);
    }
  }

  ghost predicate StaysThrough(w: World, steps: seq<Step>, kind: Kind) {
    Run(w, steps).dir.Bound(Fixed(kind)) == w.dir.Bound(Fixed(kind))
  }

  /**
   A reservation that can be loaded is there to stay exactly when the directory has been synced since it
   was installed: otherwise a crash may take it back, whoever has loaded it.
   */
  lemma StaysIffDurable(w: World, kind: Kind)
    requires Inv(w) && Fixed(kind) in w.dir.now
    ensures w.dir.Possible(Fixed(kind)) == {w.dir.Bound(Fixed(kind))} <==>
            forall steps: seq<Step> :: StaysThrough(w, steps, kind)
  {
    if w.dir.Possible(Fixed(kind)) == {w.dir.Bound(Fixed(kind))} {
      forall steps: seq<Step> ensures StaysThrough(w, steps, kind) {
        DurableStays(w, steps, kind);
      }
    } else {
      var survivor := Directory(w.dir.now - {Fixed(kind)}, map[]);
      CrashTakesBack(w, kind, survivor);
      var steps := [Crash(survivor, {})];
      assert Run(w, steps) == Run(Apply(w, steps[0]), steps[1..]) == Apply(w, steps[0]);
      assert !StaysThrough(w, steps, kind);
    }
  }

  lemma CrashTakesBack(w: World, kind: Kind, survivor: Directory)
    requires Inv(w) && Fixed(kind) in w.dir.now && w.dir.Possible(Fixed(kind)) != {w.dir.Bound(Fixed(kind))}
    requires survivor == Directory(w.dir.now - {Fixed(kind)}, map[])
    ensures Survives(w.dir, survivor) && Apply(w, Crash(survivor, {})).dir.Bound(Fixed(kind)) == None
  {
    assert FixedInv(w.dir, w.inodes, kind) && Known(w.dir, w.inodes, Fixed(kind));
    forall name ensures survivor.Bound(name) in w.dir.Possible(name) { assert Known(w.dir, w.inodes, name); }
  }

  // ----- Creations and loads that meet no failure --------------------------------------------------------

  /** No temporary of the kind is in the directory and no live creator of the kind uses the tag. */
  ghost predicate Clear(w: World, kind: Kind, tag: Tag) {
    && (forall t: Tag :: Temporary(kind, t) !in w.dir.now)
    && (forall p :: p in w.processes && w.processes[p].Creating? && w.processes[p].kind == kind ==>
          w.processes[p].tag != tag)
  }

  lemma NoPartial(w: World, kind: Kind)
    requires forall t: Tag :: Temporary(kind, t) !in w.dir.now
    ensures !HasPartial(w, kind)
  {
    forall name | name in w.dir.now && name.Temporary? ensures name.kind != kind {
      assert Temporary(name.kind, name.tag) in w.dir.now;
    }
  }

  /** A creator's calls up to the synced temporary. */
  function WritesTemporary(pid: Pid, kind: Kind, pair: Pair, tag: Tag, inode: InodeId): seq<Step> {
    [BeginCreate(pid, kind, pair), OpenTemporary(pid, tag, inode), Proceed(pid), Proceed(pid)]
  }

  /** The world with a whole, synced temporary of one more creator. */
  ghost predicate Staged(w: World, w': World, pid: Pid, kind: Kind, pair: Pair, tag: Tag, inode: InodeId) {
    && w'.dir.now == w.dir.now[Temporary(kind, tag) := inode] && w'.log == w.log
    && w'.inodes == w.inodes[inode := Inode(Whole(kind, pair), true)]
    && w'.processes == w.processes[pid := Creating(kind, pair, tag, inode, Synced)]
  }

  lemma TemporaryIsStaged(w: World, pid: Pid, kind: Kind, pair: Pair, tag: Tag, inode: InodeId)
    requires Clear(w, kind, tag) && pid !in w.processes && inode !in w.inodes
    ensures Staged(w, Run(w, WritesTemporary(pid, kind, pair, tag, inode)), pid, kind, pair, tag, inode)
  {
    NoPartial(w, kind);
    var checked := Apply(w, BeginCreate(pid, kind, pair));
    assert checked.processes[pid] == Checked(kind, pair);
    assert !TagInUse(checked.processes, kind, tag);
    var open := Apply(checked, OpenTemporary(pid, tag, inode));
    var written := Apply(open, Proceed(pid));
    RunThree(w, BeginCreate(pid, kind, pair), OpenTemporary(pid, tag, inode), Proceed(pid), [Proceed(pid)]);
    assert WritesTemporary(pid, kind, pair, tag, inode)
           == [BeginCreate(pid, kind, pair), OpenTemporary(pid, tag, inode), Proceed(pid)] + [Proceed(pid)];
    RunOne(written, Proceed(pid));
  }

  lemma RunOne(w: World, a: Step)
    ensures Run(w, [a]) == Apply(w, a)
  {
    assert [a][1..] == [];
    assert Run(w, [a]) == Run(Apply(w, a), [a][1..]);
  }

  lemma {:induction false} RunParts(w: World, a: seq<Step>, b: seq<Step>)
    ensures Run(w, a + b) == Run(Run(w, a), b)
    decreases |a|
  {
    if a == [] {
      assert a + b == b;
    } else {
      assert (a + b)[1..] == a[1..] + b;
      RunParts(Apply(w, a[0]), a[1..], b);
    }
  }

  function Creation(pid: Pid, kind: Kind, pair: Pair, tag: Tag, inode: InodeId): seq<Step> {
    WritesTemporary(pid, kind, pair, tag, inode) + [Proceed(pid), Proceed(pid)]
  }

  /**
   Whoever else is at work: a creator of a free kind whose calls all succeed reports the reservation, leaves its
   file durably and nothing else, and disturbs nobody.
   */
  lemma CreationSucceeds(w: World, pid: Pid, kind: Kind, pair: Pair, tag: Tag, inode: InodeId)
    requires Clear(w, kind, tag) && Fixed(kind) !in w.dir.now && pid !in w.processes && inode !in w.inodes
    ensures var w' := Run(w, Creation(pid, kind, pair, tag, inode));
            && w'.log == w.log + [Created(kind, pair)] && w'.processes == w.processes
            && w'.dir == Directory(w.dir.now[Fixed(kind) := inode], map[])
            && w'.inodes == w.inodes[inode := Inode(Whole(kind, pair), true)]
  {
    TemporaryIsStaged(w, pid, kind, pair, tag, inode);
    RunParts(w, WritesTemporary(pid, kind, pair, tag, inode), [Proceed(pid), Proceed(pid)]);
    var staged := Run(w, WritesTemporary(pid, kind, pair, tag, inode));
    RunTwo(staged, Proceed(pid), Proceed(pid));
    StagedIsInstalled(w, staged, pid, kind, pair, tag, inode);
  }

  lemma RunTwo(w: World, a: Step, b: Step)
    ensures Run(w, [a, b]) == Apply(Apply(w, a), b)
  {
    assert [a, b][1..] == [b];
    RunOne(Apply(w, a), b);
  }

  lemma StagedIsInstalled(w: World, staged: World, pid: Pid, kind: Kind, pair: Pair, tag: Tag, inode: InodeId)
    requires Staged(w, staged, pid, kind, pair, tag, inode) && Temporary(kind, tag) !in w.dir.now
    requires Fixed(kind) !in w.dir.now && pid !in w.processes
    ensures Apply(Apply(staged, Proceed(pid)), Proceed(pid))
         == World(Directory(w.dir.now[Fixed(kind) := inode], map[]),
                  w.inodes[inode := Inode(Whole(kind, pair), true)], w.processes, w.log + [Created(kind, pair)])
  {
    var renamed := Apply(staged, Proceed(pid));
    assert renamed.dir.now == w.dir.now[Fixed(kind) := inode];
    assert renamed.processes - {pid} == w.processes;
  }

  lemma StagedIsRefused(w: World, staged: World, pid: Pid, kind: Kind, pair: Pair, tag: Tag, inode: InodeId)
    requires Staged(w, staged, pid, kind, pair, tag, inode) && Temporary(kind, tag) !in w.dir.now
    requires Fixed(kind) in w.dir.now && pid !in w.processes
    ensures Apply(Apply(Apply(staged, Proceed(pid)), Proceed(pid)), Proceed(pid))
         == World(Directory(w.dir.now, map[]), w.inodes[inode := Inode(Whole(kind, pair), true)], w.processes,
                  w.log + [CreateFailed(kind, pair)])
  {
    var unlinked := Apply(Apply(staged, Proceed(pid)), Proceed(pid));
    assert unlinked.dir.now == w.dir.now;
    assert unlinked.processes - {pid} == w.processes;
  }

  /** A creator of a kind that is taken reports a failure and leaves the directory as it was. */
  lemma TakenKindIsRefused(w: World, pid: Pid, kind: Kind, pair: Pair, tag: Tag, inode: InodeId)
    requires Clear(w, kind, tag) && Fixed(kind) in w.dir.now && pid !in w.processes && inode !in w.inodes
    ensures var w' := Run(w, Creation(pid, kind, pair, tag, inode) + [Proceed(pid)]);
            && w'.log == w.log + [CreateFailed(kind, pair)] && w'.processes == w.processes
            && w'.dir == Directory(w.dir.now, map[])
  {
    TemporaryIsStaged(w, pid, kind, pair, tag, inode);
    var calls := WritesTemporary(pid, kind, pair, tag, inode);
    assert Creation(pid, kind, pair, tag, inode) + [Proceed(pid)]
           == calls + ([Proceed(pid), Proceed(pid), Proceed(pid)] + []);
    RunParts(w, calls, [Proceed(pid), Proceed(pid), Proceed(pid)] + []);
    var staged := Run(w, calls);
    RunThree(staged, Proceed(pid), Proceed(pid), Proceed(pid), []);
    StagedIsRefused(w, staged, pid, kind, pair, tag, inode);
  }

  function Loading(pid: Pid, kind: Kind): seq<Step> { [BeginLoad(pid, kind), Proceed(pid), Proceed(pid)] }

  /** A load whose calls all succeed reports what the kind's file holds, and nothing exactly when the kind is free. */
  lemma LoadSucceeds(w: World, pid: Pid, kind: Kind, pair: Pair)
    requires Inv(w) && (forall t: Tag :: Temporary(kind, t) !in w.dir.now) && pid !in w.processes
    ensures Fixed(kind) !in w.dir.now ==>
              Run(w, Loading(pid, kind)) == w.(log := w.log + [Loaded(kind, None)])
    ensures Fixed(kind) in w.dir.now && Holds(w.inodes, w.dir.now[Fixed(kind)], kind, pair) ==>
              Run(w, Loading(pid, kind)) == w.(log := w.log + [Loaded(kind, Some(pair))])
  {
    NoPartial(w, kind);
    RunThree(w, BeginLoad(pid, kind), Proceed(pid), Proceed(pid), []);
    assert Loading(pid, kind) + [] == Loading(pid, kind);
    var done := Apply(Apply(Apply(w, BeginLoad(pid, kind)), Proceed(pid)), Proceed(pid));
    assert done.processes == w.processes;
  }

  /** While a partial of the kind lies in the directory, creations and loads are refused at once. */
  lemma PartialIsRefused(w: World, pid: Pid, kind: Kind, pair: Pair, tag: Tag)
    requires Temporary(kind, tag) in w.dir.now && pid !in w.processes
    ensures Apply(w, BeginCreate(pid, kind, pair)) == w.(log := w.log + [CreateFailed(kind, pair)])
    ensures Apply(w, BeginLoad(pid, kind)) == w.(log := w.log + [LoadFailed(kind)])
  {
    assert HasPartial(w, kind);
  }

  /** What is created is loaded: one after the other, from any world of any run in which the kind is free. */
  lemma CreatedIsLoaded(w: World, pid: Pid, kind: Kind, pair: Pair, tag: Tag, inode: InodeId)
    requires Inv(w) && Clear(w, kind, tag) && Fixed(kind) !in w.dir.now && pid !in w.processes && inode !in w.inodes
    ensures Run(w, Creation(pid, kind, pair, tag, inode) + Loading(pid, kind)).log
         == w.log + [Created(kind, pair), Loaded(kind, Some(pair))]
  {
    CreationSucceeds(w, pid, kind, pair, tag, inode);
    RunParts(w, Creation(pid, kind, pair, tag, inode), Loading(pid, kind));
    var created := Run(w, Creation(pid, kind, pair, tag, inode));
    RunKeeps(w, Creation(pid, kind, pair, tag, inode));
    LoadSucceeds(created, pid, kind, pair);
  }

  /** Wherever others have got to in the meantime, a creator that has renamed and syncs the directory reports so. */
  lemma RenamedCreatorReports(w: World, pid: Pid)
    requires Inv(w) && pid in w.processes && w.processes[pid].Creating? && w.processes[pid].stage == Renamed
    ensures var c := w.processes[pid];
            && Apply(w, Proceed(pid)).log == w.log + [Created(c.kind, c.pair)]
            && Durable(Apply(w, Proceed(pid)).dir, Apply(w, Proceed(pid)).inodes, c.kind, c.pair)
  {
    assert ProcessInv(w.dir, w.inodes, w.processes[pid]);
  }

  // ----- Calls that fail ------------------------------------------------------------------------------------

  /**
   A creator that fails before its rename, and whose cleanup succeeds, reports the failure and leaves no partial: the
   directory shows what it showed, without its temporary.
   */
  lemma FailedCreationCleansUp(w: World, pid: Pid)
    requires Inv(w) && pid in w.processes && w.processes[pid].Creating? && Unrenamed(w.processes[pid].stage)
    ensures var c := w.processes[pid];
            var w' := Apply(Apply(Apply(w, Fail(pid)), Proceed(pid)), Proceed(pid));
            && w'.log == w.log + [CreateFailed(c.kind, c.pair)] && w'.processes == w.processes - {pid}
            && w'.dir == Directory(w.dir.now - {Temporary(c.kind, c.tag)}, map[]) && w'.inodes == w.inodes
  {
    var c := w.processes[pid];
    assert ProcessInv(w.dir, w.inodes, c);
    var unlinked := Apply(Apply(w, Fail(pid)), Proceed(pid));
    assert unlinked.dir.now == w.dir.now - {Temporary(c.kind, c.tag)};
    assert unlinked.processes - {pid} == w.processes - {pid};
  }

  /** A load that fails reports so and changes nothing else; so does a creation that fails to open its temporary. */
  lemma FailedCallReports(w: World, pid: Pid)
    requires pid in w.processes && !w.processes[pid].Creating?
    ensures var p := w.processes[pid];
            Apply(w, Fail(pid)) == w.(processes := w.processes - {pid},
                                      log := w.log + [if p.Checked? then CreateFailed(p.kind, p.pair)
                                                      else LoadFailed(p.kind)])
  {
  }

  /** A creator's file is whole once written, and safe from a crash only once it is synced. */
  lemma WrittenThenSynced(w: World, pid: Pid)
    requires Inv(w) && pid in w.processes && w.processes[pid].Creating?
    ensures var c, w' := w.processes[pid], Apply(w, Proceed(pid));
            && (c.stage == Opened ==>
                  && w'.inodes == w.inodes[c.inode := Inode(Whole(c.kind, c.pair), false)]
                  && w'.processes[pid] == c.(stage := Written) && w'.dir == w.dir)
            && (c.stage == Written ==>
                  && w'.inodes == w.inodes[c.inode := Inode(Whole(c.kind, c.pair), true)]
                  && w'.processes[pid] == c.(stage := Synced) && w'.dir == w.dir)
  {
    assert ProcessInv(w.dir, w.inodes, w.processes[pid]);
  }

  /** A crash may tear exactly the files that were not synced, and leaves every other as it is. */
  lemma CrashTears(w: World, torn: set<InodeId>, i: InodeId)
    requires i in w.inodes
    ensures i in Tear(w.inodes, torn)
    ensures w.inodes[i].synced || i !in torn ==> Tear(w.inodes, torn)[i].content == w.inodes[i].content
    ensures !w.inodes[i].synced && i in torn ==> Tear(w.inodes, torn)[i].content == Undecodable
  {
  }

  // ----- A reported failure may have installed ---------------------------------------------------------

  /** A creator whose every call succeeds up to and including the rename. */
  lemma Installs(w: World, kind: Kind, pair: Pair)
    requires w == INITIAL
    ensures var w2 := AfterInstall(w, kind, pair);
            && w2.dir.now == map[Fixed(kind) := 0] && w2.inodes == map[0 := Inode(Whole(kind, pair), true)]
                && w2.log == []
            && w2.processes == map[0 := Creating(kind, pair, 0, 0, Renamed)]
            && w2.dir.Possible(Fixed(kind)) == {None, Some(0)}
  {
    var checked := Apply(w, BeginCreate(0, kind, pair));
    var open := Apply(checked, OpenTemporary(0, 0, 0));
    var written := Apply(open, Proceed(0));
    var synced := Apply(written, Proceed(0));
    assert synced.dir.now == map[Temporary(kind, 0) := 0];
    var renamed := Apply(synced, Proceed(0));
    assert renamed.dir.now == map[Fixed(kind) := 0];
  }

  /** From there its directory sync and its cleanup fail, and it reports a failure with the file installed. */
  lemma FailsInstalled(w: World, kind: Kind, pair: Pair)
    requires w.dir.now == map[Fixed(kind) := 0] && w.processes == map[0 := Creating(kind, pair, 0, 0, Renamed)]
             && w.log == []
    requires w.inodes == map[0 := Inode(Whole(kind, pair), true)]
    ensures var failed := Apply(Apply(Apply(w, Fail(0)), Fail(0)), Fail(0));
            var loaded := Apply(Apply(Apply(failed, BeginLoad(1, kind)), Proceed(1)), Proceed(1));
            loaded.log == [CreateFailed(kind, pair), Loaded(kind, Some(pair))] && loaded.dir == w.dir
  {
    var failed := Apply(Apply(Apply(w, Fail(0)), Fail(0)), Fail(0));
    assert failed.processes == map[];
    assert !HasPartial(failed, kind);
  }

  /**
   A reported failure does not mean that nothing was reserved: the pair may be installed and load from
   then on. A pair so loaded is not yet there to stay either.
   */
  lemma FailureMayInstall(w: World, kind: Kind, pair: Pair)
    requires w == INITIAL
    ensures exists steps ::
              var reached := Run(w, steps);
              && reached.log == [CreateFailed(kind, pair), Loaded(kind, Some(pair))]
              && Fixed(kind) in reached.dir.now && reached.dir.Possible(Fixed(kind)) != {reached.dir.Bound(Fixed(kind))}
  {
    Installs(w, kind, pair);
    var w2 := AfterInstall(w, kind, pair);
    FailsInstalled(w2, kind, pair);
    RunInstall(w, kind, pair, [Fail(0), Fail(0), Fail(0)] + [BeginLoad(1, kind), Proceed(1), Proceed(1)]);
    RunFailAndLoad(w2, kind);
  }

  ghost function AfterInstall(w: World, kind: Kind, pair: Pair): World {
    var w1 := Apply(Apply(w, BeginCreate(0, kind, pair)), OpenTemporary(0, 0, 0));
    Apply(Apply(Apply(w1, Proceed(0)), Proceed(0)), Proceed(0))
  }

  lemma RunInstall(w: World, kind: Kind, pair: Pair, rest: seq<Step>)
    ensures Run(w, [BeginCreate(0, kind, pair), OpenTemporary(0, 0, 0), Proceed(0)] + ([Proceed(0), Proceed(0)] + rest))
            == Run(AfterInstall(w, kind, pair), rest)
  {
    var third := Apply(Apply(Apply(w, BeginCreate(0, kind, pair)), OpenTemporary(0, 0, 0)), Proceed(0));
    RunThree(w, BeginCreate(0, kind, pair), OpenTemporary(0, 0, 0), Proceed(0), [Proceed(0), Proceed(0)] + rest);
    var steps := [Proceed(0), Proceed(0)] + rest;
    assert steps[1..][1..] == rest;
    assert Run(third, steps) == Run(Apply(third, Proceed(0)), steps[1..]);
  }

  lemma RunFailAndLoad(w: World, kind: Kind)
    ensures Run(w, [Fail(0), Fail(0), Fail(0)] + [BeginLoad(1, kind), Proceed(1), Proceed(1)])
         == Apply(Apply(Apply(Apply(Apply(Apply(w, Fail(0)), Fail(0)), Fail(0)), BeginLoad(1, kind)), Proceed(1)),
                  Proceed(1))
  {
    RunThree(w, Fail(0), Fail(0), Fail(0), [BeginLoad(1, kind), Proceed(1), Proceed(1)]);
    RunThree(Apply(Apply(Apply(w, Fail(0)), Fail(0)), Fail(0)), BeginLoad(1, kind), Proceed(1), Proceed(1), []);
    assert [BeginLoad(1, kind), Proceed(1), Proceed(1)] + [] == [BeginLoad(1, kind), Proceed(1), Proceed(1)];
  }

  lemma RunThree(w: World, a: Step, b: Step, c: Step, rest: seq<Step>)
    ensures Run(w, [a, b, c] + rest) == Run(Apply(Apply(Apply(w, a), b), c), rest)
  {
    var steps := [a, b, c] + rest;
    assert steps[1..][1..][1..] == rest;
    assert Run(w, steps) == Run(Apply(w, a), steps[1..]) == Run(Apply(Apply(w, a), b), steps[1..][1..]);
  }
}
