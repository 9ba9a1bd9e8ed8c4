/**
 Durable reservations: any number of creators and loaders share one directory. Each system call is one
 step and may fail; operations may be killed; a machine crash may undo, name by name, every directory
 change since the last directory sync, and may tear every file that was not synced.
 */
module Reservation {
  import opened Wrappers

  type Kind = nat
  type Pair = nat
  type Tag = nat
  type Pid = nat
  type InodeId = nat

  /** A kind's fixed file, or a temporary whose name no two live creators share. */
  datatype Name = Fixed(kind: Kind) | Temporary(kind: Kind, tag: Tag)

  /** A whole envelope, or bytes that do not decode: nothing, a torn prefix, garbage. */
  datatype Content = Undecodable | Whole(kind: Kind, pair: Pair)

  datatype Inode = Inode(content: Content, synced: bool)

  /** Where a creator stands between system calls. */
  datatype Stage = Opened | Written | Synced | Renamed | Failing | Unlinked

  datatype Process =
    | Checked(kind: Kind, pair: Pair)
    | Creating(kind: Kind, pair: Pair, tag: Tag, inode: InodeId, stage: Stage)
    | Searching(kind: Kind)
    | Reading(kind: Kind, inode: InodeId)

  datatype Event =
    | Created(kind: Kind, pair: Pair)
    | CreateFailed(kind: Kind, pair: Pair)
    | Loaded(kind: Kind, result: Option<Pair>)
    | LoadFailed(kind: Kind)

  /** The bindings seen now; and, for every name changed since the last sync, the bindings a crash could leave. */
  datatype Directory = Directory(now: map<Name, InodeId>, past: map<Name, set<Option<InodeId>>>) {
    function Bound(name: Name): Option<InodeId> { if name in now then Some(now[name]) else None }

    function Possible(name: Name): set<Option<InodeId>> { if name in past then past[name] else {Bound(name)} }

    function Bind(name: Name, inode: InodeId): Directory {
      Directory(now[name := inode], past[name := Possible(name) + {Some(inode)}])
    }

    function Unbind(name: Name): Directory { Directory(now - {name}, past[name := Possible(name) + {None}]) }

    function Rename(from: Name, to: Name): Directory
      requires from in now
    {
      Unbind(from).Bind(to, now[from])
    }

    function Sync(): Directory { Directory(now, map[]) }
  }

  type Inodes = map<InodeId, Inode>
  type Processes = map<Pid, Process>

  datatype World = World(dir: Directory, inodes: Inodes, processes: Processes, log: seq<Event>)

  const INITIAL := World(Directory(map[], map[]), map[], map[], [])

  // ----- Steps --------------------------------------------------------------------------------------

  datatype Step =
    | BeginCreate(pid: Pid, kind: Kind, pair: Pair)
    | BeginLoad(pid: Pid, kind: Kind)
    | OpenTemporary(pid: Pid, tag: Tag, inode: InodeId)
    | Proceed(pid: Pid)
    | Fail(pid: Pid)
    | Kill(pid: Pid)
    | Crash(survivor: Directory, torn: set<InodeId>)

  /** `reject_partial`: some temporary of the kind is in the directory. */
  predicate HasPartial(w: World, kind: Kind) {
    exists name :: name in w.dir.now && name.Temporary? && name.kind == kind
  }

  predicate TagInUse(processes: Processes, kind: Kind, tag: Tag) {
    exists pid ::
        pid in processes && processes[pid].Creating? && processes[pid].kind == kind && processes[pid].tag == tag
  }

  function At(w: World, pid: Pid, process: Process): World { w.(processes := w.processes[pid := process]) }

  function End(w: World, pid: Pid, event: Event): World { w.(processes := w.processes - {pid}, log := w.log + [event]) }

  /** The next system call of a creator with an open temporary succeeds, or finds the name already reserved. */
  function CreatorProceeds(w: World, pid: Pid, c: Process): World
    requires c.Creating?
  {
    var temporary := Temporary(c.kind, c.tag);
    match c.stage
    case Opened => At(w.(inodes := w.inodes[c.inode := Inode(Whole(c.kind, c.pair), false)]), pid, c.(stage := Written))
    case Written =>
      At(if c.inode in w.inodes then w.(inodes := w.inodes[c.inode := w.inodes[c.inode].(synced := true)]) else w, pid,
         c.(stage := Synced))
    case Synced =>
      if Fixed(c.kind) in w.dir.now || temporary !in w.dir.now then At(w, pid, c.(stage := Failing))
      else At(w.(dir := w.dir.Rename(temporary, Fixed(c.kind))), pid, c.(stage := Renamed))
    case Renamed => End(w.(dir := w.dir.Sync()), pid, Created(c.kind, c.pair))
    case Failing => At(if temporary in w.dir.now then w.(dir := w.dir.Unbind(temporary)) else w, pid,
                       c.(stage := Unlinked))
    case Unlinked => End(w.(dir := w.dir.Sync()), pid, CreateFailed(c.kind, c.pair))
  }

  function Proceeds(w: World, pid: Pid, process: Process): World {
    match process
    case Checked(_, _) => w
    case Creating(_, _, _, _, _) => CreatorProceeds(w, pid, process)
    case Searching(kind) =>
      if Fixed(kind) !in w.dir.now then End(w, pid, Loaded(kind, None))
          else At(w, pid, Reading(kind, w.dir.now[Fixed(kind)]))
    case Reading(kind, inode) =>
      if inode in w.inodes && w.inodes[inode].content.Whole? && w.inodes[inode].content.kind == kind
      then End(w, pid, Loaded(kind, Some(w.inodes[inode].content.pair)))
      else End(w, pid, LoadFailed(kind))
  }

  /** The next system call fails. A creator with an open temporary then unlinks it and syncs, ignoring failures. */
  function Fails(w: World, pid: Pid, process: Process): World {
    match process
    case Checked(kind, pair) => End(w, pid, CreateFailed(kind, pair))
    case Creating(kind, pair, _, _, Unlinked) => End(w, pid, CreateFailed(kind, pair))
    case Creating(_, _, _, _, Failing) => At(w, pid, process.(stage := Unlinked))
    case Creating(_, _, _, _, _) => At(w, pid, process.(stage := Failing))
    case Searching(kind) => End(w, pid, LoadFailed(kind))
    case Reading(kind, _) => End(w, pid, LoadFailed(kind))
  }

  /** A directory that takes, for each name, one of the bindings the name could have. */
  ghost predicate Survives(dir: Directory, survivor: Directory) {
    survivor.past == map[] && forall name :: survivor.Bound(name) in dir.Possible(name)
  }

  /** What a crash makes of the files: what was not synced may be torn. */
  function Tear(inodes: Inodes, torn: set<InodeId>): Inodes {
    map i | i in inodes ::
        if i in torn && !inodes[i].synced then Inode(Undecodable, true) else inodes[i].(synced := true)
  }

  function Opens(w: World, pid: Pid, c: Process, tag: Tag, inode: InodeId): World
    requires c.Checked?
  {
    var name := Temporary(c.kind, tag);
    if name in w.dir.now then End(w, pid, CreateFailed(c.kind, c.pair))
    else At(w.(inodes := w.inodes[inode := Inode(Undecodable, false)], dir := w.dir.Bind(name, inode)), pid,
            Creating(c.kind, c.pair, tag, inode, Opened))
  }

  ghost function Apply(w: World, step: Step): World {
    match step
    case BeginCreate(pid, kind, pair) =>
      if pid in w.processes then w
      else if HasPartial(w, kind) then w.(log := w.log + [CreateFailed(kind, pair)])
      else At(w, pid, Checked(kind, pair))
    case BeginLoad(pid, kind) =>
      if pid in w.processes then w
      else if HasPartial(w, kind) then w.(log := w.log + [LoadFailed(kind)])
      else At(w, pid, Searching(kind))
    case OpenTemporary(pid, tag, inode) =>
      if pid !in w.processes || !w.processes[pid].Checked? || TagInUse(w.processes, w.processes[pid].kind, tag)
          || inode in w.inodes then w
      else Opens(w, pid, w.processes[pid], tag, inode)
    case Proceed(pid) => if pid !in w.processes then w else Proceeds(w, pid, w.processes[pid])
    case Fail(pid) => if pid !in w.processes then w else Fails(w, pid, w.processes[pid])
    case Kill(pid) => w.(processes := w.processes - {pid})
    case Crash(survivor, torn) =>
      if !Survives(w.dir, survivor) then w else World(survivor, Tear(w.inodes, torn), map[], w.log)
  }

  ghost function Run(w: World, steps: seq<Step>): World
    decreases |steps|
  {
    if steps == [] then w else Run(Apply(w, steps[0]), steps[1..])
  }

  // ----- The invariant ------------------------------------------------------------------------------

  /** An inode holds a whole, synced envelope. */
  predicate Holds(inodes: Inodes, inode: InodeId, kind: Kind, pair: Pair) {
    inode in inodes && inodes[inode] == Inode(Whole(kind, pair), true)
  }

  /**
   Whatever a fixed name could be bound to is whole, and it could be bound to nothing but its present inode
   or none.
   */
  ghost predicate FixedInv(dir: Directory, inodes: Inodes, kind: Kind) {
    && dir.Possible(Fixed(kind)) <= {None, dir.Bound(Fixed(kind))}
    && (Fixed(kind) in dir.now ==> exists pair :: Holds(inodes, dir.now[Fixed(kind)], kind, pair))
  }

  /** A name could have the binding it shows, and every binding it could have is a file. */
  ghost predicate Known(dir: Directory, inodes: Inodes, name: Name) {
    dir.Bound(name) in dir.Possible(name) && forall i :: Some(i) in dir.Possible(name) ==> i in inodes
  }

  ghost predicate DirectoryInv(dir: Directory, inodes: Inodes) {
    && (forall kind :: FixedInv(dir, inodes, kind))
    && (forall name :: Known(dir, inodes, name))
  }

  predicate Unrenamed(stage: Stage) { stage == Opened || stage == Written || stage == Synced }

  /**
   A creator's own temporary is its own inode, which no fixed name shows before the rename and its fixed name
   shows after it.
   */
  ghost predicate CreatorInv(dir: Directory, inodes: Inodes, c: Process)
    requires c.Creating?
  {
    && c.inode in inodes
    && (Unrenamed(c.stage) ==>
          && dir.Bound(Temporary(c.kind, c.tag)) == Some(c.inode)
          && (forall kind :: dir.Bound(Fixed(kind)) != Some(c.inode)))
    && (c.stage == Written ==> inodes[c.inode].content == Whole(c.kind, c.pair))
    && (c.stage == Synced || c.stage == Renamed ==> Holds(inodes, c.inode, c.kind, c.pair))
    && (c.stage == Renamed ==> dir.Bound(Fixed(c.kind)) == Some(c.inode))
  }

  ghost predicate ProcessInv(dir: Directory, inodes: Inodes, process: Process) {
    && (process.Creating? ==> CreatorInv(dir, inodes, process))
    && (process.Reading? ==> dir.Bound(Fixed(process.kind)) == Some(process.inode))
  }

  /** Two live creators share neither a temporary name, nor an unrenamed inode, nor a rename of one kind. */
  predicate Apart(a: Process, b: Process) {
    a.Creating? && b.Creating? ==>
      && !(a.kind == b.kind && a.tag == b.tag)
      && (Unrenamed(a.stage) || Unrenamed(b.stage) ==> a.inode != b.inode)
      && !(a.kind == b.kind && a.stage == Renamed && b.stage == Renamed)
  }

  ghost predicate AllApart(processes: Processes) {
    forall a, b :: a in processes && b in processes && a != b ==> Apart(processes[a], processes[b])
  }

  ghost predicate ProcessesInv(dir: Directory, inodes: Inodes, processes: Processes) {
    && (forall pid :: pid in processes ==> ProcessInv(dir, inodes, processes[pid]))
    && AllApart(processes)
  }

  /** A kind's file is there, whole, and every crash leaves it. */
  ghost predicate Durable(dir: Directory, inodes: Inodes, kind: Kind, pair: Pair) {
    && Fixed(kind) in dir.now && dir.Possible(Fixed(kind)) == {Some(dir.now[Fixed(kind)])}
    && Holds(inodes, dir.now[Fixed(kind)], kind, pair)
  }

  predicate Renaming(process: Process, kind: Kind) {
    process.Creating? && process.stage == Renamed && process.kind == kind
  }

  /** A reported reservation is durable, and no creator is about to report another of its kind. */
  ghost predicate Reserved(dir: Directory, inodes: Inodes, processes: Processes, kind: Kind, pair: Pair) {
    Durable(dir, inodes, kind, pair) && forall pid :: pid in processes ==> !Renaming(processes[pid], kind)
  }

  ghost predicate LogInv(dir: Directory, inodes: Inodes, processes: Processes, log: seq<Event>) {
    forall e :: e in log && e.Created? ==> Reserved(dir, inodes, processes, e.kind, e.pair)
  }

  ghost predicate Inv(w: World) {
    && DirectoryInv(w.dir, w.inodes)
    && ProcessesInv(w.dir, w.inodes, w.processes)
    && LogInv(w.dir, w.inodes, w.processes, w.log)
  }

  // ----- Every step keeps it -----------------------------------------------------------------------

  /** Replacing one process by another in order keeps the rest in order. */
  lemma MoveKeeps(w: World, pid: Pid, process: Process)
    requires Inv(w) && ProcessInv(w.dir, w.inodes, process)
    requires forall b :: b in w.processes && b != pid ==>
             Apart(process, w.processes[b]) && Apart(w.processes[b], process)
    requires process.Creating? && process.stage == Renamed ==> pid in w.processes && w.processes[pid] == process
    ensures Inv(At(w, pid, process))
  {
    forall e | e in w.log && e.Created?
        ensures Reserved(w.dir, w.inodes, At(w, pid, process).processes, e.kind, e.pair) {
      assert Reserved(w.dir, w.inodes, w.processes, e.kind, e.pair);
    }
  }

  /** Ending an operation, or killing it, leaves everybody else as they were. */
  lemma EndKeeps(w: World, pid: Pid, event: Event)
    requires Inv(w) && !event.Created?
    ensures Inv(End(w, pid, event)) && Inv(w.(processes := w.processes - {pid})) && Inv(w.(log := w.log + [event]))
  {
    forall e | e in w.log && e.Created? ensures Reserved(w.dir, w.inodes, w.processes - {pid}, e.kind, e.pair) {
      assert Reserved(w.dir, w.inodes, w.processes, e.kind, e.pair);
    }
  }

  /** What a fixed name shows, could show, and holds is the same before and after. */
  ghost predicate SameFixed(dir: Directory, inodes: Inodes, dir': Directory, inodes': Inodes, kind: Kind) {
    && dir'.Bound(Fixed(kind)) == dir.Bound(Fixed(kind)) && dir'.Possible(Fixed(kind)) == dir.Possible(Fixed(kind))
    && (Fixed(kind) in dir.now && dir.now[Fixed(kind)] in inodes ==>
          dir.now[Fixed(kind)] in inodes' && inodes'[dir.now[Fixed(kind)]] == inodes[dir.now[Fixed(kind)]])
  }

  lemma SameFixedKeeps(dir: Directory, inodes: Inodes, dir': Directory, inodes': Inodes, kind: Kind)
    requires FixedInv(dir, inodes, kind) && SameFixed(dir, inodes, dir', inodes', kind)
    ensures FixedInv(dir', inodes', kind)
    ensures forall pair :: Durable(dir, inodes, kind, pair) ==> Durable(dir', inodes', kind, pair)
  {
    if Fixed(kind) in dir.now {
      var pair :| Holds(inodes, dir.now[Fixed(kind)], kind, pair);
      assert Holds(inodes', dir'.now[Fixed(kind)], kind, pair);
    }
  }

  /** Work on a temporary: its name and its inode may change, no fixed name does. */
  lemma TemporaryWorkKeeps(w: World, w': World, pid: Pid, process: Process)
    requires Inv(w) && w'.processes == w.processes[pid := process] && w'.log == w.log
    requires forall kind :: SameFixed(w.dir, w.inodes, w'.dir, w'.inodes, kind)
    requires forall name :: Known(w'.dir, w'.inodes, name)
    requires forall b :: b in w.processes && b != pid ==>
               ProcessInv(w'.dir, w'.inodes, w.processes[b]) && Apart(process, w.processes[b])
                   && Apart(w.processes[b], process)
    requires ProcessInv(w'.dir, w'.inodes, process) && !(process.Creating? && process.stage == Renamed)
    ensures Inv(w')
  {
    forall kind ensures FixedInv(w'.dir, w'.inodes, kind) { SameFixedKeeps(w.dir, w.inodes, w'.dir, w'.inodes, kind); }
    forall e | e in w'.log && e.Created? ensures Reserved(w'.dir, w'.inodes, w'.processes, e.kind, e.pair) {
      assert Reserved(w.dir, w.inodes, w.processes, e.kind, e.pair);
      SameFixedKeeps(w.dir, w.inodes, w'.dir, w'.inodes, e.kind);
    }
  }

  lemma OpensKeeps(w: World, pid: Pid, tag: Tag, inode: InodeId)
    requires Inv(w) && pid in w.processes && w.processes[pid].Checked?
             && !TagInUse(w.processes, w.processes[pid].kind, tag) && inode !in w.inodes
    ensures Inv(Opens(w, pid, w.processes[pid], tag, inode))
  {
    var c := w.processes[pid];
    var name := Temporary(c.kind, tag);
    if name in w.dir.now {
      EndKeeps(w, pid, CreateFailed(c.kind, c.pair));
    } else {
      var w' := Opens(w, pid, c, tag, inode);
      forall n ensures Known(w'.dir, w'.inodes, n) { assert Known(w.dir, w.inodes, n); }
      forall kind
          ensures SameFixed(w.dir, w.inodes, w'.dir, w'.inodes, kind) && w'.dir.Bound(Fixed(kind)) != Some(inode) {
        assert Known(w.dir, w.inodes, Fixed(kind));
      }
      forall b | b in w.processes && b != pid ensures ProcessInv(w'.dir, w'.inodes, w.processes[b])
        && Apart(w'.processes[pid], w.processes[b]) && Apart(w.processes[b], w'.processes[pid])
      {
        assert ProcessInv(w.dir, w.inodes, w.processes[b]);
      }
      TemporaryWorkKeeps(w, w', pid, w'.processes[pid]);
    }
  }

  lemma WriteKeeps(w: World, pid: Pid, c: Process)
    requires Inv(w) && pid in w.processes && w.processes[pid] == c && c.Creating?
             && (c.stage == Opened || c.stage == Written)
    ensures Inv(CreatorProceeds(w, pid, c))
  {
    var w' := CreatorProceeds(w, pid, c);
    assert ProcessInv(w.dir, w.inodes, c);
    forall n ensures Known(w'.dir, w'.inodes, n) { assert Known(w.dir, w.inodes, n); }
    forall kind ensures SameFixed(w.dir, w.inodes, w'.dir, w'.inodes, kind) {
      assert w.dir.Bound(Fixed(kind)) != Some(c.inode);
    }
    forall b | b in w.processes && b != pid ensures ProcessInv(w'.dir, w'.inodes, w.processes[b])
      && Apart(w'.processes[pid], w.processes[b]) && Apart(w.processes[b], w'.processes[pid])
    {
      assert ProcessInv(w.dir, w.inodes, w.processes[b]) && Apart(w.processes[b], c) && Apart(c, w.processes[b]);
    }
    TemporaryWorkKeeps(w, w', pid, w'.processes[pid]);
  }

  /** A rename binds the kind's free name to the creator's whole, synced file. */
  lemma RenameKeeps(w: World, pid: Pid, c: Process)
    requires Inv(w) && pid in w.processes && w.processes[pid] == c && c.Creating? && c.stage == Synced
    ensures Inv(CreatorProceeds(w, pid, c))
  {
    assert ProcessInv(w.dir, w.inodes, c);
    var w' := CreatorProceeds(w, pid, c);
    if Fixed(c.kind) in w.dir.now {
      MoveKeeps(w, pid, c.(stage := Failing));
    } else {
      forall n ensures Known(w'.dir, w'.inodes, n) {
        assert Known(w.dir, w.inodes, n) && Known(w.dir, w.inodes, Temporary(c.kind, c.tag));
      }
      forall kind ensures FixedInv(w'.dir, w'.inodes, kind) {
        assert FixedInv(w.dir, w.inodes, kind);
        if kind == c.kind { assert Holds(w'.inodes, c.inode, c.kind, c.pair); }
        else { SameFixedKeeps(w.dir, w.inodes, w'.dir, w'.inodes, kind); }
      }
      RenameKeepsOthers(w, pid, c);
      forall e | e in w'.log && e.Created? ensures Reserved(w'.dir, w'.inodes, w'.processes, e.kind, e.pair) {
        assert Reserved(w.dir, w.inodes, w.processes, e.kind, e.pair);
      }
    }
  }

  lemma RenameKeepsOthers(w: World, pid: Pid, c: Process)
    requires Inv(w) && pid in w.processes && w.processes[pid] == c && c.Creating? && c.stage == Synced
             && Fixed(c.kind) !in w.dir.now
    ensures var w' := CreatorProceeds(w, pid, c); ProcessesInv(w'.dir, w'.inodes, w'.processes)
  {
    assert ProcessInv(w.dir, w.inodes, c);
    var w' := CreatorProceeds(w, pid, c);
    forall b | b in w.processes && b != pid ensures ProcessInv(w'.dir, w'.inodes, w.processes[b])
      && Apart(w'.processes[pid], w.processes[b]) && Apart(w.processes[b], w'.processes[pid])
    {
      assert ProcessInv(w.dir, w.inodes, w.processes[b]) && Apart(w.processes[b], c) && Apart(c, w.processes[b]);
    }
  }

  /** Syncing the directory keeps what it shows, and makes the shown files the only possible ones. */
  lemma SyncKeeps(w: World)
    requires Inv(w)
    ensures Inv(w.(dir := w.dir.Sync()))
  {
    var dir' := w.dir.Sync();
    forall n ensures Known(dir', w.inodes, n) { assert Known(w.dir, w.inodes, n); }
    forall kind ensures FixedInv(dir', w.inodes, kind) { assert FixedInv(w.dir, w.inodes, kind); }
    forall b | b in w.processes ensures ProcessInv(dir', w.inodes, w.processes[b]) {
      assert ProcessInv(w.dir, w.inodes, w.processes[b]);
    }
    forall e | e in w.log && e.Created? ensures Reserved(dir', w.inodes, w.processes, e.kind, e.pair) {
      assert Reserved(w.dir, w.inodes, w.processes, e.kind, e.pair);
    }
  }

  /** A synced rename is a durable reservation, and no other creator of its kind has renamed. */
  lemma AcknowledgeKeeps(w: World, pid: Pid, c: Process)
    requires Inv(w) && pid in w.processes && w.processes[pid] == c && c.Creating? && c.stage == Renamed
    ensures Inv(CreatorProceeds(w, pid, c))
    ensures forall e :: e in w.log && e.Created? ==> e.kind != c.kind
  {
    SyncKeeps(w);
    var synced := w.(dir := w.dir.Sync());
    EndKeeps(synced, pid, CreateFailed(c.kind, c.pair));
    var w' := CreatorProceeds(w, pid, c);
    assert ProcessInv(synced.dir, w.inodes, c);
    forall b | b in w'.processes ensures !Renaming(w'.processes[b], c.kind) { assert Apart(w.processes[b], c); }
    forall e | e in w.log && e.Created?
        ensures e.kind != c.kind && Reserved(w'.dir, w'.inodes, w'.processes, e.kind, e.pair) {
      assert Reserved(w.dir, w.inodes, w.processes, e.kind, e.pair);
      assert Reserved(synced.dir, synced.inodes, synced.processes, e.kind, e.pair);
    }
  }

  lemma UnlinkKeeps(w: World, pid: Pid, c: Process)
    requires Inv(w) && pid in w.processes && w.processes[pid] == c && c.Creating? && c.stage == Failing
             && Temporary(c.kind, c.tag) in w.dir.now
    ensures Inv(CreatorProceeds(w, pid, c))
  {
    var w' := CreatorProceeds(w, pid, c);
    forall n ensures Known(w'.dir, w'.inodes, n) { assert Known(w.dir, w.inodes, n); }
    forall b | b in w.processes && b != pid ensures ProcessInv(w'.dir, w'.inodes, w.processes[b])
      && Apart(w'.processes[pid], w.processes[b]) && Apart(w.processes[b], w'.processes[pid])
    {
      assert ProcessInv(w.dir, w.inodes, w.processes[b]) && Apart(w.processes[b], c) && Apart(c, w.processes[b]);
    }
    TemporaryWorkKeeps(w, w', pid, w'.processes[pid]);
  }

  lemma CreatorKeeps(w: World, pid: Pid, c: Process)
    requires Inv(w) && pid in w.processes && w.processes[pid] == c && c.Creating?
    ensures Inv(CreatorProceeds(w, pid, c))
  {
    match c.stage
    case Opened => WriteKeeps(w, pid, c);
    case Written => WriteKeeps(w, pid, c);
    case Synced => RenameKeeps(w, pid, c);
    case Renamed => AcknowledgeKeeps(w, pid, c);
    case Failing => if Temporary(c.kind, c.tag) in w.dir.now { UnlinkKeeps(w, pid, c); }
        else { AdvanceKeeps(w, pid, c, Unlinked); }
    case Unlinked =>
      SyncKeeps(w);
      EndKeeps(w.(dir := w.dir.Sync()), pid, CreateFailed(c.kind, c.pair));
  }

  /** Moving on to an error stage, with nothing else changed. */
  lemma AdvanceKeeps(w: World, pid: Pid, c: Process, stage: Stage)
    requires Inv(w) && pid in w.processes && w.processes[pid] == c && c.Creating?
             && (stage == Failing || stage == Unlinked)
    ensures Inv(At(w, pid, c.(stage := stage)))
  {
    var c' := c.(stage := stage);
    forall b | b in w.processes && b != pid ensures Apart(c', w.processes[b]) && Apart(w.processes[b], c') {
      assert Apart(w.processes[b], c) && Apart(c, w.processes[b]);
    }
    MoveKeeps(w, pid, c');
  }

  lemma LoaderKeeps(w: World, pid: Pid)
    requires Inv(w) && pid in w.processes && (w.processes[pid].Searching? || w.processes[pid].Reading?)
    ensures Inv(Proceeds(w, pid, w.processes[pid]))
  {
    var process := w.processes[pid];
    if process.Searching? && Fixed(process.kind) in w.dir.now {
      MoveKeeps(w, pid, Reading(process.kind, w.dir.now[Fixed(process.kind)]));
    } else {
      EndKeeps(w, pid, Loaded(process.kind, None));
      EndKeeps(w, pid, LoadFailed(process.kind));
      if process.Reading? && process.inode in w.inodes && w.inodes[process.inode].content.Whole? {
        EndKeeps(w, pid, Loaded(process.kind, Some(w.inodes[process.inode].content.pair)));
      }
    }
  }

  lemma FailsKeeps(w: World, pid: Pid)
    requires Inv(w) && pid in w.processes
    ensures Inv(Fails(w, pid, w.processes[pid]))
  {
    var process := w.processes[pid];
    if process.Creating? && process.stage != Unlinked {
      AdvanceKeeps(w, pid, process, if process.stage == Failing then Unlinked else Failing);
    } else if process.Checked? || process.Creating? {
      EndKeeps(w, pid, CreateFailed(process.kind, process.pair));
    } else {
      EndKeeps(w, pid, LoadFailed(process.kind));
    }
  }

  lemma CrashKeeps(w: World, survivor: Directory, torn: set<InodeId>)
    requires Inv(w) && Survives(w.dir, survivor)
    ensures Inv(World(survivor, Tear(w.inodes, torn), map[], w.log))
  {
    var inodes' := Tear(w.inodes, torn);
    forall n ensures Known(survivor, inodes', n) {
      assert Known(w.dir, w.inodes, n) && survivor.Bound(n) in w.dir.Possible(n);
    }
    forall kind ensures FixedInv(survivor, inodes', kind) {
      assert FixedInv(w.dir, w.inodes, kind) && survivor.Bound(Fixed(kind)) in w.dir.Possible(Fixed(kind));
      if Fixed(kind) in survivor.now {
        var pair :| Holds(w.inodes, w.dir.now[Fixed(kind)], kind, pair);
        assert Holds(inodes', survivor.now[Fixed(kind)], kind, pair);
      }
    }
    forall e | e in w.log && e.Created? ensures Reserved(survivor, inodes', map[], e.kind, e.pair) {
      assert Reserved(w.dir, w.inodes, w.processes, e.kind, e.pair)
             && survivor.Bound(Fixed(e.kind)) in w.dir.Possible(Fixed(e.kind));
    }
  }

  lemma StepKeeps(w: World, step: Step)
    requires Inv(w)
    ensures Inv(Apply(w, step))
  {
    match step
    case BeginCreate(pid, kind, pair) =>
      EndKeeps(w, pid, CreateFailed(kind, pair));
      if pid !in w.processes { MoveKeeps(w, pid, Checked(kind, pair)); }
    case BeginLoad(pid, kind) =>
      EndKeeps(w, pid, LoadFailed(kind));
      if pid !in w.processes { MoveKeeps(w, pid, Searching(kind)); }
    case OpenTemporary(pid, tag, inode) =>
      if pid in w.processes && w.processes[pid].Checked? && !TagInUse(w.processes, w.processes[pid].kind, tag)
          && inode !in w.inodes {
        OpensKeeps(w, pid, tag, inode);
      }
    case Proceed(pid) =>
      if pid in w.processes {
        var process := w.processes[pid];
        if process.Creating? { CreatorKeeps(w, pid, process); }
        else if !process.Checked? { LoaderKeeps(w, pid); }
      }
    case Fail(pid) => if pid in w.processes { FailsKeeps(w, pid); }
    case Kill(pid) => EndKeeps(w, pid, LoadFailed(0));
    case Crash(survivor, torn) => if Survives(w.dir, survivor) { CrashKeeps(w, survivor, torn); }
  }

  lemma {:induction false} RunKeeps(w: World, steps: seq<Step>)
    requires Inv(w)
    ensures Inv(Run(w, steps))
    decreases |steps|
  {
    if steps != [] {
      StepKeeps(w, steps[0]);
      RunKeeps(Apply(w, steps[0]), steps[1..]);
    }
  }
}
