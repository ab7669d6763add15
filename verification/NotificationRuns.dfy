/** Whole runs of the notification store: one process after another over one
    file, each section under `mu` a step, saves in flight beside the other
    steps, and a disk that may fail, report a written file as failed, lose the
    file or damage it. History fields record what no section reads. What is
    kept by every step is proved here, what follows of every run in modules
    NotificationSafety and NotificationOrder. */
module NotificationRuns {
  import opened Events
  import opened QueueLaws

  datatype Disk = Missing | Damaged | File(s: Saved)

  /** A save between its snapshot and its result; `covers` are the acks made before it. */
  datatype Inflight = Nothing | Writing(s: Saved, revision: nat, covers: set<(int, EventID)>)

  /** A text handed to Publish, with the number of that call. */
  datatype Waiting = Waiting(n: nat, text: string, at: int)

  datatype Publisher = Idle | Checked(w: Waiting) | Unsaved(w: Waiting)
  datatype Drainer = Resting | Holding(w: Waiting) | Issued(w: Waiting)

  datatype Proc = Proc(
    loaded: bool,           // the file has been read
    serving: bool,           // resolve is nil: operations are served
    mem: Mem,
    inflight: Inflight,
    backlog: seq<Waiting>,
    publisher: Publisher,
    drainer: Drainer,
    acked: set<(int, EventID)>,
    calls: nat,
    order: seq<(nat, nat)>, // (call, sequence) of the texts given IDs
    refused: set<nat>,      // Publish answered an error other than ErrDeferred
    overflowed: set<nat>,   // dropped as the oldest of a full backlog
    twins: set<nat>)        // dropped for an equal text with an equal time

  datatype System = System(
    up: bool,
    p: Proc,
    disk: Disk,
    issued: Issued,
    log: seq<EventID>,      // every ID ever issued, in order
    epochs: set<string>,    // epochs generated, or named by an ack
    settled: set<(int, EventID)>)  // acks that have returned nil

  datatype Outcome = Done | Half | Failed(backup: bool)

  datatype Step =
    | Start(read: bool, resolved: bool)
    | Load(read: bool)
    | Switch
    | Identify(epoch: string)
    | PruneAt(at: int)
    | PubCall(text: string, at: int)
    | PubAppend
    | PubRefuse
    | PubUnsaved
    | PubDefer
    | DrainTake
    | DrainAppend
    | DrainStop
    | DrainPop
    | SaveStart(reserve: nat, at: int)
    | SaveEnd(outcome: Outcome)
    | SaveNothing(reserve: nat, at: int)
    | AckStep(chat: int, id: EventID, at: int)
    | ReplaceStep(list: seq<Recipient>, at: int)
    | HealthStep(current: set<string>, updates: seq<Update>, at: int)
    | Crash(landed: bool)
    | Lose
    | Damage

  // ---------------------------------------------------------------- steps

  const BACKLOG_MAX: nat := MAX_RECENT

  /** newStore and restore: a file that does not read or is not valid is kept
      for a backup, and the store starts empty, without an epoch. */
  ghost function Loaded(disk: Disk, read: bool): Mem {
    match disk
    case Missing => NEW_MEM
    case Damaged => NEW_MEM.(needsBackup := true)
    case File(s) => if read && ValidSaved(s) then Restored(s) else NEW_MEM.(needsBackup := true)
  }

  ghost function Started(disk: Disk, read: bool, resolved: bool): Proc {
    Proc(resolved, resolved, if resolved then Loaded(disk, read) else NEW_MEM, Nothing, [], Idle, Resting,
         {}, 0, [], {}, {}, {})
  }

  /** deferLocked: the oldest of a full backlog makes room. */
  function Defer(p: Proc, w: Waiting): Proc {
    if |p.backlog| == BACKLOG_MAX
    then p.(backlog := p.backlog[1..] + [w],
            overflowed := p.overflowed + if p.drainer.Resting? || p.drainer.w != p.backlog[0]
                                         then {p.backlog[0].n} else {})
    else p.(backlog := p.backlog + [w])
  }

  function AppendTo(p: Proc, w: Waiting): Proc {
    p.(mem := Append(Prune(p.mem, w.at), w.text, w.at),
       order := p.order + [(w.n, p.mem.sequence + 1)])
  }

  /** The drain's last section: the head leaves if it is the event just given
      an ID - as far as its text and its time tell. */
  function Pop(p: Proc, w: Waiting): Proc {
    if |p.backlog| > 0 && p.backlog[0].text == w.text && p.backlog[0].at == w.at
    then p.(backlog := p.backlog[1..], drainer := Resting,
            twins := p.twins + if p.backlog[0] == w then {} else {p.backlog[0].n})
    else p.(drainer := Resting)
  }

  /** A drain that stops without an ID leaves its text waiting, unless a full
      backlog has dropped it meanwhile. */
  function Stop(p: Proc, w: Waiting): Proc {
    p.(drainer := Resting,
       overflowed := p.overflowed + if |p.backlog| > 0 && p.backlog[0] == w then {} else {w.n})
  }

  predicate CanAppend(m: Mem) {
    m.epoch != "" && m.sequence < m.reservedThrough
  }

  ghost predicate Enabled(s: System, step: Step) {
    var p := s.p;
    match step
    case Start(_, _) => !s.up
    case Load(_) => s.up && !p.loaded
    case Switch => s.up && p.loaded && !p.serving
    case Identify(e) => s.up && p.loaded && p.mem.epoch == "" && ValidEpoch(e) && e !in s.epochs
    case PruneAt(_) => s.up && p.loaded
    case PubCall(_, _) => s.up && p.publisher == Idle
    case PubAppend => s.up && p.publisher.Checked? && CanAppend(p.mem)
    case PubRefuse => s.up && p.publisher.Checked? && (p.mem.epoch == "" || p.mem.sequence == MAX_UINT64)
    case PubUnsaved => s.up && p.publisher.Checked?
    case PubDefer => s.up && p.publisher.Unsaved?
    case DrainTake => s.up && p.loaded && p.drainer == Resting && |p.backlog| > 0
    case DrainAppend => s.up && p.drainer.Holding? && CanAppend(p.mem)
    case DrainStop => s.up && p.drainer.Holding?
    case DrainPop => s.up && p.drainer.Issued?
    case SaveStart(reserve, at) =>
      && s.up && p.loaded && p.inflight == Nothing && p.mem.epoch != ""
      && reserve <= MAX_UINT64 - p.mem.sequence && !NothingToSave(Prune(p.mem, at), reserve)
    case SaveEnd(_) => s.up && p.inflight.Writing?
    case SaveNothing(reserve, at) =>
      && s.up && p.loaded && p.inflight == Nothing && p.mem.epoch != ""
      && NothingToSave(Prune(p.mem, at), reserve)
    case AckStep(_, id, _) => s.up && p.serving && AckAllowed(p.mem, id)
    case ReplaceStep(_, _) => s.up && p.serving
    case HealthStep(_, updates, _) =>
      && s.up && p.serving && p.mem.epoch != ""
      && (EventCount(updates) > 0 ==> EventCount(updates) <= p.mem.reservedThrough - p.mem.sequence)
    case Crash(_) => s.up
    case Lose => true
    case Damage => true
  }

  /** A section that gives one event its ID. */
  function Issue(s: System, p: Proc, e: Event): System {
    s.(p := p, issued := s.issued[e.id := e], log := s.log + [e.id])
  }

  /** The events a health batch issues from memory m on. */
  function BatchEvents(m: Mem, updates: seq<Update>, at: int): seq<Event> {
    if |updates| == 0 then []
    else
      var before := updates[..|updates| - 1];
      var u := updates[|updates| - 1];
      BatchEvents(m, before, at) +
      if u.text == "" then [] else [NextEvent(ApplyUpdates(m, before, at), u.text, at)]
  }

  function IssueAll(issued: Issued, events: seq<Event>): Issued {
    if |events| == 0 then issued
    else IssueAll(issued, events[..|events| - 1])[events[|events| - 1].id := events[|events| - 1]]
  }

  function LogOf(events: seq<Event>): seq<EventID> {
    if |events| == 0 then [] else LogOf(events[..|events| - 1]) + [events[|events| - 1].id]
  }

  ghost function Do(s: System, step: Step): System
    requires Enabled(s, step)
  {
    var p := s.p;
    match step
    case Start(read, resolved) => s.(up := true, p := Started(s.disk, read, resolved))
    case Load(read) => s.(p := p.(loaded := true, mem := Loaded(s.disk, read)))
    case Switch => s.(p := p.(serving := true))
    case Identify(e) =>
      s.(p := p.(mem := p.mem.(epoch := e, revision := p.mem.revision + 1)), epochs := s.epochs + {e})
    case PruneAt(at) => s.(p := p.(mem := Prune(p.mem, at)))
    case PubCall(text, at) =>
      var w := Waiting(p.calls + 1, text, at);
      var q := p.(calls := p.calls + 1);
      s.(p := if !p.serving || |p.backlog| > 0 then Defer(q, w) else q.(publisher := Checked(w)))
    case PubAppend =>
      Issue(s, AppendTo(p, p.publisher.w).(publisher := Idle), NextEvent(p.mem, p.publisher.w.text, p.publisher.w.at))
    case PubRefuse => s.(p := p.(publisher := Idle, refused := p.refused + {p.publisher.w.n}))
    case PubUnsaved => s.(p := p.(publisher := Unsaved(p.publisher.w)))
    case PubDefer => s.(p := Defer(p, p.publisher.w).(publisher := Idle))
    case DrainTake => s.(p := p.(drainer := Holding(p.backlog[0])))
    case DrainAppend =>
      Issue(s, AppendTo(p, p.drainer.w).(drainer := Issued(p.drainer.w)),
            NextEvent(p.mem, p.drainer.w.text, p.drainer.w.at))
    case DrainStop => s.(p := Stop(p, p.drainer.w))
    case DrainPop => s.(p := Pop(p, p.drainer.w))
    case SaveStart(reserve, at) =>
      var m := Prune(p.mem, at);
      s.(p := p.(mem := m, inflight := Writing(ToSave(m, reserve), m.revision, p.acked)))
    case SaveEnd(outcome) => (
      var w := p.inflight;
      match outcome
      case Failed(backup) =>
        s.(p := p.(inflight := Nothing, mem := p.mem.(needsBackup := p.mem.needsBackup && !backup)))
      case Half =>
        s.(p := p.(inflight := Nothing, mem := p.mem.(needsBackup := false)), disk := File(w.s))
      case Done =>
        s.(p := p.(inflight := Nothing, mem := SaveDone(p.mem, w.s, w.revision).(needsBackup := false)),
           disk := File(w.s), settled := s.settled + w.covers))
    case SaveNothing(_, at) => s.(p := p.(mem := Prune(p.mem, at)), settled := s.settled + p.acked)
    case AckStep(chat, id, at) =>
      s.(p := p.(mem := Ack(p.mem, chat, id, at), acked := p.acked + {(chat, id)}), epochs := s.epochs + {id.epoch})
    case ReplaceStep(list, at) => s.(p := p.(mem := Replace(p.mem, list, at)))
    case HealthStep(current, updates, at) =>
      var events := BatchEvents(DropHealth(p.mem, current), updates, at);
      s.(p := p.(mem := HealthBatch(p.mem, current, updates, at)),
         issued := IssueAll(s.issued, events), log := s.log + LogOf(events))
    case Crash(landed) =>
      s.(up := false, disk := if landed && p.inflight.Writing? then File(p.inflight.s) else s.disk)
    case Lose => s.(disk := Missing)
    case Damage => s.(disk := Damaged)
  }

  /** The first process starts with no file, or with one that does not read. */
  ghost predicate Init(s: System) {
    && !s.up && !s.disk.File?
    && s.issued == map[] && s.log == [] && s.epochs == {} && s.settled == {}
  }

  /** steps can be taken from s, one after another. */
  ghost predicate Allowed(s: System, steps: seq<Step>)
    decreases |steps|
  {
    |steps| > 0 ==> Enabled(s, steps[0]) && Allowed(Do(s, steps[0]), steps[1..])
  }

  ghost function Final(s: System, steps: seq<Step>): System
    requires Allowed(s, steps)
    decreases |steps|
  {
    if |steps| == 0 then s else Final(Do(s, steps[0]), steps[1..])
  }

  ghost predicate Goes(s: System, step: Step, t: System) { Enabled(s, step) && t == Do(s, step) }

  lemma OneStep(s: System, steps: seq<Step>, t: System)
    requires |steps| > 0 && Goes(s, steps[0], t) && Allowed(t, steps[1..])
    ensures Allowed(s, steps) && Final(s, steps) == Final(t, steps[1..])
  {
    hide Enabled, Do;
  }

  /** Steps with the systems between them are a run. */
  lemma {:induction false} Chained(systems: seq<System>, steps: seq<Step>)
    requires |systems| == |steps| + 1 && forall i | 0 <= i < |steps| :: Goes(systems[i], steps[i], systems[i + 1])
    ensures Allowed(systems[0], steps) && Final(systems[0], steps) == systems[|steps|]
    decreases |steps|
  {
    hide Goes;
    if |steps| > 0 {
      Chained(systems[1..], steps[1..]);
      OneStep(systems[0], steps, systems[1]);
    }
  }

  lemma {:induction false} Then(s: System, a: seq<Step>, b: seq<Step>)
    requires Allowed(s, a) && Allowed(Final(s, a), b)
    ensures Allowed(s, a + b) && Final(s, a + b) == Final(Final(s, a), b)
    decreases |a|
  {
    if |a| == 0 {
      assert a + b == b;
    } else {
      assert (a + b)[1..] == a[1..] + b;
      Then(Do(s, a[0]), a[1..], b);
    }
  }

  // ---------------------------------------------------------------- the invariant

  ghost predicate CountersOK(s: System) {
    var m := s.p.mem;
    && m.sequence <= m.reservedThrough <= MAX_UINT64
    && m.savedRevision <= m.revision
    && (m.epoch == "" ==> m.sequence == 0)
    && (m.epoch != "" ==> s.p.loaded && ValidEpoch(m.epoch) && m.epoch in s.epochs)
  }

  ghost predicate IssuedOK(s: System) {
    && (forall id | id in s.issued ::
          ValidID(id) && id.epoch in s.epochs && s.issued[id].id == id)
    && (s.up ==> forall id | id in s.issued && id.epoch == s.p.mem.epoch :: id.sequence <= s.p.mem.sequence)
    && (s.disk.File? ==> forall id | id in s.issued && id.epoch == s.disk.s.epoch :: id.sequence <= s.disk.s.reserved)
  }

  ghost predicate SavedOK(f: Saved, issued: Issued, epochs: set<string>) {
    && f.version == 1 && ValidEpoch(f.epoch) && f.epoch in epochs
    && f.sequence <= f.reserved <= MAX_UINT64
    && ContentOK(f.c, f.epoch, f.sequence, issued)
  }

  /** The file and the memory of the process: the file of the current epoch
      reserves what memory may issue, and is the memory when nothing is unsaved. */
  ghost predicate DiskOK(s: System) {
    && (s.disk.File? ==> SavedOK(s.disk.s, s.issued, s.epochs))
    && (s.up && s.disk.File? && s.disk.s.epoch == s.p.mem.epoch ==> s.p.mem.reservedThrough <= s.disk.s.reserved)
    && (s.up && s.disk.File? && s.p.mem.savedRevision == s.p.mem.revision ==>
          s.disk.s.epoch == s.p.mem.epoch && s.disk.s.c == s.p.mem.c)
  }

  ghost predicate InflightOK(s: System) {
    s.p.inflight.Writing? ==>
      var f, m := s.p.inflight, s.p.mem;
      && SavedOK(f.s, s.issued, s.epochs)
      && f.s.epoch == m.epoch && m.sequence <= m.reservedThrough <= f.s.reserved
      && m.savedRevision <= f.revision <= m.revision
      && (f.revision == m.revision ==> f.s.c == m.c)
  }

  ghost predicate LogOK(s: System) {
    && (forall id | id in s.log :: id in s.issued)
    && forall i, j | 0 <= i < j < |s.log| :: s.log[i] != s.log[j]
  }

  ghost predicate Inv(s: System) {
    && LogOK(s) && IssuedOK(s) && DiskOK(s)
    && (s.up ==>
          && CountersOK(s)
          && ContentOK(s.p.mem.c, s.p.mem.epoch, s.p.mem.sequence, s.issued)
          && InflightOK(s)
          && (!s.p.loaded ==> s.p.mem == NEW_MEM && s.p.inflight == Nothing && !s.p.serving))
  }

  // ---------------------------------------------------------------- steps keep it

  lemma PruneMemKeeps(m: Mem, at: int, issued: Issued)
    requires ContentOK(m.c, m.epoch, m.sequence, issued)
    ensures ContentOK(Prune(m, at).c, m.epoch, m.sequence, issued)
  {
    PruneKeeps(m.c, at, m.epoch, m.sequence, issued);
  }

  /** A section that leaves the counters alone and stamps every change. */
  ghost predicate Stamped(m: Mem, m': Mem) {
    && m'.epoch == m.epoch && m'.sequence == m.sequence && m'.reservedThrough == m.reservedThrough
    && m'.savedRevision == m.savedRevision && m.revision <= m'.revision
    && (m'.revision == m.revision ==> m'.c == m.c)
  }

  lemma StampedKeeps(s: System, m: Mem)
    requires Inv(s) && s.up && s.p.loaded && Stamped(s.p.mem, m)
    requires ContentOK(m.c, m.epoch, m.sequence, s.issued)
    ensures Inv(s.(p := s.p.(mem := m)))
  {
    hide ContentOK;
  }

  lemma PruneStamped(m: Mem, at: int)
    ensures Stamped(m, Prune(m, at))
  {
    hide PruneContent;
  }

  lemma AckStamped(m: Mem, chat: int, id: EventID, at: int)
    ensures Stamped(m, Ack(m, chat, id, at))
  {
    hide PruneContent, AckPending, AckClosed;
  }

  lemma ReplaceStamped(m: Mem, list: seq<Recipient>, at: int)
    ensures Stamped(m, Replace(m, list, at))
  {
    hide PruneContent, ReplaceContent;
  }

  /** An ID about to be issued has not been issued. */
  lemma NextIsNew(s: System)
    requires Inv(s) && s.up && CanAppend(s.p.mem)
    ensures EventID(s.p.mem.epoch, s.p.mem.sequence + 1) !in s.issued
  {}

  /** Memory after one event was issued: one more ID, a later revision. */
  ghost predicate OneMore(m: Mem, m': Mem, e: Event) {
    && m'.epoch == m.epoch && m'.sequence == m.sequence + 1 && m'.reservedThrough == m.reservedThrough
    && m'.savedRevision == m.savedRevision && m.revision < m'.revision
    && e.id == EventID(m.epoch, m.sequence + 1)
  }

  lemma IssueKeeps(s: System, m: Mem, e: Event)
    requires Inv(s) && s.up && CanAppend(s.p.mem) && OneMore(s.p.mem, m, e)
    requires ContentOK(m.c, m.epoch, m.sequence, s.issued[e.id := e])
    ensures Inv(Issue(s, s.p.(mem := m), e))
  {
    hide ContentOK;
    NextIsNew(s);
    var issued := s.issued[e.id := e];
    if s.disk.File? {
      ContentGrows(s.disk.s.c, s.disk.s.epoch, s.disk.s.sequence, s.disk.s.sequence, s.issued, issued);
    }
    if s.p.inflight.Writing? {
      var f := s.p.inflight.s;
      ContentGrows(f.c, f.epoch, f.sequence, f.sequence, s.issued, issued);
    }
  }

  lemma AppendMemKeeps(m: Mem, text: string, at: int, issued: Issued)
    requires ContentOK(m.c, m.epoch, m.sequence, issued)
    requires EventID(m.epoch, m.sequence + 1) !in issued
    ensures var e := NextEvent(m, text, at);
            && OneMore(m, Append(m, text, at), e)
            && ContentOK(Append(m, text, at).c, m.epoch, m.sequence + 1, issued[e.id := e])
  {
    hide ContentOK, PruneContent, AppendContent;
    var e := NextEvent(m, text, at);
    AppendKeeps(m.c, e, m.epoch, m.sequence, issued);
    PruneKeeps(AppendContent(m.c, e), at, m.epoch, m.sequence + 1, issued[e.id := e]);
  }

  lemma PublishMemKeeps(m: Mem, text: string, at: int, issued: Issued)
    requires ContentOK(m.c, m.epoch, m.sequence, issued)
    requires EventID(m.epoch, m.sequence + 1) !in issued
    ensures var e := NextEvent(m, text, at);
            var m' := Append(Prune(m, at), text, at);
            && OneMore(m, m', e)
            && ContentOK(m'.c, m'.epoch, m'.sequence, issued[e.id := e])
  {
    hide Append, PruneContent, ContentOK;
    PruneMemKeeps(m, at, issued);
    AppendMemKeeps(Prune(m, at), text, at, issued);
  }

  lemma AppendToKeeps(s: System, w: Waiting)
    requires Inv(s) && s.up && CanAppend(s.p.mem)
    ensures Inv(Issue(s, s.p.(mem := AppendTo(s.p, w).mem), NextEvent(s.p.mem, w.text, w.at)))
  {
    hide Append, Prune, ContentOK;
    NextIsNew(s);
    PublishMemKeeps(s.p.mem, w.text, w.at, s.issued);
    IssueKeeps(s, AppendTo(s.p, w).mem, NextEvent(s.p.mem, w.text, w.at));
  }

  lemma ReplaceMemKeeps(m: Mem, list: seq<Recipient>, at: int, issued: Issued)
    requires ContentOK(m.c, m.epoch, m.sequence, issued)
    ensures ContentOK(Replace(m, list, at).c, m.epoch, m.sequence, issued)
  {
    hide ContentOK, PruneContent, ReplaceContent;
    PruneKeeps(m.c, at, m.epoch, m.sequence, issued);
    ReplaceKeeps(PruneContent(m.c, at), list, at, m.epoch, m.sequence, issued);
  }

  lemma AckMemKeeps(m: Mem, chat: int, id: EventID, at: int, issued: Issued)
    requires ContentOK(m.c, m.epoch, m.sequence, issued)
    ensures ContentOK(Ack(m, chat, id, at).c, m.epoch, m.sequence, issued)
  {
    hide ContentOK, PruneContent, AckPending, AckClosed;
    PruneKeeps(m.c, at, m.epoch, m.sequence, issued);
    AckKeeps(PruneContent(m.c, at), chat, id, m.epoch, m.sequence, issued);
  }

  // ---------------------------------------------------------------- health batches

  /** A system whose memory has taken the first updates of a batch. */
  ghost function Midway(s: System, current: set<string>, updates: seq<Update>, at: int): System {
    var events := BatchEvents(DropHealth(s.p.mem, current), updates, at);
    s.(p := s.p.(mem := HealthBatch(s.p.mem, current, updates, at)),
       issued := IssueAll(s.issued, events), log := s.log + LogOf(events))
  }

  lemma {:induction false} BatchKeeps(s: System, current: set<string>, updates: seq<Update>, at: int)
    requires Inv(s) && s.up && s.p.loaded && s.p.mem.epoch != ""
    requires s.p.mem.sequence + EventCount(updates) <= s.p.mem.reservedThrough
    ensures Inv(Midway(s, current, updates, at))
    ensures Midway(s, current, updates, at).p.mem.sequence == s.p.mem.sequence + EventCount(updates)
    ensures Midway(s, current, updates, at).p.mem.reservedThrough == s.p.mem.reservedThrough
    ensures Midway(s, current, updates, at).p.mem.epoch == s.p.mem.epoch
  {
    hide Inv, ApplyUpdate, DropHealth;
    if |updates| == 0 {
      assert s.log + [] == s.log;
      DropKeeps(s, current);
    } else {
      var before, u := updates[..|updates| - 1], updates[|updates| - 1];
      BatchKeeps(s, current, before, at);
      MidwayNext(s, current, updates, at);
      hide Midway;
      UpdateKeeps(Midway(s, current, before, at), u, at);
    }
  }

  /** A batch is its updates one after another. */
  lemma MidwayNext(s: System, current: set<string>, updates: seq<Update>, at: int)
    requires |updates| > 0
    ensures var mid, u := Midway(s, current, updates[..|updates| - 1], at), updates[|updates| - 1];
            var m := ApplyUpdate(mid.p.mem, u, at);
            && mid.up == s.up && mid.p.loaded == s.p.loaded
            && Midway(s, current, updates, at) ==
               if u.text == "" then mid.(p := mid.p.(mem := m))
               else Issue(mid, mid.p.(mem := m), NextEvent(mid.p.mem, u.text, at))
  {
    hide ApplyUpdate, DropHealth;
    var before, u := updates[..|updates| - 1], updates[|updates| - 1];
    var mid := Midway(s, current, before, at);
    var events := BatchEvents(DropHealth(s.p.mem, current), before, at);
    if u.text == "" {
      assert events + [] == events;
    } else {
      var e := NextEvent(mid.p.mem, u.text, at);
      assert (events + [e])[..|events|] == events;
      assert s.log + LogOf(events + [e]) == (s.log + LogOf(events)) + [e.id];
    }
  }

  lemma DropKeeps(s: System, current: set<string>)
    requires Inv(s) && s.up && s.p.loaded
    ensures var m := DropHealth(s.p.mem, current);
            && Inv(s.(p := s.p.(mem := m))) && m.sequence == s.p.mem.sequence
            && m.reservedThrough == s.p.mem.reservedThrough && m.epoch == s.p.mem.epoch
  {
    var m := DropHealth(s.p.mem, current);
    assert s.p.mem.c.health.Keys - current == {} ==> m.c.health == s.p.mem.c.health;
    assert ContentOK(m.c, m.epoch, m.sequence, s.issued);
    StampedKeeps(s, m);
  }

  lemma WhenUp(s: System)
    requires Inv(s) && s.up
    ensures s.p.serving ==> s.p.loaded
    ensures s.p.mem.sequence <= s.p.mem.reservedThrough <= MAX_UINT64
    ensures ContentOK(s.p.mem.c, s.p.mem.epoch, s.p.mem.sequence, s.issued)
  {
    hide ContentOK;
  }

  lemma UpdateKeeps(s: System, u: Update, at: int)
    requires Inv(s) && s.up && s.p.loaded && s.p.mem.epoch != ""
    requires u.text != "" ==> CanAppend(s.p.mem)
    ensures var m := ApplyUpdate(s.p.mem, u, at);
            && m.epoch == s.p.mem.epoch && m.reservedThrough == s.p.mem.reservedThrough
            && m.sequence == s.p.mem.sequence + (if u.text == "" then 0 else 1)
            && Inv(if u.text == "" then s.(p := s.p.(mem := m))
                   else Issue(s, s.p.(mem := m), NextEvent(s.p.mem, u.text, at)))
  {
    hide Append, Inv;
    RecordKeeps(s, u);
    if u.text != "" { AnnounceKeeps(s.(p := s.p.(mem := WithRecord(s.p.mem, u))), u.text, at); }
  }

  lemma RecordKeeps(s: System, u: Update)
    requires Inv(s) && s.up && s.p.loaded
    ensures Inv(s.(p := s.p.(mem := WithRecord(s.p.mem, u))))
  {
    hide Inv, ContentOK;
    var h := WithRecord(s.p.mem, u);
    assert ContentOK(s.p.mem.c, s.p.mem.epoch, s.p.mem.sequence, s.issued) by { WhenUp(s); }
    HealthKeepsContent(s.p.mem.c, h.c, h.epoch, h.sequence, s.issued);
    StampedKeeps(s, h);
  }

  lemma HealthKeepsContent(c: Content, c': Content, epoch: string, sequence: nat, issued: Issued)
    requires ContentOK(c, epoch, sequence, issued) && c' == c.(health := c'.health)
    ensures ContentOK(c', epoch, sequence, issued)
  {}

  lemma AnnounceKeeps(s: System, text: string, at: int)
    requires Inv(s) && s.up && CanAppend(s.p.mem)
    ensures Inv(Issue(s, s.p.(mem := Append(s.p.mem, text, at)), NextEvent(s.p.mem, text, at)))
    ensures OneMore(s.p.mem, Append(s.p.mem, text, at), NextEvent(s.p.mem, text, at))
  {
    hide Append, ContentOK;
    NextIsNew(s);
    AppendMemKeeps(s.p.mem, text, at, s.issued);
    IssueKeeps(s, Append(s.p.mem, text, at), NextEvent(s.p.mem, text, at));
  }

  // ---------------------------------------------------------------- snapshots

  /** Every snapshot of well-formed memory is a file restore accepts, and
      restoring it gives back all of the content, the counter moved up to the reserve. */
  lemma SnapshotRestores(m: Mem, reserve: nat, issued: Issued)
    requires ContentOK(m.c, m.epoch, m.sequence, issued) && ValidEpoch(m.epoch)
    requires m.sequence <= m.reservedThrough <= MAX_UINT64 && reserve <= MAX_UINT64 - m.sequence
    ensures ValidSaved(ToSave(m, reserve))
    ensures Loaded(File(ToSave(m, reserve)), true).c == m.c
    ensures Loaded(File(ToSave(m, reserve)), true).epoch == m.epoch
    ensures Loaded(File(ToSave(m, reserve)), true).sequence == ToSave(m, reserve).reserved
    ensures m.reservedThrough <= ToSave(m, reserve).reserved <= MAX_UINT64
    ensures m.sequence + reserve <= ToSave(m, reserve).reserved
  {
    ContentValid(ToSave(m, reserve), issued);
  }

  lemma ContentValid(f: Saved, issued: Issued)
    requires f.version == 1 && ValidEpoch(f.epoch) && f.sequence <= f.reserved && f.sequence <= MAX_UINT64
    requires ContentOK(f.c, f.epoch, f.sequence, issued)
    ensures ValidSaved(f)
  {
    forall e | ListedIn(f, e)
      ensures e.id in issued && issued[e.id] == e
    {}
    forall chat, id | chat in f.c.closed && id in f.c.closed[chat]
      ensures ValidID(id) && id.epoch == f.epoch && id.sequence <= f.sequence
    {
      assert IssuedAs(id, f.epoch, f.sequence, issued);
    }
    forall chat, e | chat in f.c.closed && ListedIn(f, e) && e.id in f.c.closed[chat]
      ensures f.c.closed[chat][e.id] == e.at
    {
      assert IssuedAs(e.id, f.epoch, f.sequence, issued);
    }
  }

  // ---------------------------------------------------------------- the invariant holds

  lemma LoadKeeps(s: System, read: bool)
    requires Inv(s)
    ensures var m := Loaded(s.disk, read);
            && m.sequence <= m.reservedThrough <= MAX_UINT64 && m.savedRevision <= m.revision
            && ContentOK(m.c, m.epoch, m.sequence, s.issued)
            && (m.epoch != "" ==> s.disk.File? && m == Restored(s.disk.s) && ValidEpoch(m.epoch))
            && (m.epoch == "" ==> m.sequence == 0 && m.savedRevision < m.revision)
  {
    if s.disk.File? {
      var f := s.disk.s;
      ContentGrows(f.c, f.epoch, f.sequence, f.reserved, s.issued, s.issued);
    }
  }

  lemma StepKeeps(s: System, step: Step)
    requires Inv(s) && Enabled(s, step)
    ensures Inv(Do(s, step))
  {
    hide Inv, Do;
    match step
    case Start(read, resolved) => StartKeeps(s, read, resolved);
    case Load(read) => LoadStepKeeps(s, read);
    case Identify(e) => IdentifyKeeps(s, e);
    case PruneAt(at) => PruneStepKeeps(s, at);
    case PubAppend => PubAppendKeeps(s);
    case DrainAppend => DrainAppendKeeps(s);
    case SaveStart(reserve, at) => SaveStartKeeps(s, reserve, at);
    case SaveEnd(outcome) => SaveEndKeeps(s, outcome);
    case SaveNothing(reserve, at) => SaveNothingKeeps(s, reserve, at);
    case AckStep(chat, id, at) => AckStepKeeps(s, chat, id, at);
    case ReplaceStep(list, at) => ReplaceStepKeeps(s, list, at);
    case HealthStep(current, updates, at) => HealthStepKeeps(s, current, updates, at);
    case Crash(_) => WorldStepKeeps(s, step);
    case Lose => WorldStepKeeps(s, step);
    case Damage => WorldStepKeeps(s, step);
    case _ => TextStepKeeps(s, step);
  }

  lemma StartKeeps(s: System, read: bool, resolved: bool)
    requires Inv(s) && Enabled(s, Start(read, resolved))
    ensures Inv(Do(s, Start(read, resolved)))
  {
    hide Loaded, ContentOK;
    LoadKeeps(s, read);
    NewContentOK(s.issued);
  }

  lemma NewContentOK(issued: Issued)
    ensures ContentOK(NEW_MEM.c, NEW_MEM.epoch, NEW_MEM.sequence, issued)
  {}

  lemma LoadStepKeeps(s: System, read: bool)
    requires Inv(s) && Enabled(s, Load(read))
    ensures Inv(Do(s, Load(read)))
  {
    hide Loaded, ContentOK;
    LoadKeeps(s, read);
  }

  lemma IdentifyKeeps(s: System, e: string)
    requires Inv(s) && Enabled(s, Identify(e))
    ensures Inv(Do(s, Identify(e)))
  {
    hide ContentOK;
    assert forall id | id in s.issued :: id.epoch != e;
    NoEvents(s.p.mem.c, e, s.issued);
  }

  lemma PruneStepKeeps(s: System, at: int)
    requires Inv(s) && s.up && s.p.loaded
    ensures Inv(s.(p := s.p.(mem := Prune(s.p.mem, at))))
    ensures Inv(Do(s, PruneAt(at)))
  {
    hide Prune, ContentOK;
    PruneMemKeeps(s.p.mem, at, s.issued);
    PruneStamped(s.p.mem, at);
    StampedKeeps(s, Prune(s.p.mem, at));
  }

  lemma PubAppendKeeps(s: System)
    requires Inv(s) && Enabled(s, PubAppend)
    ensures Inv(Do(s, PubAppend))
  {
    hide Append, Prune, ContentOK;
    AppendToKeeps(s, s.p.publisher.w);
  }

  lemma DrainAppendKeeps(s: System)
    requires Inv(s) && Enabled(s, DrainAppend)
    ensures Inv(Do(s, DrainAppend))
  {
    hide Append, Prune, ContentOK;
    AppendToKeeps(s, s.p.drainer.w);
  }

  lemma SaveStartKeeps(s: System, reserve: nat, at: int)
    requires Inv(s) && Enabled(s, SaveStart(reserve, at))
    ensures Inv(Do(s, SaveStart(reserve, at)))
  {
    hide Prune, ContentOK;
    PruneStepKeeps(s, at);
    PruneStamped(s.p.mem, at);
    SnapshotRestores(Prune(s.p.mem, at), reserve, s.issued);
  }

  lemma SaveEndKeeps(s: System, outcome: Outcome)
    requires Inv(s) && Enabled(s, SaveEnd(outcome))
    ensures Inv(Do(s, SaveEnd(outcome)))
  {
    hide ContentOK;
  }

  lemma SaveNothingKeeps(s: System, reserve: nat, at: int)
    requires Inv(s) && Enabled(s, SaveNothing(reserve, at))
    ensures Inv(Do(s, SaveNothing(reserve, at)))
  {
    hide Prune, ContentOK;
    PruneStepKeeps(s, at);
  }

  lemma AckStepKeeps(s: System, chat: int, id: EventID, at: int)
    requires Inv(s) && Enabled(s, AckStep(chat, id, at))
    ensures Inv(Do(s, AckStep(chat, id, at)))
  {
    hide Ack, ContentOK;
    AckMemKeeps(s.p.mem, chat, id, at, s.issued);
    AckStamped(s.p.mem, chat, id, at);
    StampedKeeps(s, Ack(s.p.mem, chat, id, at));
  }

  lemma ReplaceStepKeeps(s: System, list: seq<Recipient>, at: int)
    requires Inv(s) && Enabled(s, ReplaceStep(list, at))
    ensures Inv(Do(s, ReplaceStep(list, at)))
  {
    hide Replace, ContentOK;
    ReplaceMemKeeps(s.p.mem, list, at, s.issued);
    ReplaceStamped(s.p.mem, list, at);
    StampedKeeps(s, Replace(s.p.mem, list, at));
  }

  lemma HealthStepKeeps(s: System, current: set<string>, updates: seq<Update>, at: int)
    requires Inv(s) && Enabled(s, HealthStep(current, updates, at))
    ensures Inv(Do(s, HealthStep(current, updates, at)))
  {
    hide Inv;
    assert s.p.loaded && s.p.mem.sequence <= s.p.mem.reservedThrough by { WhenUp(s); }
    BatchKeeps(s, current, updates, at);
  }

  /** Sections that only move texts keep all that the invariant is about. */
  lemma TextsKeep(s: System, p: Proc)
    requires Inv(s)
    requires p.mem == s.p.mem && p.inflight == s.p.inflight && p.loaded == s.p.loaded
    requires p.serving ==> s.p.serving || s.p.loaded
    ensures Inv(s.(p := p))
  {
    hide ContentOK, SavedOK, ValidEpoch;
  }

  lemma TextStepKeeps(s: System, step: Step)
    requires Inv(s) && Enabled(s, step)
    requires step.Switch? || step.PubCall? || step.PubRefuse? || step.PubUnsaved? || step.PubDefer? || step.DrainTake?
             || step.DrainStop? || step.DrainPop?
    ensures Inv(Do(s, step))
  {
    hide Inv;
    TextsKeep(s, Do(s, step).p);
  }

  lemma WorldStepKeeps(s: System, step: Step)
    requires Inv(s) && Enabled(s, step) && (step.Crash? || step.Lose? || step.Damage?)
    ensures Inv(Do(s, step))
  {
    hide ContentOK;
  }

  /** Before the first ID nothing is listed, whatever the epoch. */
  lemma NoEvents(c: Content, epoch: string, issued: Issued)
    requires ContentOK(c, "", 0, issued)
    ensures ContentOK(c, epoch, 0, issued)
  {
    assert forall e | e in c.recent :: IssuedAs(e.id, "", 0, issued);
    forall chat, id ensures id !in ClosedOf(c.closed, chat) {
      ClosedIssued(c, chat, id, "", 0, issued);
    }
    forall chat, id | chat in c.closed ensures id !in c.closed[chat] {
      assert id !in ClosedOf(c.closed, chat);
    }
    forall chat | chat in c.pending ensures ListOK(c.pending[chat], epoch, 0, issued) {
      assert forall e | e in c.pending[chat] :: IssuedAs(e.id, "", 0, issued);
    }
  }

  lemma {:induction false} RunKeeps(s: System, steps: seq<Step>)
    requires Inv(s) && Allowed(s, steps)
    ensures Inv(Final(s, steps))
    decreases |steps|
  {
    hide Inv, Do, Enabled;
    if |steps| > 0 {
      StepKeeps(s, steps[0]);
      RunKeeps(Do(s, steps[0]), steps[1..]);
    }
  }

  lemma InitKeeps(s: System)
    requires Init(s)
    ensures Inv(s)
  {}

  // ---------------------------------------------------------------- acks

  ghost predicate MemGone(m: Mem, chat: int, id: EventID) {
    Gone(m.c, m.epoch, m.sequence, chat, id)
  }

  /** A file gives its reserve as the counter. */
  ghost predicate FileGone(f: Saved, chat: int, id: EventID) {
    Gone(f.c, f.epoch, f.reserved, chat, id)
  }

  /** The pair cannot come back from memory, from the file or from a save in flight. */
  ghost predicate GoneForGood(s: System, chat: int, id: EventID) {
    && id.epoch in s.epochs && ValidEpoch(id.epoch)
    && (s.up ==> MemGone(s.p.mem, chat, id))
    && (s.disk.File? ==> FileGone(s.disk.s, chat, id))
    && (s.up && s.p.inflight.Writing? ==> FileGone(s.p.inflight.s, chat, id))
  }

  ghost predicate AckInv(s: System) {
    && (forall p | p in s.settled :: GoneForGood(s, p.0, p.1))
    && (s.up ==>
          && (!s.p.loaded ==> s.p.acked == {})
          && (forall p | p in s.p.acked ::
                p.1.epoch in s.epochs && ValidEpoch(p.1.epoch) && MemGone(s.p.mem, p.0, p.1))
          && (s.p.inflight.Writing? ==>
                s.p.inflight.covers <= s.p.acked && forall p | p in s.p.inflight.covers ::
                    FileGone(s.p.inflight.s, p.0, p.1)))
  }

  lemma PruneMemGone(m: Mem, at: int, chat: int, id: EventID)
    requires MemGone(m, chat, id)
    ensures MemGone(Prune(m, at), chat, id)
  {
    hide PruneContent, Gone;
    PruneStaysGone(m.c, at, m.epoch, m.sequence, chat, id);
  }

  lemma AppendMemGone(m: Mem, text: string, at: int, chat: int, id: EventID)
    requires MemGone(m, chat, id)
    ensures MemGone(Append(m, text, at), chat, id)
  {
    hide PruneContent, AppendContent, Gone;
    var e := NextEvent(m, text, at);
    AppendStaysGone(m.c, e, m.epoch, m.sequence, chat, id);
    PruneStaysGone(AppendContent(m.c, e), at, m.epoch, m.sequence + 1, chat, id);
  }

  lemma AckMemGone(m: Mem, chat': int, id': EventID, at: int, chat: int, id: EventID)
    requires MemGone(m, chat, id)
    ensures MemGone(Ack(m, chat', id', at), chat, id)
  {
    hide PruneContent, AckPending, AckClosed, Gone;
    PruneMemGone(m, at, chat, id);
    AckStaysGone(PruneContent(m.c, at), chat', id', m.epoch, m.sequence, chat, id);
  }

  lemma AckedGone(m: Mem, chat: int, id: EventID, at: int)
    requires AckAllowed(m, id)
    ensures MemGone(Ack(m, chat, id, at), chat, id)
  {
    hide PruneContent, AckPending, AckClosed, Gone;
    AckMakesGone(PruneContent(m.c, at), chat, id, m.epoch, m.sequence);
  }

  lemma ReplaceMemGone(m: Mem, list: seq<Recipient>, at: int, issued: Issued, chat: int, id: EventID)
    requires ContentOK(m.c, m.epoch, m.sequence, issued) && MemGone(m, chat, id)
    ensures MemGone(Replace(m, list, at), chat, id)
  {
    hide PruneContent, ReplaceContent, Gone, ContentOK;
    PruneMemGone(m, at, chat, id);
    PruneKeeps(m.c, at, m.epoch, m.sequence, issued);
    ReplaceStaysGone(PruneContent(m.c, at), list, at, m.epoch, m.sequence, issued, chat, id);
  }

  lemma {:induction false} BatchMemGone(m: Mem, updates: seq<Update>, at: int, chat: int, id: EventID)
    requires MemGone(m, chat, id)
    ensures MemGone(ApplyUpdates(m, updates, at), chat, id)
  {
    if |updates| > 0 {
      hide Append, WithRecord, MemGone;
      var before, u := updates[..|updates| - 1], updates[|updates| - 1];
      BatchMemGone(m, before, at, chat, id);
      var mid := ApplyUpdates(m, before, at);
      SameQueuesGone(mid, WithRecord(mid, u), chat, id);
      if u.text != "" { AppendMemGone(WithRecord(mid, u), u.text, at, chat, id); }
    }
  }

  lemma SameQueuesGone(m: Mem, m': Mem, chat: int, id: EventID)
    ensures m' == m.(c := m.c.(health := m'.c.health), revision := m'.revision) && MemGone(m, chat, id)
            ==> MemGone(m', chat, id)
  {}

  /** What a step makes of the memory of a loaded process keeps a pair gone. */
  lemma StepMemGone(s: System, step: Step, chat: int, id: EventID)
    requires Inv(s) && Enabled(s, step) && s.up && !step.Load? && !step.Crash?
    requires id.epoch in s.epochs && MemGone(s.p.mem, chat, id)
    ensures MemGone(Do(s, step).p.mem, chat, id)
  {
    hide Prune, Append, Ack, Replace, Inv, Gone, NothingToSave, ToSave;
    match step
    case Identify(e) => IdentifyGone(s, e, chat, id);
    case PruneAt(at) => PruneMemGone(s.p.mem, at, chat, id);
    case PubAppend => PublishMemGone(s.p.mem, s.p.publisher.w, chat, id);
    case DrainAppend => PublishMemGone(s.p.mem, s.p.drainer.w, chat, id);
    case SaveStart(_, at) => PruneMemGone(s.p.mem, at, chat, id);
    case SaveNothing(_, at) => PruneMemGone(s.p.mem, at, chat, id);
    case AckStep(chat', id', at) => AckMemGone(s.p.mem, chat', id', at, chat, id);
    case ReplaceStep(list, at) =>
      WhenUp(s);
      ReplaceMemGone(s.p.mem, list, at, s.issued, chat, id);
    case HealthStep(current, updates, at) =>
      SameQueuesGone(s.p.mem, DropHealth(s.p.mem, current), chat, id);
      BatchMemGone(DropHealth(s.p.mem, current), updates, at, chat, id);
    case _ =>
  }

  lemma PublishMemGone(m: Mem, w: Waiting, chat: int, id: EventID)
    requires MemGone(m, chat, id)
    ensures MemGone(Append(Prune(m, w.at), w.text, w.at), chat, id)
  {
    hide Prune, Append, MemGone;
    PruneMemGone(m, w.at, chat, id);
    AppendMemGone(Prune(m, w.at), w.text, w.at, chat, id);
  }

  /** A new epoch is none the acks have named. */
  lemma IdentifyGone(s: System, e: string, chat: int, id: EventID)
    requires Inv(s) && Enabled(s, Identify(e)) && id.epoch in s.epochs && MemGone(s.p.mem, chat, id)
    ensures MemGone(Do(s, Identify(e)).p.mem, chat, id)
  {}

  /** A file with the pair gone restores to memory with the pair gone, and so
      does no file at all. */
  lemma LoadedGone(disk: Disk, read: bool, chat: int, id: EventID)
    requires ValidEpoch(id.epoch) && (disk.File? ==> FileGone(disk.s, chat, id))
    ensures MemGone(Loaded(disk, read), chat, id)
  {
    hide ValidSaved;
  }

  lemma SnapshotGone(m: Mem, reserve: nat, chat: int, id: EventID)
    requires MemGone(m, chat, id) && m.sequence <= ToSave(m, reserve).reserved
    ensures FileGone(ToSave(m, reserve), chat, id)
  {}

  /** A pair gone for good stays so. */
  lemma StepStaysGone(s: System, step: Step, chat: int, id: EventID)
    requires Inv(s) && Enabled(s, step) && GoneForGood(s, chat, id)
    ensures GoneForGood(Do(s, step), chat, id)
  {
    hide Inv, MemGone, FileGone, Loaded, Prune, Append, Ack, Replace, NothingToSave, ToSave, ApplyUpdates;
    match step
    case Start(read, resolved) =>
      LoadedGone(s.disk, read, chat, id);
      LoadedGone(Missing, read, chat, id);
      assert Loaded(Missing, read) == NEW_MEM by { NothingLoaded(read); }
    case Load(read) => LoadedGone(s.disk, read, chat, id);
    case SaveStart(reserve, at) =>
      PruneMemGone(s.p.mem, at, chat, id);
      SnapshotCovers(s, reserve, at);
      SnapshotGone(Prune(s.p.mem, at), reserve, chat, id);
    case Crash(_) =>
    case _ => if s.up { StepMemGone(s, step, chat, id); }
  }

  lemma NothingLoaded(read: bool)
    ensures Loaded(Missing, read) == NEW_MEM
  {}

  lemma SnapshotCovers(s: System, reserve: nat, at: int)
    requires Inv(s) && Enabled(s, SaveStart(reserve, at))
    ensures Prune(s.p.mem, at).sequence <= ToSave(Prune(s.p.mem, at), reserve).reserved
  {
    hide PruneContent;
    WhenUp(s);
  }

  /** When nothing is unsaved, the file is the memory. */
  lemma SavedIsMemory(s: System, at: int, reserve: nat, chat: int, id: EventID)
    requires Inv(s) && s.up && s.p.loaded
    requires NothingToSave(Prune(s.p.mem, at), reserve) && MemGone(Prune(s.p.mem, at), chat, id)
    ensures s.disk.File? ==> FileGone(s.disk.s, chat, id)
  {
    hide ContentOK, Prune;
    PruneStepKeeps(s, at);
    PruneStamped(s.p.mem, at);
  }

  lemma AckStepInv(s: System, step: Step)
    requires Inv(s) && Enabled(s, step) && AckInv(s)
    ensures forall p | p in s.settled :: GoneForGood(Do(s, step), p.0, p.1)
    ensures Do(s, step).up && s.up ==>
              forall p | p in s.p.acked ::
                p.1.epoch in Do(s, step).epochs && ValidEpoch(p.1.epoch) && MemGone(Do(s, step).p.mem, p.0, p.1)
  {
    hide Inv, GoneForGood, MemGone, FileGone;
    forall p | p in s.settled ensures GoneForGood(Do(s, step), p.0, p.1) {
      StepStaysGone(s, step, p.0, p.1);
    }
    if Do(s, step).up && s.up {
      forall p | p in s.p.acked
        ensures p.1.epoch in Do(s, step).epochs && ValidEpoch(p.1.epoch) && MemGone(Do(s, step).p.mem, p.0, p.1)
      {
        StepMemGone(s, step, p.0, p.1);
      }
    }
  }

  lemma AckInvKept(s: System, step: Step)
    requires Inv(s) && Enabled(s, step) && AckInv(s)
    ensures AckInv(Do(s, step))
  {
    hide Inv, Do, AckInv;
    match step
    case SaveStart(reserve, at) => SaveStartKeepsAcks(s, reserve, at);
    case SaveEnd(outcome) => SaveEndKeepsAcks(s, outcome);
    case SaveNothing(reserve, at) => SaveNothingKeepsAcks(s, reserve, at);
    case AckStep(chat, id, at) => AckKeepsAcks(s, chat, id, at);
    case _ => OtherKeepsAcks(s, step);
  }

  lemma SaveStartKeepsAcks(s: System, reserve: nat, at: int)
    requires Inv(s) && Enabled(s, SaveStart(reserve, at)) && AckInv(s)
    ensures AckInv(Do(s, SaveStart(reserve, at)))
  {
    hide Inv, GoneForGood, MemGone, FileGone, Prune, NothingToSave, ToSave;
    AckStepInv(s, SaveStart(reserve, at));
    SnapshotHasAcks(s, reserve, at);
  }

  lemma SaveEndKeepsAcks(s: System, outcome: Outcome)
    requires Inv(s) && Enabled(s, SaveEnd(outcome)) && AckInv(s)
    ensures AckInv(Do(s, SaveEnd(outcome)))
  {
    hide Inv, GoneForGood, MemGone, FileGone;
    AckStepInv(s, SaveEnd(outcome));
    SaveEndSettles(s, outcome);
  }

  lemma SaveNothingKeepsAcks(s: System, reserve: nat, at: int)
    requires Inv(s) && Enabled(s, SaveNothing(reserve, at)) && AckInv(s)
    ensures AckInv(Do(s, SaveNothing(reserve, at)))
  {
    hide Inv, GoneForGood, MemGone, FileGone, Prune, NothingToSave;
    AckStepInv(s, SaveNothing(reserve, at));
    SaveNothingSettles(s, reserve, at);
  }

  lemma AckKeepsAcks(s: System, chat: int, id: EventID, at: int)
    requires Inv(s) && Enabled(s, AckStep(chat, id, at)) && AckInv(s)
    ensures AckInv(Do(s, AckStep(chat, id, at)))
  {
    hide Inv, GoneForGood, MemGone, FileGone, Ack;
    AckStepInv(s, AckStep(chat, id, at));
    AckedGone(s.p.mem, chat, id, at);
    WhenUp(s);
  }

  lemma OtherKeepsAcks(s: System, step: Step)
    requires Inv(s) && Enabled(s, step) && AckInv(s)
    requires !step.SaveStart? && !step.SaveEnd? && !step.SaveNothing? && !step.AckStep?
    ensures AckInv(Do(s, step))
  {
    hide Inv, GoneForGood, MemGone, FileGone, Loaded, Prune, Append, Replace, ApplyUpdates;
    AckStepInv(s, step);
  }

  lemma SnapshotHasAcks(s: System, reserve: nat, at: int)
    requires Inv(s) && Enabled(s, SaveStart(reserve, at)) && AckInv(s)
    ensures forall p | p in s.p.acked :: FileGone(ToSave(Prune(s.p.mem, at), reserve), p.0, p.1)
  {
    hide Inv, MemGone, FileGone, Prune, NothingToSave, ToSave;
    SnapshotCovers(s, reserve, at);
    forall p | p in s.p.acked ensures FileGone(ToSave(Prune(s.p.mem, at), reserve), p.0, p.1) {
      PruneMemGone(s.p.mem, at, p.0, p.1);
      SnapshotGone(Prune(s.p.mem, at), reserve, p.0, p.1);
    }
  }

  lemma SaveEndSettles(s: System, outcome: Outcome)
    requires Inv(s) && Enabled(s, SaveEnd(outcome)) && AckInv(s)
    ensures forall p | p in Do(s, SaveEnd(outcome)).settled - s.settled ::
            GoneForGood(Do(s, SaveEnd(outcome)), p.0, p.1)
  {
    hide Inv, Gone;
  }

  lemma SaveNothingSettles(s: System, reserve: nat, at: int)
    requires Inv(s) && Enabled(s, SaveNothing(reserve, at)) && AckInv(s)
    ensures forall p | p in s.p.acked :: GoneForGood(Do(s, SaveNothing(reserve, at)), p.0, p.1)
  {
    hide MemGone, FileGone, Prune, NothingToSave, ContentOK;
    forall p | p in s.p.acked ensures GoneForGood(Do(s, SaveNothing(reserve, at)), p.0, p.1) {
      PruneMemGone(s.p.mem, at, p.0, p.1);
      SavedIsMemory(s, at, reserve, p.0, p.1);
    }
  }

  lemma SettledGrows(s: System, step: Step)
    requires Enabled(s, step)
    ensures s.settled <= Do(s, step).settled
  {
    hide Inv, Loaded, Prune, Append, Replace, Ack, ApplyUpdates, ValidEpoch;
  }

  lemma {:induction false} RunKeepsAcks(s: System, steps: seq<Step>)
    requires Inv(s) && AckInv(s) && Allowed(s, steps)
    ensures AckInv(Final(s, steps)) && Inv(Final(s, steps))
    ensures s.settled <= Final(s, steps).settled
    decreases |steps|
  {
    hide Inv, AckInv, Do, Enabled;
    if |steps| > 0 {
      StepKeeps(s, steps[0]);
      AckInvKept(s, steps[0]);
      SettledGrows(s, steps[0]);
      RunKeepsAcks(Do(s, steps[0]), steps[1..]);
    }
  }
}
