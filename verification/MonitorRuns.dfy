/** Whole runs of the server monitor: the sections of its loop, its workers, its
    callers, sessions that exit and time that passes, in any order the code
    leaves open. What the loop does between two sections without giving way is
    kept by a small program counter; history fields record what no section reads.
    What is kept by every step is proved here, what follows of every run in
    module MonitorSafety. */
module MonitorRuns {
  import opened MonitorState

  /** What the loop must do next: after it has read settings that disable the
      monitor it stops and says so, after it has found the WAN down it says so. */
  datatype Pc = Free | MustDisable | MustPause

  /** An endpoint or a control address answered at `at`, and the loop took note of
      it at `taken`. */
  datatype Answer = Answer(at: int, taken: int)

  datatype System = System(
    m: Monitor,
    pc: Pc,
    exited: set<Session>,
    lastSession: Session,
    workers: set<Work>,
    results: set<Result>,
    clock: int,
    dispatched: seq<Work>,            // every check, in the order of dispatch
    finished: seq<Work>,              // every check, in the order of completion
    resolved: set<(string, nat)>,     // completions counted, by key
    answers: set<Answer>,             // the successful checks taken in the session, and the answers of controls
    rejected: set<(string, string)>)  // keys this process rejected, with their outbounds

  datatype Step =
    | ReadSettings(settings: Settings)
    | MergeStep(eps: map<string, Endpoint>, refused: map<string, string>, now: int)
    | SetStateStep(state: State)
    | StopStep
    | StartStep
    | CrashStep
    | RejectStep(key: string, reason: string, now: int)
    | ReassessStep(order: set<string>, now: int)
    | DispatchStep(key: string, now: int)
    | ApplyStep(r: Result, next: int)
    | GuardUpStep(now: int)
    | GuardDownStep(now: int)
    | BackStep(now: int)
    | QueueStep(keys: set<string>, check: bool)
    | RegisterStep(keys: set<string>)
    | ShutdownStep
    | FinishStep(w: Work, ok: bool, reason: string, latency: int)
    | ExitStep(session: Session)
    | TimeStep(now: int)

  ghost predicate Enabled(s: System, step: Step) {
    var m := s.m;
    match step
    case ReadSettings(_) => s.pc == Free
    case MergeStep(eps, refused, now) =>
      s.pc != MustPause && now <= s.clock && (forall k | k in eps :: eps[k].key == k) && eps.Keys !! refused.Keys
    case SetStateStep(state) =>
      (match s.pc
       case Free => (state == OK ==> !m.wanPaused) && (m.settings.enabled || state == Disabled)
       case MustDisable => state == Disabled
       case MustPause => state == WANDown)
    case StopStep => s.pc != MustPause
    case StartStep => s.pc == Free && m.session == NO_SESSION && !m.wanPaused
    case CrashStep => s.pc == Free && m.session != NO_SESSION && m.session in s.exited
    case RejectStep(_, _, now) => s.pc == Free && !m.wanPaused && now <= s.clock
    case ReassessStep(_, now) => s.pc == Free && !m.wanPaused && now <= s.clock
    case DispatchStep(key, now) =>
      s.pc == Free && m.state == OK && m.session != NO_SESSION && key in m.entries && Due(m.entries[key], now)
          && now <= s.clock
    case ApplyStep(r, next) => s.pc == Free && r in s.results && next > s.clock
    case GuardUpStep(now) => s.pc == Free && m.state == OK && m.session != NO_SESSION && now <= s.clock
    case GuardDownStep(now) => s.pc == Free && m.state == OK && m.session != NO_SESSION && now <= s.clock
    case BackStep(now) => s.pc == Free && m.wanPaused && m.state == WANDown && now <= s.clock
    case QueueStep(_, _) => Queueable(m)
    case RegisterStep(keys) => ActivityOf(m, s.exited) == Active && keys != {}
    case ShutdownStep => s.pc == Free
    case FinishStep(w, _, _, _) => w in s.workers
    case ExitStep(session) => NO_SESSION < session <= s.lastSession
    case TimeStep(now) => s.clock <= now
  }

  /** The endpoints a section publishes held failures of. */
  function PublishedKeys(m: Monitor): set<string> {
    set k | k in m.entries && Publishes(m, k)
  }

  /** The endpoints whose check an answer resolves. */
  function AppliedKeys(m: Monitor, exited: set<Session>, r: Result, now: int): set<string> {
    if Gone(m, exited, r) || Stale(m, r) then {}
    else if r.ok then
      {r.w.key} + PublishedKeys(m)
    else if WANEvidence(HeldBack(m, r, now), now) then PublishedKeys(HeldBack(m, r, now)) else {}
  }

  function Resolves(s: System, step: Step): set<string> {
    match step
    case ApplyStep(r, _) => AppliedKeys(s.m, s.exited, r, s.clock)
    case GuardUpStep(_) => PublishedKeys(s.m)
    case _ => {}
  }

  /** The monitor's own part of a step. */
  ghost function Next(s: System, step: Step): Monitor
    requires Enabled(s, step)
  {
    var m := s.m;
    match step
    case ReadSettings(settings) => m.(settings := settings)
    case MergeStep(eps, refused, now) => Merge(m, eps, refused, now)
    case SetStateStep(state) => SetState(m, state)
    case StopStep => StopSession(m)
    case StartStep => StartSession(m, s.lastSession + 1)
    case CrashStep => StopSession(m)
    case RejectStep(key, reason, now) => RejectKey(m, key, reason, now)
    case ReassessStep(order, now) => Reassess(m, order, now)
    case DispatchStep(key, _) => Dispatch(m, key)
    case ApplyStep(r, next) => Apply(m, s.exited, r, s.clock, next)
    case GuardUpStep(now) => GuardUp(m, now)
    case GuardDownStep(now) => GuardDown(m, now)
    case BackStep(now) => Back(m, now)
    case QueueStep(keys, check) => Queue(m, keys, check)
    case RegisterStep(keys) => Register(m, keys)
    case ShutdownStep => Invalidate(m.(closed := true))
    case FinishStep(_, _, _, _) => m.(sequence := m.sequence + 1)
    case ExitStep(_) => m
    case TimeStep(_) => m
  }

  ghost function NextPc(s: System, step: Step): Pc {
    match step
    case ReadSettings(settings) => if settings.enabled then Free else MustDisable
    case SetStateStep(_) => Free
    case GuardDownStep(_) => MustPause
    case _ => s.pc
  }

  ghost function Do(s: System, step: Step): System
    requires Enabled(s, step)
  {
    var m := Next(s, step);
    var t := s.(m := m, pc := NextPc(s, step),
                resolved := s.resolved
                            + set k | k in Resolves(s, step) && k in m.entries :: (k, m.entries[k].completed));
    match step
    case MergeStep(_, refused, _) => t.(rejected := s.rejected + set k | k in refused :: (k, ""))
    case StartStep => t.(lastSession := s.lastSession + 1)
    case RejectStep(key, _, _) =>
      if key in s.m.entries then t.(rejected := s.rejected + {(key, s.m.entries[key].ep.outbound)}) else t
    case DispatchStep(key, _) =>
      var w := Work(key, s.m.session, s.m.generation, s.m.starts + 1);
      t.(workers := s.workers + {w}, dispatched := s.dispatched + [w])
    case ApplyStep(r, _) =>
      t.(results := s.results - {r},
         answers := s.answers
                    + if r.ok && !Gone(s.m, s.exited, r) && !Stale(s.m, r) then {Answer(r.at, s.clock)} else {})
    case GuardUpStep(_) => t.(answers := s.answers + {Answer(s.clock, s.clock)})
    case BackStep(_) => t.(answers := s.answers + {Answer(s.clock, s.clock)})
    case FinishStep(w, ok, reason, latency) =>
      t.(workers := s.workers - {w}, finished := s.finished + [w],
         results := s.results + {Result(w, ok, reason, latency, s.m.sequence + 1, s.clock)})
    case ExitStep(session) => t.(exited := s.exited + {session})
    case TimeStep(now) => t.(clock := now)
    case _ => t
  }

  ghost predicate Init(s: System) {
    && s.m.entries == map[] && s.m.pending == map[] && s.m.recent == [] && s.m.controlOK == Never
    && s.m.session == NO_SESSION && s.m.state == OK && s.m.settings.enabled && !s.m.wanPaused && !s.m.closed
    && s.m.sequence == 0 && s.m.starts == 0 && s.m.generation == 1
    && s.pc == Free && s.lastSession == 0 && s.exited == {} && s.workers == {} && s.results == {}
    && s.dispatched == [] && s.finished == [] && s.resolved == {} && s.answers == {} && s.rejected == {}
  }

  ghost predicate Allowed(s: System, steps: seq<Step>)
    decreases |steps|
  {
    |steps| > 0 ==> Enabled(s, steps[0]) && Allowed(Do(s, steps[0]), steps[1..])
  }

  ghost function Final(s: System, steps: seq<Step>): System
    requires Allowed(s, steps)
    decreases |steps|
  {
    if |steps| == 0 then s else Final(Do(s, steps[0]), steps[1..])
  }

  ghost predicate Goes(s: System, step: Step, t: System) { Enabled(s, step) && t == Do(s, step) }

  lemma OneStep(s: System, steps: seq<Step>, t: System)
    requires |steps| > 0 && Goes(s, steps[0], t) && Allowed(t, steps[1..])
    ensures Allowed(s, steps) && Final(s, steps) == Final(t, steps[1..])
  {
    hide Enabled, Do;
  }

  /** Steps with the systems between them are a run. */
  lemma {:induction false} Chained(systems: seq<System>, steps: seq<Step>)
    requires |systems| == |steps| + 1 && forall i | 0 <= i < |steps| :: Goes(systems[i], steps[i], systems[i + 1])
    ensures Allowed(systems[0], steps) && Final(systems[0], steps) == systems[|steps|]
    decreases |steps|
  {
    hide Goes;
    if |steps| > 0 {
      Chained(systems[1..], steps[1..]);
      OneStep(systems[0], steps, systems[1]);
    }
  }

  lemma {:induction false} Then(s: System, a: seq<Step>, b: seq<Step>)
    requires Allowed(s, a) && Allowed(Final(s, a), b)
    ensures Allowed(s, a + b) && Final(s, a + b) == Final(Final(s, a), b)
    decreases |a|
  {
    hide Do, Enabled;
    if |a| == 0 {
      assert a + b == b;
    } else {
      assert (a + b)[1..] == a[1..] + b;
      Then(Do(s, a[0]), a[1..], b);
    }
  }

  // ---------------------------------------------------------------- the invariant

  /** Where the loop can be with a paused or disabled monitor. */
  ghost predicate PcOK(s: System) {
    && (s.m.wanPaused && s.m.state == OK ==> s.pc == MustPause)
    && (!s.m.settings.enabled ==> s.pc == MustDisable || s.m.state == Disabled)
    && (s.pc == MustDisable ==> !s.m.settings.enabled)
    && (s.pc == MustPause ==> s.m.wanPaused && s.m.state == OK)
  }

  ghost predicate Dispatched(s: System, w: Work) {
    0 < w.started <= |s.dispatched| && s.dispatched[w.started - 1] == w
  }

  /** Completion n was that of check w. */
  ghost predicate Finished(s: System, w: Work, n: nat) {
    Dispatched(s, w) && 0 < n <= |s.finished| && s.finished[n - 1] == w
  }

  ghost predicate ChecksOK(s: System) {
    && s.m.starts == |s.dispatched| && s.m.sequence == |s.finished|
    && (forall w | w in s.dispatched :: w.session != NO_SESSION)
    && (forall w | w in s.workers :: Dispatched(s, w))
    && (forall r | r in s.results :: Finished(s, r.w, r.number))
    && (forall p | p in s.resolved :: p.1 <= |s.finished|)
  }

  /** An entry's proof is a check that was dispatched, completed and counted. */
  ghost predicate ProofOK(s: System, k: string, e: Entry) {
    e.completed != 0 ==>
      && Finished(s, Work(k, e.completedSession, e.completedGeneration, e.completedStart), e.completed)
      && (k, e.completed) in s.resolved
  }

  ghost predicate EntriesOK(s: System) {
    && (forall k | k in s.m.entries :: ProofOK(s, k, s.m.entries[k]))
    && (forall k | k in s.m.entries && s.m.entries[k].rejectedCurrent :: (k, s.m.entries[k].ep.outbound) in s.rejected)
    && (forall k | k in s.m.pending :: PendingOK(s, k, s.m.pending[k]))
  }

  ghost predicate PendingOK(s: System, k: string, o: Outcome) {
    Finished(s, Work(k, s.m.session, o.generation, o.started), o.number)
  }

  /** What the guard takes for proof that the WAN works did happen. */
  ghost predicate AnswersOK(s: System) {
    && (s.m.controlOK.At? ==> exists a :: a in s.answers && s.m.controlOK.t <= a.taken)
    && (forall i | 0 <= i < |s.m.recent| && s.m.recent[i].ok ::
          exists a :: a in s.answers && a.taken == s.m.recent[i].at)
    && (forall a | a in s.answers :: a.at <= a.taken <= s.clock)
    && (forall r | r in s.results :: r.at <= s.clock)
  }

  ghost predicate Inv(s: System) {
    PcOK(s) && ChecksOK(s) && EntriesOK(s) && AnswersOK(s)
  }

  // ---------------------------------------------------------------- revisions

  /** A section that keeps the epoch: revisions only grow, and an endpoint whose
      revision stands still has its public state and no check of it resolved. */
  ghost predicate Keeps(m: Monitor, m': Monitor, ks: set<string>) {
    && m'.generation == m.generation && m'.session == m.session && m'.state == m.state && m'.closed == m.closed
    && m'.entries.Keys == m.entries.Keys
    && forall k | k in m.entries ::
         && m.entries[k].revision <= m'.entries[k].revision
         && (m'.entries[k].revision == m.entries[k].revision ==> m'.entries[k].st == m.entries[k].st && k !in ks)
  }

  /** Every section keeps the epoch or opens a new one. */
  ghost predicate Advances(m: Monitor, m': Monitor, ks: set<string>) {
    m'.generation > m.generation || Keeps(m, m', ks)
  }

  lemma KeepsTwice(a: Monitor, b: Monitor, c: Monitor, ks: set<string>, ls: set<string>)
    requires Keeps(a, b, ks) && Keeps(b, c, ls)
    ensures Keeps(a, c, ks + ls)
  {
    forall k | k in a.entries && c.entries[k].revision == a.entries[k].revision
      ensures c.entries[k].st == a.entries[k].st && k !in ks + ls
    {
      assert k in b.entries;
      assert b.entries[k].revision == a.entries[k].revision;
    }
  }

  lemma PublishKeeps(m: Monitor)
    ensures Keeps(m, PublishPending(m), PublishedKeys(m))
  {
    hide Fail, Completed;
    forall k | k in m.entries
      ensures var e := PublishPending(m).entries[k];
              if k in PublishedKeys(m) then e.revision == m.entries[k].revision + 1 else e == m.entries[k]
    {
      PublishedIs(m, k);
    }
  }

  lemma PublishedIs(m: Monitor, k: string)
    requires k in m.entries
    ensures var e := PublishedEntry(m, k);
            if Publishes(m, k)
            then e.revision == m.entries[k].revision + 1 && e.st.status == Dead && e.completed == m.pending[k].number
            else e == m.entries[k]
  {}

  lemma SucceedKeeps(m: Monitor, r: Result, now: int, next: int)
    requires r.w.key in m.entries
    ensures var e := Completed(Succeed(m.entries[r.w.key], now, r.latency, next), OutcomeOf(r, now), m.session,
                               m.generation);
            Keeps(m, m.(entries := m.entries[r.w.key := e]), {r.w.key})
  {}

  lemma NotedKeeps(m: Monitor, r: Result, now: int)
    requires r.w.key in m.entries
    ensures Keeps(m, Noted(m, r, now), {}) && Keeps(m, HeldBack(m, r, now), {}) && Keeps(m, Landed(m, r.w.key), {})
  {
    hide Young;
  }

  /** The held failures are published with the success that proves the WAN. */
  lemma ApplySuccessKeeps(m: Monitor, r: Result, now: int, next: int)
    requires r.w.key in m.entries
    ensures Keeps(m, ApplySuccess(m, r, now, next), {r.w.key} + PublishedKeys(m))
  {
    hide Keeps, Noted, Succeed, Completed, PublishPending, PublishedKeys;
    var n := Noted(m, r, now);
    NotedKeeps(m, r, now);
    NotedHas(m, r, now);
    SucceedKeeps(n, r, now, next);
    var e := Completed(Succeed(n.entries[r.w.key], now, r.latency, next), OutcomeOf(r, now), n.session, n.generation);
    var p := n.(entries := n.entries[r.w.key := e]);
    PublishKeeps(p);
    KeepsTwice(m, n, p, {}, {r.w.key});
    KeepsTwice(m, p, PublishPending(p), {} + {r.w.key}, PublishedKeys(p));
    SamePublished(m, p, r, now);
    FewerResolved(m, PublishPending(p), {} + {r.w.key} + PublishedKeys(p), {r.w.key} + PublishedKeys(m));
  }

  lemma FewerResolved(m: Monitor, m': Monitor, ks: set<string>, ls: set<string>)
    requires Keeps(m, m', ks) && ls <= ks
    ensures Keeps(m, m', ls)
  {}

  lemma NotedHas(m: Monitor, r: Result, now: int)
    requires r.w.key in m.entries
    ensures var n := Noted(m, r, now);
            && n.entries == m.entries[r.w.key := m.entries[r.w.key].(inFlight := false)]
            && n.session == m.session && n.generation == m.generation && n.pending == m.pending
  {
    hide Young;
  }

  lemma SamePublished(m: Monitor, p: Monitor, r: Result, now: int)
    requires r.w.key in m.entries && p.pending == m.pending && p.entries.Keys == m.entries.Keys
    requires forall k | k in m.entries && k != r.w.key :: p.entries[k] == m.entries[k]
    ensures PublishedKeys(m) <= {r.w.key} + PublishedKeys(p)
  {}

  lemma ApplyFailureKeeps(m: Monitor, r: Result, now: int)
    requires r.w.key in m.entries
    ensures var h := HeldBack(m, r, now);
            Keeps(m, ApplyFailure(m, r, now), if WANEvidence(h, now) then PublishedKeys(h) else {})
  {
    hide Keeps, HeldBack, PublishPending, PublishedKeys, WANEvidence;
    var h := HeldBack(m, r, now);
    NotedKeeps(m, r, now);
    PublishKeeps(h);
    KeepsTwice(m, h, PublishPending(h), {}, PublishedKeys(h));
    assert {} + PublishedKeys(h) == PublishedKeys(h);
  }

  lemma ApplyKeeps(m: Monitor, exited: set<Session>, r: Result, now: int, next: int)
    ensures Keeps(m, Apply(m, exited, r, now, next), AppliedKeys(m, exited, r, now))
  {
    hide Keeps, ApplySuccess, ApplyFailure, HeldBack, PublishedKeys, WANEvidence, Landed;
    if Gone(m, exited, r) {
      NothingKept(m);
    } else if Stale(m, r) {
      NotedKeeps(m, r, now);
    } else if r.ok {
      ApplySuccessKeeps(m, r, now, next);
    } else {
      ApplyFailureKeeps(m, r, now);
    }
  }

  lemma NothingKept(m: Monitor)
    ensures Keeps(m, m, {})
  {}

  lemma MergeAdvances(m: Monitor, eps: map<string, Endpoint>, refused: map<string, string>, now: int)
    requires forall k | k in eps :: eps[k].key == k
    ensures Advances(m, Merge(m, eps, refused, now), {})
  {
    if !IdentityChanged(m, eps, refused, now) {
      hide Merge, MergedEntries, Admit, Refuse, AdmitChanges, RefuseChanges, IdentityChanged;
      MergeIs(m, eps, refused, now);
      forall k | k in m.entries
        ensures var e, f := m.entries[k], Merge(m, eps, refused, now).entries[k];
                e.revision <= f.revision && (f.revision == e.revision ==> f.st == e.st)
      {
        MergedKeeps(m, eps, refused, now, k);
      }
    }
  }

  lemma MergeIs(m: Monitor, eps: map<string, Endpoint>, refused: map<string, string>, now: int)
    requires !IdentityChanged(m, eps, refused, now)
    ensures Merge(m, eps, refused, now) == m.(entries := MergedEntries(m, eps, refused, now), restored := map[])
    ensures MergedEntries(m, eps, refused, now).Keys == m.entries.Keys
  {
    hide Admit, Refuse, AdmitChanges, RefuseChanges;
  }

  lemma MergedKeeps(m: Monitor, eps: map<string, Endpoint>, refused: map<string, string>, now: int, k: string)
    requires !IdentityChanged(m, eps, refused, now) && k in m.entries && k in MergedEntries(m, eps, refused, now)
    requires k in eps ==> eps[k].key == k
    ensures var e, f := m.entries[k], MergedEntries(m, eps, refused, now)[k];
            e.revision <= f.revision && (f.revision == e.revision ==> f.st == e.st)
  {
    hide Admit, Refuse, AdmitChanges, RefuseChanges;
    if k in refused {
      assert !RefuseChanges(m, k, now);
      RefuseKeeps(m, k, refused[k], now);
    } else {
      assert eps[k].key == k && !AdmitChanges(m, eps[k], now);
      AdmitKeeps(m, eps[k], now);
    }
  }

  lemma RefuseKeeps(m: Monitor, k: string, reason: string, now: int)
    requires !RefuseChanges(m, k, now)
    ensures k in m.entries
    ensures var e, f := m.entries[k], Refuse(m, k, reason, now);
            e.revision <= f.revision && (f.revision == e.revision ==> f.st == e.st)
  {}

  lemma AdmitKeeps(m: Monitor, ep: Endpoint, now: int)
    requires !AdmitChanges(m, ep, now)
    ensures ep.key in m.entries
    ensures var e, f := m.entries[ep.key], Admit(m, ep, now);
            f.revision == e.revision && f.st == e.st
  {}

  lemma QueueKeeps(m: Monitor, keys: set<string>, check: bool)
    ensures Keeps(m, Queue(m, keys, check), {})
  {}

  lemma RegisterKeeps(m: Monitor, keys: set<string>)
    ensures Keeps(m, Register(m, keys), {})
  {}

  /** Every step but the return of the WAN keeps the epoch or opens a new one. */
  lemma StepAdvances(s: System, step: Step)
    requires Enabled(s, step) && !step.BackStep?
    ensures Advances(s.m, Next(s, step), Resolves(s, step))
  {
    hide Keeps, Merge, Apply, Register, Queue, Reassess, AppliedKeys, PublishedKeys, GuardUp;
    match step
    case MergeStep(eps, refused, now) => MergeAdvances(s.m, eps, refused, now);
    case ApplyStep(r, next) => ApplyKeeps(s.m, s.exited, r, s.clock, next);
    case QueueStep(keys, check) => QueueKeeps(s.m, keys, check);
    case RegisterStep(keys) => RegisterKeeps(s.m, keys);
    case _ => OtherStepAdvances(s, step);
  }

  lemma OtherStepAdvances(s: System, step: Step)
    requires Enabled(s, step) && !step.BackStep?
    requires !step.MergeStep? && !step.ApplyStep? && !step.QueueStep? && !step.RegisterStep?
    ensures Advances(s.m, Next(s, step), Resolves(s, step))
  {
    hide PublishPending, PublishedKeys, RejectKey, Reassess, Due, ActivityOf;
    match step
    case GuardUpStep(now) => GuardUpKeeps(s.m, now);
    case ReassessStep(order, now) => ReassessAdvances(s.m, order, now);
    case RejectStep(key, reason, now) => RejectAdvances(s.m, key, reason, now);
    case _ =>
  }

  lemma RejectAdvances(m: Monitor, key: string, reason: string, now: int)
    ensures Advances(m, RejectKey(m, key, reason, now), {})
  {}

  lemma GuardUpKeeps(m: Monitor, now: int)
    ensures Keeps(m, GuardUp(m, now), PublishedKeys(m))
  {
    var g := m.(controlOK := At(now));
    PublishKeeps(g);
    assert PublishedKeys(g) == PublishedKeys(m);
  }

  lemma ReassessAdvances(m: Monitor, order: set<string>, now: int)
    ensures Advances(m, Reassess(m, order, now), {})
  {
    if !(exists k :: k in order && k in m.entries && Reassessed(m.entries[k])) {
      assert Reassess(m, order, now).entries == m.entries;
    }
  }

  // ---------------------------------------------------------------- no stale evidence

  /** A step that neither ends the epoch nor resolves a check of these keys. */
  ghost predicate Quiet(s: System, step: Step, ks: set<string>)
    requires Enabled(s, step)
  {
    var m, m' := s.m, Next(s, step);
    && m'.generation == m.generation && m'.session == m.session && m'.state == m.state
        && m'.entries.Keys == m.entries.Keys
    && Resolves(s, step) !! ks
    && forall k | k in ks :: k in m.entries && m'.entries[k].st == m.entries[k].st
  }

  /** From s on, the monitor stays active and every step is quiet. */
  ghost predicate QuietRun(s: System, steps: seq<Step>, ks: set<string>)
    requires Allowed(s, steps)
    decreases |steps|
  {
    && ActivityOf(s.m, s.exited) == Active
    && (|steps| > 0 ==> Quiet(s, steps[0], ks) && QuietRun(Do(s, steps[0]), steps[1..], ks))
  }

  lemma DoIs(s: System, step: Step)
    requires Enabled(s, step)
    ensures var t := Do(s, step);
            && t.m == Next(s, step) && t.pc == NextPc(s, step)
            && s.exited <= t.exited && s.lastSession <= t.lastSession
            && s.resolved <= t.resolved && s.answers <= t.answers && s.rejected <= t.rejected && s.clock <= t.clock
            && s.dispatched <= t.dispatched && s.finished <= t.finished
  {
    hide Next, NextPc, Resolves, AppliedKeys, Gone, Stale, Due, ActivityOf;
  }

  /** The same with revisions alone, for every step. */
  ghost predicate Ahead(m: Monitor, m': Monitor) {
    m'.generation > m.generation
    || (&& m'.generation == m.generation && m'.entries.Keys == m.entries.Keys && m'.state == m.state
        && m'.session == m.session
        && forall k | k in m.entries :: m.entries[k].revision <= m'.entries[k].revision)
  }

  lemma StepAhead(s: System, step: Step)
    requires Enabled(s, step)
    ensures Ahead(s.m, Do(s, step).m)
  {
    hide Do, Next, Resolves;
    DoIs(s, step);
    if step.BackStep? {
      BackAhead(s, step);
    } else {
      StepAdvances(s, step);
    }
  }

  lemma BackAhead(s: System, step: Step)
    requires Enabled(s, step) && step.BackStep?
    ensures Ahead(s.m, Next(s, step))
  {}

  lemma {:induction false} RunAhead(s: System, steps: seq<Step>)
    requires Allowed(s, steps)
    ensures Ahead(s.m, Final(s, steps).m)
    decreases |steps|
  {
    hide Do, Enabled;
    if |steps| > 0 {
      StepAhead(s, steps[0]);
      RunAhead(Do(s, steps[0]), steps[1..]);
    }
  }

  lemma {:induction false} RunExits(s: System, steps: seq<Step>)
    requires Allowed(s, steps)
    ensures s.exited <= Final(s, steps).exited
    decreases |steps|
  {
    hide Do, Enabled;
    if |steps| > 0 {
      DoIs(s, steps[0]);
      RunExits(Do(s, steps[0]), steps[1..]);
    }
  }

  lemma PcKept(s: System, step: Step)
    requires PcOK(s) && Enabled(s, step)
    ensures PcOK(Do(s, step))
  {
    hide Do, Resolves;
    DoIs(s, step);
    NextSets(s, step);
  }

  /** What a step makes of the fields the program counter goes with. */
  lemma NextSets(s: System, step: Step)
    requires Enabled(s, step)
    ensures var m, m' := s.m, Next(s, step);
            && m'.settings == (if step.ReadSettings? then step.settings else m.settings)
            && m'.state == (if step.SetStateStep? then step.state else m.state)
            && m'.wanPaused == (if step.GuardDownStep? then true else if step.BackStep? then false else m.wanPaused)
            && m'.closed == (step.ShutdownStep? || m.closed)
            && (step.SetStateStep? && step.state != m.state ==> m'.generation > m.generation)
            && (step.ShutdownStep? ==> m'.generation > m.generation)
  {
    hide Apply, GuardUp, MergedEntries, IdentityChanged, RejectKey, Reassess, StopSession, Due, Gone, Stale, Marked;
    match step
    case ApplyStep(r, next) => ApplyFrame(s.m, s.exited, r, s.clock, next);
    case GuardUpStep(now) => GuardUpSets(s.m, now);
    case StopStep => StopSets(s.m);
    case CrashStep => StopSets(s.m);
    case RejectStep(key, reason, now) => RejectSets(s.m, key, reason, now);
    case ReassessStep(order, now) => ReassessSets(s.m, order, now);
    case _ =>
  }

  predicate SameMode(m: Monitor, m': Monitor) {
    m'.settings == m.settings && m'.state == m.state && m'.wanPaused == m.wanPaused && m'.closed == m.closed
  }

  /** The fields that applying an answer leaves alone. */
  predicate SameFrame(m: Monitor, m': Monitor) {
    && SameMode(m, m') && m'.starts == m.starts && m'.sequence == m.sequence && m'.session == m.session
    && m'.entries.Keys == m.entries.Keys
  }

  lemma PublishFrame(m: Monitor)
    ensures SameFrame(m, PublishPending(m))
  {
    hide PublishedEntry;
  }

  lemma NotedFrame(m: Monitor, r: Result, now: int)
    requires r.w.key in m.entries
    ensures SameFrame(m, Noted(m, r, now)) && SameFrame(m, HeldBack(m, r, now)) && SameFrame(m, Landed(m, r.w.key))
  {
    hide Young, OutcomeOf;
  }

  lemma SuccessFrame(m: Monitor, r: Result, now: int, next: int)
    requires r.w.key in m.entries
    ensures SameFrame(m, ApplySuccess(m, r, now, next))
  {
    hide Noted, PublishPending, Succeed, Completed, OutcomeOf;
    NotedFrame(m, r, now);
    var n := Noted(m, r, now);
    var e := Completed(Succeed(n.entries[r.w.key], now, r.latency, next), OutcomeOf(r, now), m.session, m.generation);
    PublishFrame(n.(entries := n.entries[r.w.key := e]));
  }

  lemma ApplyFrame(m: Monitor, exited: set<Session>, r: Result, now: int, next: int)
    ensures SameFrame(m, Apply(m, exited, r, now, next))
  {
    hide Gone, Stale, ApplySuccess, HeldBack, PublishPending, WANEvidence, Landed;
    if r.w.key in m.entries {
      SuccessFrame(m, r, now, next);
      NotedFrame(m, r, now);
      PublishFrame(HeldBack(m, r, now));
    } else {
      NoEntryGone(m, exited, r);
    }
  }

  lemma NoEntryGone(m: Monitor, exited: set<Session>, r: Result)
    ensures r.w.key !in m.entries ==> Gone(m, exited, r)
  {}

  lemma StopSets(m: Monitor)
    ensures SameMode(m, StopSession(m))
  {}

  lemma RejectSets(m: Monitor, key: string, reason: string, now: int)
    ensures SameMode(m, RejectKey(m, key, reason, now))
  {
    hide Reject;
  }

  lemma ReassessSets(m: Monitor, order: set<string>, now: int)
    ensures SameMode(m, Reassess(m, order, now))
  {}

  lemma GuardUpSets(m: Monitor, now: int)
    ensures SameMode(m, GuardUp(m, now))
  {
    hide PublishedEntry;
  }

  /** An inactive epoch: its state is OK, but it can only end. */
  ghost predicate Doomed(s: System) {
    && PcOK(s) && s.m.state == OK
    && (!s.m.settings.enabled || s.m.wanPaused || s.m.closed || (s.m.session != NO_SESSION && s.m.session in s.exited))
  }

  lemma DoomedStays(s: System, step: Step)
    requires Doomed(s) && Enabled(s, step) && Do(s, step).m.generation == s.m.generation
    ensures Doomed(Do(s, step))
  {
    hide Do, Next, Resolves;
    PcKept(s, step);
    StepAhead(s, step);
    DoIs(s, step);
    NextSets(s, step);
  }

  lemma {:induction false} DoomedRun(s: System, steps: seq<Step>)
    requires Doomed(s) && Allowed(s, steps) && Final(s, steps).m.generation == s.m.generation
    ensures Doomed(Final(s, steps))
    decreases |steps|
  {
    hide Do, Enabled, Doomed;
    if |steps| > 0 {
      StepAhead(s, steps[0]);
      RunAhead(Do(s, steps[0]), steps[1..]);
      DoomedStays(s, steps[0]);
      DoomedRun(Do(s, steps[0]), steps[1..]);
    }
  }

  /** An epoch that is active at both ends, with the revisions of these keys the
      same, was quiet for them all the way. */
  lemma {:induction false} SameRevisionsQuiet(s: System, steps: seq<Step>, ks: set<string>)
    requires PcOK(s) && Allowed(s, steps)
    requires ActivityOf(s.m, s.exited) == Active && ActivityOf(Final(s, steps).m, Final(s, steps).exited) == Active
    requires Final(s, steps).m.generation == s.m.generation
    requires forall k | k in ks ::
      k in s.m.entries && k in Final(s, steps).m.entries
          && Final(s, steps).m.entries[k].revision == s.m.entries[k].revision
    ensures QuietRun(s, steps, ks)
    decreases |steps|
  {
    if |steps| > 0 {
      hide Do, Enabled, Next, Resolves, Final, ActivityOf;
      var step, rest := steps[0], steps[1..];
      var t := Do(s, step);
      FinalStep(s, steps);
      StepAhead(s, step);
      RunAhead(t, rest);
      ActiveNext(s, step, rest);
      SameRevisions(s.m, t.m, Final(t, rest).m, ks);
      FirstIsQuiet(s, step, ks);
      PcKept(s, step);
      SameRevisionsQuiet(t, rest, ks);
    }
  }

  lemma FinalStep(s: System, steps: seq<Step>)
    requires Allowed(s, steps) && |steps| > 0
    ensures Enabled(s, steps[0]) && Allowed(Do(s, steps[0]), steps[1..])
    ensures Final(s, steps) == Final(Do(s, steps[0]), steps[1..])
  {
    hide Do, Enabled;
  }

  lemma SameRevisions(a: Monitor, b: Monitor, c: Monitor, ks: set<string>)
    requires Ahead(a, b) && Ahead(b, c) && c.generation == a.generation
    requires forall k | k in ks :: k in a.entries && k in c.entries && c.entries[k].revision == a.entries[k].revision
    ensures b.generation == a.generation && b.state == a.state
    ensures forall k | k in ks :: k in b.entries && b.entries[k].revision == a.entries[k].revision
            == c.entries[k].revision
  {
    forall k | k in ks ensures k in b.entries && b.entries[k].revision == a.entries[k].revision {
      assert k in b.entries;
    }
  }

  /** The state in between is active: else the epoch could only have ended. */
  lemma ActiveNext(s: System, step: Step, rest: seq<Step>)
    requires PcOK(s) && Enabled(s, step) && Allowed(Do(s, step), rest)
    requires ActivityOf(s.m, s.exited) == Active
    requires ActivityOf(Final(Do(s, step), rest).m, Final(Do(s, step), rest).exited) == Active
    requires Final(Do(s, step), rest).m.generation == s.m.generation
    ensures ActivityOf(Do(s, step).m, Do(s, step).exited) == Active
  {
    hide Do, Enabled, Next, Final;
    var t := Do(s, step);
    StepAhead(s, step);
    RunAhead(t, rest);
    PcKept(s, step);
    if Doomed(t) {
      DoomedRun(t, rest);
    }
  }

  lemma FirstIsQuiet(s: System, step: Step, ks: set<string>)
    requires Enabled(s, step) && ActivityOf(s.m, s.exited) == Active
    requires var t := Do(s, step);
             && t.m.generation == s.m.generation
             && forall k | k in ks ::
                  k in s.m.entries && k in t.m.entries && t.m.entries[k].revision == s.m.entries[k].revision
    ensures Quiet(s, step, ks)
  {
    hide Do, Next, Resolves;
    DoIs(s, step);
    assert !step.BackStep? by { PausedIsInactive(s, step); }
    StepAdvances(s, step);
  }

  lemma PausedIsInactive(s: System, step: Step)
    requires Enabled(s, step)
    ensures step.BackStep? ==> ActivityOf(s.m, s.exited) != Active
  {}

  lemma EvidenceKeys(s: System, t: System, taken: set<string>, keys: set<string>)
    requires Validates(t.m, t.exited, EvidenceOf(s.m, s.exited, taken), keys)
    ensures ActivityOf(s.m, s.exited) == Active && ActivityOf(t.m, t.exited) == Active
            && t.m.generation == s.m.generation
    ensures forall k | k in RequestedKeys(t.m, keys) ::
              k in s.m.entries && k in t.m.entries && t.m.entries[k].revision == s.m.entries[k].revision
  {
    var e := EvidenceOf(s.m, s.exited, taken);
    var ks := RequestedKeys(t.m, keys);
    hide ActivityOf, RequestedKeys, Applicable;
    var k :| k in ks;
    assert Proves(t.m, e, k);
    forall k | k in ks
      ensures k in s.m.entries && k in t.m.entries && t.m.entries[k].revision == s.m.entries[k].revision
    {
      assert Proves(t.m, e, k);
    }
  }

  // ---------------------------------------------------------------- the invariant holds

  lemma AnswersKept(s: System, step: Step)
    requires AnswersOK(s) && Enabled(s, step)
    ensures AnswersOK(Do(s, step))
  {
    hide Do, Next, AnswersOK;
    DoIs(s, step);
    match step
    case ApplyStep(r, next) => ApplyAnswers(s, r, next);
    case GuardUpStep(now) => ControlAnswers(s, step);
    case BackStep(now) => ControlAnswers(s, step);
    case _ =>
      RecentKept(s, step);
      ResultsOf(s, step);
      MoreAnswers(s, Do(s, step));
  }

  /** A step but that of an answer takes none; a check ends at the time it does. */
  lemma ResultsOf(s: System, step: Step)
    requires Enabled(s, step) && !step.ApplyStep? && !step.GuardUpStep? && !step.BackStep?
    ensures Do(s, step).answers == s.answers && s.clock <= Do(s, step).clock
    ensures forall r | r in Do(s, step).results :: r in s.results || r.at == s.clock
  {
    hide Next, Resolves, ActivityOf, Due;
  }

  lemma MoreAnswers(s: System, t: System)
    requires AnswersOK(s) && s.answers == t.answers && t.m.controlOK == s.m.controlOK && s.clock <= t.clock
    requires forall r | r in t.results :: r in s.results || r.at == s.clock
    requires forall i | 0 <= i < |t.m.recent| :: t.m.recent[i] in s.m.recent
    ensures AnswersOK(t)
  {}

  /** Steps of no answer take no answer for one. */
  lemma RecentKept(s: System, step: Step)
    requires Enabled(s, step) && !step.ApplyStep? && !step.GuardUpStep? && !step.BackStep?
    ensures Next(s, step).controlOK == s.m.controlOK
    ensures forall i | 0 <= i < |Next(s, step).recent| :: Next(s, step).recent[i] in s.m.recent
  {
    hide MergedEntries, IdentityChanged, Reject, Reassessed, Due, Marked, ActivityOf;
  }

  lemma ControlAnswers(s: System, step: Step)
    requires AnswersOK(s) && Enabled(s, step) && (step.GuardUpStep? || step.BackStep?)
    ensures AnswersOK(Do(s, step))
  {
    hide PublishedEntry, Resolves;
    assert Answer(s.clock, s.clock) in Do(s, step).answers;
  }

  lemma ApplyAnswers(s: System, r: Result, next: int)
    requires AnswersOK(s) && Enabled(s, ApplyStep(r, next))
    ensures AnswersOK(Do(s, ApplyStep(r, next)))
  {
    hide Apply, Resolves, AnswersOK;
    ApplyRecent(s.m, s.exited, r, s.clock, next);
    AnswersThen(s, Do(s, ApplyStep(r, next)), r);
  }

  lemma AnswersThen(s: System, t: System, r: Result)
    requires AnswersOK(s) && t.m.controlOK == s.m.controlOK
    requires r in s.results && t.results <= s.results && t.clock == s.clock
    requires t.answers == s.answers
                          + if r.ok && !Gone(s.m, s.exited, r) && !Stale(s.m, r) then {Answer(r.at, s.clock)} else {}
    requires if Gone(s.m, s.exited, r) || Stale(s.m, r) then t.m.recent == s.m.recent
             else forall o | o in t.m.recent :: o in s.m.recent || o == OutcomeOf(r, s.clock)
    ensures AnswersOK(t)
  {
    hide Gone, Stale;
    forall i | 0 <= i < |t.m.recent| && t.m.recent[i].ok
      ensures exists a :: a in t.answers && a.taken == t.m.recent[i].at
    {
      var o := t.m.recent[i];
      assert o in t.m.recent;
      if o in s.m.recent {
        var j :| 0 <= j < |s.m.recent| && s.m.recent[j] == o;
        var a :| a in s.answers && a.taken == s.m.recent[j].at;
        assert a in t.answers;
      } else {
        assert Answer(r.at, s.clock) in t.answers;
      }
    }
  }

  lemma ApplyRecent(m: Monitor, exited: set<Session>, r: Result, now: int, next: int)
    ensures Apply(m, exited, r, now, next).controlOK == m.controlOK
    ensures if Gone(m, exited, r) || Stale(m, r) then Apply(m, exited, r, now, next).recent == m.recent
            else forall o | o in Apply(m, exited, r, now, next).recent :: o in m.recent || o == OutcomeOf(r, now)
  {
    hide Succeed, Completed, PublishedEntry, WANEvidence, Young, Gone, Stale, OutcomeOf;
    forall o | o in Young(m.recent + [OutcomeOf(r, now)], now) ensures o in m.recent || o == OutcomeOf(r, now) {
      YoungMember(m.recent + [OutcomeOf(r, now)], now, o);
    }
  }

  lemma ChecksKept(s: System, step: Step)
    requires ChecksOK(s) && EntriesOK(s) && Enabled(s, step)
    ensures ChecksOK(Do(s, step))
  {
    hide EntriesOK, Next, Resolves, Due, ActivityOf, Gone, Stale;
    NextCounts(s, step);
    forall k | k in Resolves(s, step) && k in Next(s, step).entries
      ensures Next(s, step).entries[k].completed <= |s.finished|
    {
      ResolvedBound(s, step, k);
    }
    if !step.DispatchStep? && !step.FinishStep? {
      hide ChecksOK;
      ChecksFrame(s, step);
      ChecksSame(s, Do(s, step));
    }
  }

  lemma ChecksFrame(s: System, step: Step)
    requires Enabled(s, step) && !step.DispatchStep? && !step.FinishStep?
    requires forall p | p in s.resolved :: p.1 <= |s.finished|
    requires forall k | k in Resolves(s, step) && k in Next(s, step).entries ::
             Next(s, step).entries[k].completed <= |s.finished|
    ensures var t := Do(s, step);
            && t.m == Next(s, step) && t.workers == s.workers && t.results <= s.results
            && t.dispatched == s.dispatched && t.finished == s.finished
            && (forall p | p in t.resolved :: p.1 <= |s.finished|)
  {
    hide Next, Resolves, Gone, Stale, Due, ActivityOf;
  }

  lemma ChecksSame(s: System, t: System)
    requires ChecksOK(s) && t.m.starts == s.m.starts && t.m.sequence == s.m.sequence
    requires t.workers == s.workers && t.results <= s.results && t.dispatched == s.dispatched
             && t.finished == s.finished
    requires forall p | p in t.resolved :: p.1 <= |s.finished|
    ensures ChecksOK(t)
  {}

  lemma NextCounts(s: System, step: Step)
    requires Enabled(s, step)
    ensures Next(s, step).starts == s.m.starts + (if step.DispatchStep? then 1 else 0)
    ensures Next(s, step).sequence == s.m.sequence + (if step.FinishStep? then 1 else 0)
  {
    hide MergedEntries, IdentityChanged, Reject, Reassessed, Due, Marked, ActivityOf, Apply, PublishedEntry;
    if step.ApplyStep? { ApplyFrame(s.m, s.exited, step.r, s.clock, step.next); }
  }

  /** An entry whose proof is as it was: the same check, and no rejection of this
      process that there was not before for the same outbound. */
  ghost predicate SameProof(e: Entry, e': Entry) {
    && e'.completed == e.completed && e'.completedSession == e.completedSession
    && e'.completedGeneration == e.completedGeneration && e'.completedStart == e.completedStart
    && (e'.rejectedCurrent ==> e.rejectedCurrent && e'.ep.outbound == e.ep.outbound)
  }

  /** An entry whose proof is the check outcome o. */
  ghost predicate ProvedBy(e: Entry, e': Entry, o: Outcome, session: Session) {
    && e'.completed == o.number && e'.completedSession == session
    && e'.completedGeneration == o.generation && e'.completedStart == o.started
    && (e'.rejectedCurrent ==> e.rejectedCurrent && e'.ep.outbound == e.ep.outbound)
  }

  lemma PublishedProof(m: Monitor, k: string)
    requires k in m.entries
    ensures if Publishes(m, k) then ProvedBy(m.entries[k], PublishedEntry(m, k), m.pending[k], m.session)
            else PublishedEntry(m, k) == m.entries[k]
  {}

  /** Entry k after the step has the proof of entry e, of an answer just taken,
      of a failure held back, or none. */
  ghost predicate Derived(s: System, step: Step, k: string, e': Entry) {
    if k in Resolves(s, step) then
      && k in s.m.entries && s.m.session != NO_SESSION
      && (|| (step.ApplyStep? && step.r in s.results && step.r.w.key == k && step.r.w.session == s.m.session
              && ProvedBy(s.m.entries[k], e', OutcomeOf(step.r, s.clock), s.m.session))
          || (k in s.m.pending && ProvedBy(s.m.entries[k], e', s.m.pending[k], s.m.session)))
    else
      || (k in s.m.entries && SameProof(s.m.entries[k], e'))
      || (k !in s.m.entries && e'.completed == 0 && !e'.rejectedCurrent)
  }

  lemma GuardUpDerives(s: System, step: Step, k: string)
    requires Enabled(s, step) && step.GuardUpStep? && k in Next(s, step).entries
    ensures Derived(s, step, k, Next(s, step).entries[k])
  {
    hide PublishedEntry, ProvedBy;
    var g := s.m.(controlOK := At(step.now));
    PublishedProof(g, k);
    assert PublishedEntry(g, k) == PublishedEntry(s.m, k) by { SamePublishedEntry(g, s.m, k); }
    PublishedProof(s.m, k);
  }

  lemma SamePublishedEntry(a: Monitor, b: Monitor, k: string)
    requires a.entries == b.entries && a.pending == b.pending && a.settings == b.settings
    requires a.session == b.session && a.generation == b.generation && k in a.entries
    ensures PublishedEntry(a, k) == PublishedEntry(b, k)
  {}

  lemma SuccessDerives(s: System, step: Step, k: string)
    requires Enabled(s, step) && step.ApplyStep? && step.r.ok
    requires !Gone(s.m, s.exited, step.r) && !Stale(s.m, step.r) && k in Next(s, step).entries
    ensures Derived(s, step, k, Next(s, step).entries[k])
  {
    hide PublishedEntry, Noted, ProvedBy, Succeed, Completed, Young;
    var m, r, now := s.m, step.r, s.clock;
    var n := Noted(m, r, now);
    NotedHas(m, r, now);
    var e := Completed(Succeed(n.entries[r.w.key], now, r.latency, step.next), OutcomeOf(r, now), m.session,
                       m.generation);
    var p := n.(entries := n.entries[r.w.key := e]);
    PublishedProof(p, k);
    SuccessProof(n.entries[r.w.key], now, r, step.next, m.session, m.generation);
    if k == r.w.key {
      ProofThen(m.entries[k], n.entries[k], e, PublishedEntry(p, k), OutcomeOf(r, now),
                if k in m.pending then m.pending[k] else OutcomeOf(r, now), m.session);
    } else {
      SamePublishes(p, m, k);
    }
  }

  lemma SamePublishes(a: Monitor, b: Monitor, k: string)
    requires k in a.entries && k in b.entries && a.entries[k] == b.entries[k] && a.pending == b.pending
    ensures Publishes(a, k) <==> Publishes(b, k)
  {}

  lemma SuccessProof(e: Entry, now: int, r: Result, next: int, session: Session, generation: nat)
    ensures ProvedBy(e, Completed(Succeed(e, now, r.latency, next), OutcomeOf(r, now), session, generation),
                     OutcomeOf(r, now), session)
  {}

  lemma ProofThen(a: Entry, b: Entry, c: Entry, d: Entry, o: Outcome, p: Outcome, session: Session)
    requires b == a.(inFlight := b.inFlight) && ProvedBy(b, c, o, session)
    ensures d == c ==> ProvedBy(a, d, o, session)
    ensures ProvedBy(c, d, p, session) ==> ProvedBy(a, d, p, session)
  {}

  lemma FailureDerives(s: System, step: Step, k: string)
    requires Enabled(s, step) && step.ApplyStep? && !step.r.ok
    requires !Gone(s.m, s.exited, step.r) && !Stale(s.m, step.r) && k in Next(s, step).entries
    ensures Derived(s, step, k, Next(s, step).entries[k])
  {
    hide PublishedEntry, HeldBack, ProvedBy, WANEvidence, SameProof, OutcomeOf, Young, ApplySuccess;
    var h := HeldBack(s.m, step.r, s.clock);
    HeldBackHas(s.m, step.r, s.clock);
    PublishedProof(h, k);
    ProofOfSame(s.m.entries[k], h.entries[k], PublishedEntry(h, k),
                if k in h.pending then h.pending[k] else OutcomeOf(step.r, s.clock), s.m.session);
  }

  lemma ProofOfSame(a: Entry, b: Entry, c: Entry, o: Outcome, session: Session)
    requires b == a.(inFlight := b.inFlight, pending := b.pending)
    ensures ProvedBy(b, c, o, session) ==> ProvedBy(a, c, o, session)
    ensures SameProof(a, b)
  {}

  lemma HeldBackHas(m: Monitor, r: Result, now: int)
    requires r.w.key in m.entries
    ensures var h := HeldBack(m, r, now);
            && h.entries == m.entries[r.w.key := m.entries[r.w.key].(inFlight := false, pending := true)]
            && h.pending == m.pending[r.w.key := OutcomeOf(r, now)]
            && h.session == m.session && h.generation == m.generation
  {
    hide Young;
  }

  lemma ApplyDerives(s: System, step: Step, k: string)
    requires Enabled(s, step) && step.ApplyStep? && k in Next(s, step).entries
    ensures Derived(s, step, k, Next(s, step).entries[k])
  {
    if Gone(s.m, s.exited, step.r) || Stale(s.m, step.r) {
      hide ApplySuccess, ApplyFailure;
    } else {
      hide Next, Derived;
      if step.r.ok { SuccessDerives(s, step, k); } else { FailureDerives(s, step, k); }
    }
  }

  /** Steps other than a rejection leave each entry a proof it had, or got now. */
  lemma StepDerives(s: System, step: Step, k: string)
    requires Enabled(s, step) && k in Next(s, step).entries
    requires !step.RejectStep? && !(step.MergeStep? && k in step.refused)
    ensures Derived(s, step, k, Next(s, step).entries[k])
  {
    hide Merge, StopSession, SetState, Reassess, Queue, Register, Apply, GuardUp, Due, ActivityOf, Resolves, Derived;
    match step {
    case ApplyStep(_, _) => ApplyDerives(s, step, k);
    case GuardUpStep(_) => GuardUpDerives(s, step, k);
    case MergeStep(eps, refused, now) => MergeProof(s.m, eps, refused, now, k);
    case SetStateStep(state) => SetStateProof(s.m, state, k);
    case StopStep => StopProof(s.m, k);
    case CrashStep => StopProof(s.m, k);
    case ReassessStep(order, now) => ReassessProof(s.m, order, now, k);
    case QueueStep(keys, check) => QueueProof(s.m, keys, check, k);
    case RegisterStep(keys) => RegisterProof(s.m, keys, k);
    case _ =>
    }
    if !step.ApplyStep? && !step.GuardUpStep? { DerivedIs(s, step, k); }
  }

  /** A section of no answer leaves the proof alone. */
  ghost predicate Unproved(m: Monitor, k: string, e: Entry) {
    if k in m.entries then SameProof(m.entries[k], e) else e.completed == 0 && !e.rejectedCurrent
  }

  lemma DerivedIs(s: System, step: Step, k: string)
    requires Enabled(s, step) && !step.ApplyStep? && !step.GuardUpStep? && k in Next(s, step).entries
    requires Unproved(s.m, k, Next(s, step).entries[k])
    ensures Derived(s, step, k, Next(s, step).entries[k])
  {
    hide Next;
  }

  lemma SetStateProof(m: Monitor, state: State, k: string)
    requires k in SetState(m, state).entries
    ensures Unproved(m, k, SetState(m, state).entries[k])
  {}

  lemma StopProof(m: Monitor, k: string)
    requires k in StopSession(m).entries
    ensures Unproved(m, k, StopSession(m).entries[k])
  {}

  lemma ReassessProof(m: Monitor, order: set<string>, now: int, k: string)
    requires k in Reassess(m, order, now).entries
    ensures Unproved(m, k, Reassess(m, order, now).entries[k])
  {
    hide ReassessedEntry, Reassessed;
    ReassessedProof(m.entries[k], now);
  }

  lemma ReassessedProof(e: Entry, now: int)
    ensures SameProof(e, ReassessedEntry(e, now))
  {}

  lemma QueueProof(m: Monitor, keys: set<string>, check: bool, k: string)
    requires k in Queue(m, keys, check).entries
    ensures Unproved(m, k, Queue(m, keys, check).entries[k])
  {
    hide Marked;
    MarkedKeeps(m, m.entries[k], check);
  }

  lemma RegisterProof(m: Monitor, keys: set<string>, k: string)
    requires k in Register(m, keys).entries
    ensures Unproved(m, k, Register(m, keys).entries[k])
  {
    hide Marked;
    MarkedKeeps(m, m.entries[k], true);
  }

  lemma MarkedKeeps(m: Monitor, e: Entry, check: bool)
    ensures SameProof(e, Marked(m, e, check)) && Marked(m, e, check).st == e.st && Marked(m, e, check).pause == e.pause
  {}

  lemma MergeProof(m: Monitor, eps: map<string, Endpoint>, refused: map<string, string>, now: int, k: string)
    requires k in Merge(m, eps, refused, now).entries && k !in refused && (k in eps ==> eps[k].key == k)
    ensures Unproved(m, k, Merge(m, eps, refused, now).entries[k])
  {
    hide Admit, Refuse, IdentityChanged;
    AdmitProof(m, eps[k], now);
  }

  lemma AdmitProof(m: Monitor, ep: Endpoint, now: int)
    ensures Unproved(m, ep.key, Admit(m, ep, now))
  {}

  lemma ResolvedBound(s: System, step: Step, k: string)
    requires EntriesOK(s) && ChecksOK(s) && Enabled(s, step) && k in Resolves(s, step) && k in Next(s, step).entries
    ensures Next(s, step).entries[k].completed <= |s.finished|
  {
    hide Next, Resolves;
    assert !step.RejectStep? && !step.MergeStep? by { ResolvesOnly(s, step, k); }
    StepDerives(s, step, k);
  }

  lemma ResolvesOnly(s: System, step: Step, k: string)
    requires k in Resolves(s, step)
    ensures step.ApplyStep? || step.GuardUpStep?
  {}

  lemma PendingAfter(s: System, step: Step, k: string)
    requires ChecksOK(s) && EntriesOK(s) && Enabled(s, step) && k in Next(s, step).pending
    ensures Next(s, step).session == s.m.session
    ensures || (k in s.m.pending && Next(s, step).pending[k] == s.m.pending[k])
            || (step.ApplyStep? && step.r in s.results && step.r.w.key == k && step.r.w.session == s.m.session
                && Next(s, step).pending[k] == OutcomeOf(step.r, s.clock))
  {
    hide PublishedEntry, Merge, Reassess, RejectKey, Apply, Due, ActivityOf, Marked, ChecksOK, EntriesOK;
    match step
    case ApplyStep(r, next) => ApplyPending(s.m, s.exited, r, s.clock, next, k);
    case MergeStep(eps, refused, now) => MergePending(s.m, eps, refused, now);
    case RejectStep(key, reason, now) => RejectPending(s.m, key, reason, now);
    case ReassessStep(order, now) => ReassessPending(s.m, order, now);
    case StartStep => PendingHasSession(s, k);
    case _ =>
  }

  lemma ApplyPending(m: Monitor, exited: set<Session>, r: Result, now: int, next: int, k: string)
    requires k in Apply(m, exited, r, now, next).pending
    ensures Apply(m, exited, r, now, next).session == m.session
    ensures || (k in m.pending && Apply(m, exited, r, now, next).pending[k] == m.pending[k])
            || (r.w.key == k && r.w.session == m.session
                && Apply(m, exited, r, now, next).pending[k] == OutcomeOf(r, now))
  {
    hide HeldBack, PublishPending, ApplySuccess, WANEvidence, OutcomeOf, Stale, Landed;
    ApplyFrame(m, exited, r, now, next);
    if r.w.key in m.entries {
      SuccessPending(m, r, now, next);
      HeldBackHas(m, r, now);
      PublishedNothing(HeldBack(m, r, now));
      LandedPending(m, r.w.key);
    }
  }

  lemma PublishedNothing(m: Monitor)
    ensures PublishPending(m).pending == map[]
  {
    hide PublishedEntry;
  }

  lemma SuccessPending(m: Monitor, r: Result, now: int, next: int)
    requires r.w.key in m.entries
    ensures ApplySuccess(m, r, now, next).pending == map[]
  {
    hide PublishedEntry, Noted, Succeed, Completed, OutcomeOf;
  }

  lemma LandedPending(m: Monitor, key: string)
    requires key in m.entries
    ensures Landed(m, key).pending == m.pending
  {}

  lemma MergePending(m: Monitor, eps: map<string, Endpoint>, refused: map<string, string>, now: int)
    ensures Merge(m, eps, refused, now).pending == m.pending && Merge(m, eps, refused, now).session == m.session
  {
    hide MergedEntries, IdentityChanged;
  }

  lemma RejectPending(m: Monitor, key: string, reason: string, now: int)
    ensures RejectKey(m, key, reason, now).pending == m.pending && RejectKey(m, key, reason, now).session == m.session
  {
    hide Reject;
  }

  lemma ReassessPending(m: Monitor, order: set<string>, now: int)
    ensures Reassess(m, order, now).pending == m.pending && Reassess(m, order, now).session == m.session
  {
    hide ReassessedEntry, Reassessed;
  }

  /** Only checks of a session are held back. */
  lemma PendingHasSession(s: System, k: string)
    requires ChecksOK(s) && EntriesOK(s) && k in s.m.pending
    ensures s.m.session != NO_SESSION
  {
    var o := s.m.pending[k];
    assert PendingOK(s, k, o);
    assert s.dispatched[o.started - 1] in s.dispatched;
  }

  /** Later logs hold all that earlier ones hold. */
  ghost predicate LaterLogs(s: System, t: System) {
    s.dispatched <= t.dispatched && s.finished <= t.finished && s.resolved <= t.resolved && s.rejected <= t.rejected
  }

  lemma FinishedLater(s: System, t: System, w: Work, n: nat)
    requires LaterLogs(s, t) && Finished(s, w, n)
    ensures Finished(t, w, n)
  {}

  lemma PendingKept(s: System, step: Step)
    requires ChecksOK(s) && EntriesOK(s) && Enabled(s, step)
    ensures var t := Do(s, step); forall k | k in t.m.pending :: PendingOK(t, k, t.m.pending[k])
  {
    hide Do, Next, NextPc, Resolves, Enabled;
    DoIs(s, step);
    var t := Do(s, step);
    forall k | k in t.m.pending ensures PendingOK(t, k, t.m.pending[k]) {
      PendingAfter(s, step, k);
      if step.ApplyStep? && step.r.w.key == k && t.m.pending[k] == OutcomeOf(step.r, s.clock) && step.r in s.results
          && step.r.w.session == s.m.session {
        assert Finished(s, step.r.w, step.r.number);
        FinishedLater(s, t, step.r.w, step.r.number);
      } else {
        assert PendingOK(s, k, s.m.pending[k]);
      }
    }
  }

  /** The proof of one entry, from what the step left of it. */
  lemma ProofKept(s: System, step: Step, k: string)
    requires ChecksOK(s) && EntriesOK(s) && Enabled(s, step) && k in Next(s, step).entries
    requires Derived(s, step, k, Next(s, step).entries[k])
    ensures var t, e := Do(s, step), Next(s, step).entries[k];
            ProofOK(t, k, e) && (e.rejectedCurrent ==> (k, e.ep.outbound) in t.rejected)
  {
    hide Do, Next, NextPc, Resolves, Enabled, Finished;
    DoIs(s, step);
    var t, e := Do(s, step), Next(s, step).entries[k];
    if k in Resolves(s, step) {
      ResolvedHas(s, step, k);
      ResolutionFinished(s, step, k);
      FinishedLater(s, t, Work(k, e.completedSession, e.completedGeneration, e.completedStart), e.completed);
    } else if k in s.m.entries && s.m.entries[k].completed != 0 {
      assert ProofOK(s, k, s.m.entries[k]);
      var w := Work(k, e.completedSession, e.completedGeneration, e.completedStart);
      FinishedLater(s, t, w, e.completed);
    }
  }

  lemma ResolvedHas(s: System, step: Step, k: string)
    requires Enabled(s, step) && k in Resolves(s, step) && k in Next(s, step).entries
    ensures (k, Next(s, step).entries[k].completed) in Do(s, step).resolved
  {
    hide Next, Resolves, NextPc, Gone, Stale;
  }

  lemma ResolutionFinished(s: System, step: Step, k: string)
    requires ChecksOK(s) && EntriesOK(s) && Enabled(s, step) && k in Next(s, step).entries
    requires k in Resolves(s, step) && Derived(s, step, k, Next(s, step).entries[k])
    ensures var e := Next(s, step).entries[k];
            Finished(s, Work(k, e.completedSession, e.completedGeneration, e.completedStart), e.completed)
  {
    hide Next, Resolves, Enabled, Dispatched;
    var e := Next(s, step).entries[k];
    if step.ApplyStep? && step.r in s.results && step.r.w.key == k && step.r.w.session == s.m.session
       && ProvedBy(s.m.entries[k], e, OutcomeOf(step.r, s.clock), s.m.session) {
      assert Finished(s, step.r.w, step.r.number);
    } else {
      assert PendingOK(s, k, s.m.pending[k]);
    }
  }

  lemma EntriesKept(s: System, step: Step)
    requires ChecksOK(s) && EntriesOK(s) && Enabled(s, step)
    ensures EntriesOK(Do(s, step))
  {
    hide Do, Next, NextPc, Resolves, Enabled, ChecksOK, ProofOK, PendingOK, Derived;
    DoIs(s, step);
    PendingKept(s, step);
    forall k | k in Do(s, step).m.entries
      ensures var t, e := Do(s, step), Do(s, step).m.entries[k];
              ProofOK(t, k, e) && (e.rejectedCurrent ==> (k, e.ep.outbound) in t.rejected)
    {
      if step.RejectStep? {
        RejectedProof(s, step, k);
      } else if step.MergeStep? && k in step.refused {
        RefusedProof(s, step, k);
      } else {
        StepDerives(s, step, k);
        ProofKept(s, step, k);
      }
    }
  }

  lemma RejectedProof(s: System, step: Step, k: string)
    requires ChecksOK(s) && EntriesOK(s) && Enabled(s, step) && step.RejectStep? && k in Next(s, step).entries
    ensures var t, e := Do(s, step), Next(s, step).entries[k];
            ProofOK(t, k, e) && (e.rejectedCurrent ==> (k, e.ep.outbound) in t.rejected)
  {
    hide Finished, ChecksOK, RejectKey;
    var t := Do(s, step);
    RejectedEntry(s.m, step.key, step.reason, step.now, k);
    var e := s.m.entries[k];
    assert ProofOK(s, k, e);
    if e.completed != 0 {
      FinishedLater(s, t, Work(k, e.completedSession, e.completedGeneration, e.completedStart), e.completed);
    }
  }

  lemma RejectedEntry(m: Monitor, key: string, reason: string, now: int, k: string)
    requires k in RejectKey(m, key, reason, now).entries
    ensures k in m.entries
    ensures var e, f := m.entries[k], RejectKey(m, key, reason, now).entries[k];
            && f.completed == e.completed && f.completedSession == e.completedSession && f.ep == e.ep
            && f.completedGeneration == e.completedGeneration && f.completedStart == e.completedStart
            && (k != key ==> f.rejectedCurrent == e.rejectedCurrent)
  {
    hide Reject;
    RejectKeepsProof(m.entries[k], now, reason, true);
  }

  lemma RefusedProof(s: System, step: Step, k: string)
    requires ChecksOK(s) && EntriesOK(s) && Enabled(s, step) && step.MergeStep? && k in step.refused
             && k in Next(s, step).entries
    ensures var t, e := Do(s, step), Next(s, step).entries[k];
            ProofOK(t, k, e) && (e.rejectedCurrent ==> (k, e.ep.outbound) in t.rejected)
  {
    hide Finished, ChecksOK, Merge;
    var t := Do(s, step);
    var e := EntryFor(s.m, k, step.now);
    RefusedEntry(s.m, step.eps, step.refused, step.now, k);
    if k in s.m.entries && e.completed != 0 {
      assert ProofOK(s, k, s.m.entries[k]);
      FinishedLater(s, t, Work(k, e.completedSession, e.completedGeneration, e.completedStart), e.completed);
    }
  }

  lemma RefusedEntry(m: Monitor, eps: map<string, Endpoint>, refused: map<string, string>, now: int, k: string)
    requires k in refused && k in Merge(m, eps, refused, now).entries
    ensures var e, f := EntryFor(m, k, now), Merge(m, eps, refused, now).entries[k];
            && f.completed == e.completed && f.completedSession == e.completedSession && f.ep.outbound == ""
            && f.completedGeneration == e.completedGeneration && f.completedStart == e.completedStart
  {
    hide Admit, IdentityChanged, Reject, EntryFor;
    RejectKeepsProof(EntryFor(m, k, now).(ep := Endpoint(k, "")), now, refused[k], false);
  }

  lemma RejectKeepsProof(e: Entry, now: int, reason: string, sticky: bool)
    ensures var f := Reject(e, now, reason, sticky);
            f.completed == e.completed && f.completedSession == e.completedSession && f.ep == e.ep
            && f.completedGeneration == e.completedGeneration && f.completedStart == e.completedStart
  {}

  lemma StepKeeps(s: System, step: Step)
    requires Inv(s) && Enabled(s, step)
    ensures Inv(Do(s, step))
  {
    hide Do, Enabled, PcOK, ChecksOK, EntriesOK, AnswersOK;
    PcKept(s, step);
    ChecksKept(s, step);
    EntriesKept(s, step);
    AnswersKept(s, step);
  }

  lemma InitKeeps(s: System)
    requires Init(s)
    ensures Inv(s)
  {}

  lemma {:induction false} RunKeeps(s: System, steps: seq<Step>)
    requires Inv(s) && Allowed(s, steps)
    ensures Inv(Final(s, steps))
    decreases |steps|
  {
    hide Do, Enabled, Inv;
    if |steps| > 0 {
      StepKeeps(s, steps[0]);
      RunKeeps(Do(s, steps[0]), steps[1..]);
    }
  }

  // ---------------------------------------------------------------- fresh evidence

  /** Where CheckEvidence may answer: the epoch of the call, still active, and
      every key answered since. */
  ghost predicate MayAnswer(s: System, t: System, keys: set<string>) {
    && ActivityOf(t.m, t.exited) == Active
    && t.m.generation == s.m.generation && t.m.session == s.m.session
    && Answered(t.m, keys, s.m.sequence, s.m.starts)
  }

  /** Between s and t, key k was rejected by this process with the outbound it
      has, or a check of it was dispatched, then completed, then counted. */
  ghost predicate FreshProof(s: System, t: System, k: string) {
    && k in t.m.entries
    && if t.m.entries[k].st.status == Rejected
       then (k, t.m.entries[k].ep.outbound) in t.rejected
       else exists w: Work, n: nat ::
         && w.key == k && w.session == s.m.session == t.m.session && w.generation == s.m.generation == t.m.generation
         && Finished(t, w, n) && |s.dispatched| < w.started && |s.finished| < n
         && (k, n) in t.resolved - s.resolved
  }

  lemma FreshAnswer(s: System, t: System, keys: set<string>, k: string)
    requires Inv(s) && Inv(t) && MayAnswer(s, t, keys) && k in keys
    ensures FreshProof(s, t, k)
  {
    hide Finished, PcOK, AnswersOK, ActivityOf;
    var e := t.m.entries[k];
    assert Applicable(t.m, e);
    if e.st.status != Rejected {
      assert ProofOK(t, k, e);
      var w := Work(k, e.completedSession, e.completedGeneration, e.completedStart);
      assert Finished(t, w, e.completed);
      NotResolvedYet(s, k, e.completed);
    }
  }

  lemma NotResolvedYet(s: System, k: string, n: nat)
    requires ChecksOK(s)
    ensures n > |s.finished| ==> (k, n) !in s.resolved
  {}

  // ---------------------------------------------------------------- failures and the WAN

  /** What a counted failure changes. */
  ghost predicate Held(e: Entry, e': Entry) {
    e'.st.status == e.st.status && e'.st.fails == e.st.fails && e'.pause == e.pause
  }

  /** A failure of the endpoint was counted: it is dead, and newly so, or with
      another count or pause. */
  ghost predicate Counted(e: Entry, e': Entry) {
    e'.st.status == Dead && !Held(e, e')
  }

  ghost predicate AnsweredLately(s: System) {
    exists a :: a in s.answers && NotedLately(s, a)
  }

  /** An endpoint or a control address answered within the window. */
  ghost predicate CameLately(s: System) {
    exists a :: a in s.answers && s.clock - a.at < GUARD_WINDOW
  }

  /** The loop took note of the answer within the window. */
  predicate NotedLately(s: System, a: Answer) { s.clock - a.taken < GUARD_WINDOW }

  lemma CountedNeedsAnswer(s: System, step: Step, k: string)
    requires Inv(s) && Enabled(s, step) && k in s.m.entries && k in Do(s, step).m.entries
    requires Counted(s.m.entries[k], Do(s, step).m.entries[k])
    ensures AnsweredLately(Do(s, step))
  {
    hide Do, Next, Enabled, Counted, PcOK, ChecksOK, EntriesOK, AnswersOK;
    DoIs(s, step);
    AnswersKept(s, step);
    if step.ApplyStep? {
      ApplyCounts(s, step, k);
    } else if step.GuardUpStep? {
      AnsweredNow(s, step);
    } else {
      OthersCountNothing(s, step, k);
    }
  }

  lemma AnsweredNow(s: System, step: Step)
    requires Enabled(s, step) && step.GuardUpStep?
    ensures AnsweredLately(Do(s, step))
  {
    hide Next, Resolves;
    assert Answer(s.clock, s.clock) in Do(s, step).answers;
  }

  lemma ApplyCounts(s: System, step: Step, k: string)
    requires AnswersOK(s) && Enabled(s, step) && step.ApplyStep? && k in s.m.entries && k in Next(s, step).entries
    requires Counted(s.m.entries[k], Next(s, step).entries[k])
    ensures AnsweredLately(Do(s, step))
  {
    hide Next, Resolves, AnswersOK, Counted, WANEvidence, HeldBack, Gone, Stale, Enabled;
    ApplyCountsIf(s, step, k);
    var t := Do(s, step);
    if step.r.ok {
      assert Answer(step.r.at, s.clock) in t.answers;
    } else {
      NotGone(s.m, s.exited, step.r);
      HeldBackEvidence(s, step);
      DoIs(s, step);
      ClockStands(s, step);
    }
  }

  lemma NotGone(m: Monitor, exited: set<Session>, r: Result)
    ensures !Gone(m, exited, r) ==> r.w.key in m.entries && r.w.session == m.session
  {}

  lemma ClockStands(s: System, step: Step)
    requires Enabled(s, step) && step.ApplyStep?
    ensures Do(s, step).clock == s.clock
  {
    hide Next, Resolves, Gone, Stale;
  }

  /** Failures are published by a success, or by a failure with WAN evidence. */
  lemma ApplyCountsIf(s: System, step: Step, k: string)
    requires Enabled(s, step) && step.ApplyStep? && k in s.m.entries && k in Next(s, step).entries
    requires Counted(s.m.entries[k], Next(s, step).entries[k])
    ensures !Gone(s.m, s.exited, step.r) && !Stale(s.m, step.r)
    ensures step.r.ok || WANEvidence(HeldBack(s.m, step.r, s.clock), s.clock)
  {
    hide WANEvidence, Gone, Stale, HeldBack, ApplySuccess, PublishPending, OutcomeOf;
    if step.r.w.key in s.m.entries { HeldBackHas(s.m, step.r, s.clock); } else { NoEntryGone(s.m, s.exited, step.r); }
  }

  lemma HeldBackEvidence(s: System, step: Step)
    requires AnswersOK(s) && step.ApplyStep? && step.r.w.key in s.m.entries && !step.r.ok
    requires WANEvidence(HeldBack(s.m, step.r, s.clock), s.clock)
    ensures exists a :: a in s.answers && NotedLately(s, a)
  {
    hide Young, OutcomeOf;
    var h := HeldBack(s.m, step.r, s.clock);
    if s.m.controlOK.At? && s.clock - s.m.controlOK.t < GUARD_WINDOW {
      var a :| a in s.answers && s.m.controlOK.t <= a.taken;
    } else {
      var i :| 0 <= i < |h.recent| && h.recent[i].ok && s.clock - h.recent[i].at < GUARD_WINDOW;
      var o := h.recent[i];
      YoungMember(s.m.recent + [OutcomeOf(step.r, s.clock)], s.clock, o);
      FailedOutcome(step.r, s.clock);
      assert o in h.recent;
      assert o in s.m.recent + [OutcomeOf(step.r, s.clock)];
      assert o in s.m.recent;
      var j :| 0 <= j < |s.m.recent| && s.m.recent[j] == o;
      var a :| a in s.answers && a.taken == s.m.recent[j].at;
    }
  }

  lemma FailedOutcome(r: Result, now: int)
    ensures OutcomeOf(r, now).ok == r.ok
  {}

  lemma OthersCountNothing(s: System, step: Step, k: string)
    requires Enabled(s, step) && !step.ApplyStep? && !step.GuardUpStep?
    requires k in s.m.entries && k in Next(s, step).entries
    ensures !Counted(s.m.entries[k], Next(s, step).entries[k])
  {
    hide Merge, StopSession, SetState, Reassess, RejectKey, Queue, Register, Due, ActivityOf, Counted;
    match step {
    case MergeStep(eps, refused, now) => MergeCounts(s.m, eps, refused, now, k);
    case ReassessStep(order, now) => ReassessCounts(s.m, order, now, k);
    case RejectStep(key, reason, now) => RejectCounts(s.m, key, reason, now, k);
    case _ => SectionHolds(s, step, k);
    }
    HeldIsNotCounted(s.m.entries[k], Next(s, step).entries[k]);
  }

  lemma HeldIsNotCounted(e: Entry, e': Entry)
    ensures Held(e, e') ==> !Counted(e, e')
  {}

  lemma MergeCounts(m: Monitor, eps: map<string, Endpoint>, refused: map<string, string>, now: int, k: string)
    requires k in m.entries && k in Merge(m, eps, refused, now).entries && (k in eps ==> eps[k].key == k)
    ensures !Counted(m.entries[k], Merge(m, eps, refused, now).entries[k])
  {
    hide IdentityChanged, Admit, Refuse, Counted;
    if k in refused {
      RefusedNotDead(m, k, refused[k], now);
    } else {
      AdmittedHeld(m, eps[k], now);
    }
    MergedEntry(m, eps, refused, now, k);
  }

  lemma MergedEntry(m: Monitor, eps: map<string, Endpoint>, refused: map<string, string>, now: int, k: string)
    requires k in Merge(m, eps, refused, now).entries && k in m.entries
    ensures var f := if k in refused then Refuse(m, k, refused[k], now) else Admit(m, eps[k], now);
            (f.st.status != Dead || Held(m.entries[k], f))
                ==> !Counted(m.entries[k], Merge(m, eps, refused, now).entries[k])
  {
    hide IdentityChanged, Admit, Refuse;
  }

  lemma RefusedNotDead(m: Monitor, key: string, reason: string, now: int)
    ensures Refuse(m, key, reason, now).st.status != Dead
  {}

  lemma AdmittedHeld(m: Monitor, ep: Endpoint, now: int)
    requires ep.key in m.entries
    ensures Admit(m, ep, now).st.status != Dead || Held(m.entries[ep.key], Admit(m, ep, now))
  {}

  lemma ReassessCounts(m: Monitor, order: set<string>, now: int, k: string)
    requires k in m.entries && k in Reassess(m, order, now).entries
    ensures !Counted(m.entries[k], Reassess(m, order, now).entries[k])
  {
    hide Reassessed, ReassessedEntry;
    ReassessedNotDead(m.entries[k], now);
  }

  lemma ReassessedNotDead(e: Entry, now: int)
    ensures ReassessedEntry(e, now) == e || ReassessedEntry(e, now).st.status != Dead
  {}

  lemma RejectCounts(m: Monitor, key: string, reason: string, now: int, k: string)
    requires k in m.entries && k in RejectKey(m, key, reason, now).entries
    ensures !Counted(m.entries[k], RejectKey(m, key, reason, now).entries[k])
  {
    hide Reject;
    RejectNotDead(m.entries[k], now, reason, true);
  }

  lemma RejectNotDead(e: Entry, now: int, reason: string, sticky: bool)
    ensures Reject(e, now, reason, sticky).st.status != Dead
  {}

  /** The sections that neither count, reject nor merge change none of the three. */
  lemma SectionHolds(s: System, step: Step, k: string)
    requires Enabled(s, step) && !step.ApplyStep? && !step.GuardUpStep?
    requires !step.MergeStep? && !step.ReassessStep? && !step.RejectStep?
    requires k in s.m.entries && k in Next(s, step).entries
    ensures Held(s.m.entries[k], Next(s, step).entries[k])
  {
    hide Due, ActivityOf, StopSession, SetState, Queue, Register;
    match step
    case StopStep => StopHolds(s.m, k);
    case CrashStep => StopHolds(s.m, k);
    case SetStateStep(state) => SetStateHolds(s.m, state, k);
    case QueueStep(keys, check) => QueueHolds(s.m, keys, check, k);
    case RegisterStep(keys) => RegisterHolds(s.m, keys, k);
    case _ =>
  }

  lemma StopHolds(m: Monitor, k: string)
    requires k in m.entries && k in StopSession(m).entries
    ensures Held(m.entries[k], StopSession(m).entries[k])
  {}

  lemma SetStateHolds(m: Monitor, state: State, k: string)
    requires k in m.entries && k in SetState(m, state).entries
    ensures Held(m.entries[k], SetState(m, state).entries[k])
  {}

  lemma QueueHolds(m: Monitor, keys: set<string>, check: bool, k: string)
    requires k in m.entries && k in Queue(m, keys, check).entries
    ensures Held(m.entries[k], Queue(m, keys, check).entries[k])
  {
    hide Marked;
    MarkedKeeps(m, m.entries[k], check);
  }

  lemma RegisterHolds(m: Monitor, keys: set<string>, k: string)
    requires k in m.entries && k in Register(m, keys).entries
    ensures Held(m.entries[k], Register(m, keys).entries[k])
  {
    hide Marked;
    MarkedKeeps(m, m.entries[k], true);
  }

  /** A new endpoint list leaves the status, the count and the pause of endpoint k:
      it lists it and does not take a rejection of the generator back, or it
      refuses it again. */
  predicate ListHolds(m: Monitor, eps: map<string, Endpoint>, refused: map<string, string>, k: string) {
    && k in m.entries
    && if k in refused then m.entries[k].st.status == Rejected && m.entries[k].pause == 0
       else k in eps && (m.entries[k].st.status == Rejected ==> m.entries[k].sticky)
  }

  predicate StepLeaves(s: System, step: Step, k: string) {
    step.MergeStep? ==> ListHolds(s.m, step.eps, step.refused, k)
  }

  /** A run all through which the monitor is paused. */
  ghost predicate Paused(s: System, steps: seq<Step>)
    requires Allowed(s, steps)
    decreases |steps|
  {
    |steps| > 0 ==> s.m.wanPaused && Paused(Do(s, steps[0]), steps[1..])
  }

  /** Every endpoint list of the run leaves endpoint k. */
  ghost predicate LeftAlone(s: System, steps: seq<Step>, k: string)
    requires Allowed(s, steps)
    decreases |steps|
  {
    |steps| > 0 ==> StepLeaves(s, steps[0], k) && LeftAlone(Do(s, steps[0]), steps[1..], k)
  }

  /** At every step of the run exactly those endpoints hold that a list leaves. */
  ghost predicate ChangedByLists(s: System, steps: seq<Step>)
    requires Allowed(s, steps)
    decreases |steps|
  {
    |steps| > 0 ==>
      && (forall k | k in s.m.entries :: HoldsOver(s.m, Do(s, steps[0]).m, k) <==> StepLeaves(s, steps[0], k))
      && ChangedByLists(Do(s, steps[0]), steps[1..])
  }

  ghost predicate HoldsOver(a: Monitor, b: Monitor, k: string)
    requires k in a.entries
  {
    k in b.entries && Held(a.entries[k], b.entries[k])
  }

  lemma ListHoldsIff(m: Monitor, eps: map<string, Endpoint>, refused: map<string, string>, now: int, k: string)
    requires k in m.entries && (k in eps ==> eps[k].key == k)
    ensures HoldsOver(m, Merge(m, eps, refused, now), k) <==> ListHolds(m, eps, refused, k)
  {
    hide IdentityChanged, Admit, Refuse;
    if k in refused {
      RefusedHolds(m, k, refused[k], now);
    } else if k in eps {
      AdmittedHolds(m, eps[k], now);
    }
  }

  lemma RefusedHolds(m: Monitor, k: string, reason: string, now: int)
    requires k in m.entries
    ensures Held(m.entries[k], Refuse(m, k, reason, now))
            <==> m.entries[k].st.status == Rejected && m.entries[k].pause == 0
  {}

  lemma AdmittedHolds(m: Monitor, ep: Endpoint, now: int)
    requires ep.key in m.entries
    ensures var e := m.entries[ep.key]; Held(e, Admit(m, ep, now)) <==> (e.st.status == Rejected ==> e.sticky)
  {}

  lemma PausedStepHolds(s: System, step: Step)
    requires PcOK(s) && Enabled(s, step) && !step.MergeStep? && (s.m.wanPaused || step.GuardDownStep?)
    ensures Next(s, step).entries.Keys == s.m.entries.Keys
    ensures forall k | k in s.m.entries :: Held(s.m.entries[k], Next(s, step).entries[k])
  {
    hide Held, Next;
    PausedKeys(s, step);
    forall k | k in s.m.entries ensures Held(s.m.entries[k], Next(s, step).entries[k]) {
      if step.ApplyStep? {
        PausedApply(s, step, k);
      } else {
        NoGuardWhilePaused(s, step);
        SectionHolds(s, step, k);
      }
    }
  }

  lemma NoGuardWhilePaused(s: System, step: Step)
    requires PcOK(s) && Enabled(s, step) && (s.m.wanPaused || step.GuardDownStep?)
    ensures !step.GuardUpStep? && !step.RejectStep? && !step.ReassessStep?
  {}

  lemma PausedApply(s: System, step: Step, k: string)
    requires PcOK(s) && Enabled(s, step) && step.ApplyStep? && s.m.wanPaused && k in s.m.entries
    ensures k in Next(s, step).entries && Held(s.m.entries[k], Next(s, step).entries[k])
  {
    hide ApplySuccess, ApplyFailure;
  }

  lemma PausedKeys(s: System, step: Step)
    requires Enabled(s, step) && !step.MergeStep?
    ensures Next(s, step).entries.Keys == s.m.entries.Keys
  {
    hide Due, ActivityOf, Apply, PublishPending, Reject, Marked, Reassessed, ReassessedEntry;
    if step.ApplyStep? { ApplyFrame(s.m, s.exited, step.r, s.clock, step.next); }
    if step.GuardUpStep? { PublishFrame(s.m.(controlOK := At(step.now))); }
  }

  /** The same with endpoint lists. */
  lemma PausedStepExact(s: System, step: Step)
    requires PcOK(s) && Enabled(s, step) && (s.m.wanPaused || step.GuardDownStep?)
    ensures forall k | k in s.m.entries :: HoldsOver(s.m, Next(s, step), k) <==> StepLeaves(s, step, k)
  {
    hide Held, ListHolds, PcOK, Merge;
    if step.MergeStep? {
      forall k | k in s.m.entries ensures HoldsOver(s.m, Next(s, step), k) <==> StepLeaves(s, step, k) {
        ListHoldsIff(s.m, step.eps, step.refused, step.now, k);
      }
    } else {
      PausedStepHolds(s, step);
    }
  }

  lemma {:induction false} PausedRunExact(s: System, steps: seq<Step>)
    requires PcOK(s) && Allowed(s, steps) && Paused(s, steps)
    ensures ChangedByLists(s, steps)
    ensures forall k | k in s.m.entries && LeftAlone(s, steps, k) :: HoldsOver(s.m, Final(s, steps).m, k)
    decreases |steps|
  {
    if |steps| > 0 {
      hide Do, Enabled, Held, PcOK, Final, Next, StepLeaves;
      FinalStep(s, steps);
      DoIs(s, steps[0]);
      PcKept(s, steps[0]);
      PausedStepExact(s, steps[0]);
      PausedRunExact(Do(s, steps[0]), steps[1..]);
      forall k | k in s.m.entries && LeftAlone(s, steps, k) ensures HoldsOver(s.m, Final(s, steps).m, k) {
        HoldsTwice(s.m, Do(s, steps[0]).m, Final(s, steps).m, k);
      }
    } else {
      assert Final(s, steps) == s;
    }
  }

  lemma HoldsTwice(a: Monitor, b: Monitor, c: Monitor, k: string)
    requires k in a.entries && HoldsOver(a, b, k) && HoldsOver(b, c, k)
    ensures HoldsOver(a, c, k)
  {}
}
