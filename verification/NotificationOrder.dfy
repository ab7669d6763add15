/** The order in which texts get their IDs. */
module NotificationOrder {
  // Over whole runs of one process, and what becomes of every text handed to Publish.
  // Calls of Publish follow one another; drains, saves and the other operations run
  // beside them.

  import opened Events
  import opened NotificationRuns

  // ---------------------------------------------------------------- the invariant

  /** IDs go to the calls in order. */
  ghost predicate InOrder(order: seq<(nat, nat)>) {
    forall i, j | 0 <= i < j < |order| :: order[i].0 < order[j].0 && order[i].1 < order[j].1
  }

  /** The last call given an ID, and that ID's number. */
  ghost function LastGiven(p: Proc): (nat, nat) {
    if |p.order| == 0 then (0, 0) else p.order[|p.order| - 1]
  }

  ghost predicate InCallOrder(b: seq<Waiting>) {
    forall i, j | 0 <= i < j < |b| :: b[i].n < b[j].n
  }

  ghost predicate Waits(p: Proc) {
    && |p.backlog| <= BACKLOG_MAX
    && InCallOrder(p.backlog)
    && (forall i | 0 <= i < |p.backlog| ::
          p.backlog[i].n <= p.calls && (LastGiven(p).0 < p.backlog[i].n
                                        || (i == 0 && p.drainer == Issued(p.backlog[0]))))
    && (p.publisher != Idle ==>
          p.backlog == [] && p.drainer == Resting && p.publisher.w.n == p.calls && LastGiven(p).0 < p.calls)
    && (p.drainer != Resting ==>
          |p.backlog| > 0 && p.drainer.w.n <= p.backlog[0].n
          && (p.drainer.w.n == p.backlog[0].n ==> p.drainer.w == p.backlog[0]))
  }

  ghost predicate Given(p: Proc) {
    && InOrder(p.order)
    && LastGiven(p).0 <= p.calls && LastGiven(p).1 <= p.mem.sequence
    && (p.drainer.Holding? ==> LastGiven(p).0 < p.drainer.w.n)
    && (p.drainer.Issued? ==> |p.order| > 0 && LastGiven(p).0 == p.drainer.w.n)
    && (!p.loaded ==> p.order == [])
  }

  ghost predicate HasID(p: Proc, n: nat) {
    exists i :: 0 <= i < |p.order| && p.order[i].0 == n
  }

  ghost predicate StillWaits(p: Proc, n: nat) {
    exists i :: 0 <= i < |p.backlog| && p.backlog[i].n == n
  }

  /** Where the text of call n is, or what became of it. */
  ghost predicate Accounted(p: Proc, n: nat) {
    || HasID(p, n)
    || StillWaits(p, n)
    || (p.drainer.Holding? && p.drainer.w.n == n)
    || (p.publisher != Idle && p.publisher.w.n == n)
    || n in p.refused || n in p.overflowed || n in p.twins
  }

  ghost predicate OrderInv(p: Proc) {
    Waits(p) && Given(p) && forall n | 1 <= n <= p.calls :: Accounted(p, n)
  }

  // ---------------------------------------------------------------- steps keep it

  /** One accounted call stays so: its text is where it was, or one place on. */
  lemma Shifted(p: Proc, q: Proc, n: nat)
    requires Accounted(p, n)
    requires q.order == p.order && p.refused <= q.refused && p.overflowed <= q.overflowed && p.twins <= q.twins
    requires q.publisher == p.publisher || q.publisher == Idle
             || (p.publisher != Idle && q.publisher.w == p.publisher.w)
    requires p.drainer.Holding? && p.drainer.w.n == n ==>
               (q.drainer == p.drainer) || StillWaits(q, n) || n in q.overflowed
    requires p.publisher != Idle && p.publisher.w.n == n && q.publisher == Idle ==> StillWaits(q, n) || n in q.refused
    requires (|q.backlog| >= |p.backlog| && q.backlog[..|p.backlog|] == p.backlog)
             || (|p.backlog| > 0 && p.backlog[1..] <= q.backlog
                 && (n == p.backlog[0].n ==>
                       n in q.overflowed || n in q.twins || HasID(q, n) || (q.drainer.Holding? && q.drainer.w.n == n)))
    ensures Accounted(q, n)
  {
    if HasID(p, n) {
      assert HasID(q, n);
    } else if StillWaits(p, n) {
      var i :| 0 <= i < |p.backlog| && p.backlog[i].n == n;
      if |q.backlog| >= |p.backlog| && q.backlog[..|p.backlog|] == p.backlog {
        assert q.backlog[i].n == n;
      } else if i > 0 {
        assert p.backlog[1..][i - 1] == q.backlog[i - 1];
        assert q.backlog[i - 1].n == n;
      }
    }
  }

  /** The shape deferLocked finds: the text is the newest of all calls. */
  ghost predicate Newest(p: Proc, w: Waiting) {
    && w.n == p.calls
    && |p.backlog| <= BACKLOG_MAX
    && (forall i | 0 <= i < |p.backlog| :: p.backlog[i].n < w.n)
    && LastGiven(p).0 < w.n
    && (p.drainer != Resting ==> |p.backlog| > 0)
  }

  lemma DeferredInOrder(b: seq<Waiting>, w: Waiting)
    requires InCallOrder(b) && forall i | 0 <= i < |b| :: b[i].n < w.n
    ensures InCallOrder(b + [w])
    ensures |b| > 0 ==> InCallOrder(b[1..]) && InCallOrder(b[1..] + [w])
  {}

  lemma DeferWaits(p: Proc, w: Waiting)
    requires Waits(p.(publisher := Idle)) && Newest(p, w)
    ensures Waits(Defer(p, w).(publisher := Idle))
  {
    hide InCallOrder;
    DeferredInOrder(p.backlog, w);
    if |p.backlog| == BACKLOG_MAX { FirstIsLeast(p.backlog); }
  }

  lemma FirstIsLeast(b: seq<Waiting>)
    requires InCallOrder(b)
    ensures forall i | 0 < i < |b| :: b[0].n < b[i].n
  {}

  lemma DeferAccounts(p: Proc, w: Waiting)
    requires Waits(p.(publisher := Idle)) && Given(p) && Newest(p, w)
    requires p.publisher == Idle || p.publisher.w == w
    requires forall n | 1 <= n < w.n :: Accounted(p, n)
    ensures var q := Defer(p, w).(publisher := Idle);
            forall n | 1 <= n <= q.calls :: Accounted(q, n)
  {
    var q := Defer(p, w).(publisher := Idle);
    assert q.backlog[|q.backlog| - 1] == w;
    assert StillWaits(q, w.n);
    forall n | 1 <= n <= q.calls ensures Accounted(q, n) {
      if n < w.n {
        if p.drainer.Issued? { assert HasID(q, p.drainer.w.n); }
        Shifted(p, q, n);
      }
    }
  }

  lemma DeferKeeps(p: Proc, w: Waiting)
    requires Waits(p.(publisher := Idle)) && Given(p) && Newest(p, w)
    requires p.publisher == Idle || p.publisher.w == w
    requires forall n | 1 <= n < w.n :: Accounted(p, n)
    ensures OrderInv(Defer(p, w).(publisher := Idle))
  {
    DeferWaits(p, w);
    DeferAccounts(p, w);
  }

  lemma GiveKeeps(p: Proc, q: Proc, w: Waiting)
    requires OrderInv(p) && p.loaded
    requires (p.publisher == Checked(w) && q.publisher == Idle && q.drainer == p.drainer)
             || (p.drainer == Holding(w) && q.drainer == Issued(w) && q.publisher == p.publisher)
    requires q == p.(mem := q.mem, order := p.order + [(w.n, p.mem.sequence + 1)], publisher := q.publisher,
                     drainer := q.drainer)
    requires q.mem.sequence == p.mem.sequence + 1
    ensures OrderInv(q)
  {
    hide Accounted;
    assert LastGiven(q) == (w.n, p.mem.sequence + 1);
    forall n | 1 <= n <= q.calls ensures Accounted(q, n) { GivenAccounted(p, q, w, n); }
  }

  lemma GivenAccounted(p: Proc, q: Proc, w: Waiting, n: nat)
    requires Accounted(p, n)
    requires p.publisher == Checked(w) || p.drainer == Holding(w)
    requires q == p.(mem := q.mem, order := p.order + [(w.n, p.mem.sequence + 1)], publisher := q.publisher,
                     drainer := q.drainer)
    requires (q.publisher == p.publisher || p.publisher == Checked(w))
             && (q.drainer == p.drainer || p.drainer == Holding(w))
    ensures Accounted(q, n)
  {
    if n == w.n {
      assert q.order[|p.order|].0 == n;
      assert HasID(q, n);
    } else if HasID(p, n) {
      var i :| 0 <= i < |p.order| && p.order[i].0 == n;
      assert q.order[i].0 == n;
      assert HasID(q, n);
    } else if StillWaits(p, n) {
      assert StillWaits(q, n);
    }
  }

  lemma PopWaits(p: Proc)
    requires OrderInv(p) && p.drainer.Issued?
    ensures Waits(Pop(p, p.drainer.w))
  {
    FirstIsLeast(p.backlog);
  }

  lemma PopKeeps(p: Proc)
    requires OrderInv(p) && p.drainer.Issued?
    ensures OrderInv(Pop(p, p.drainer.w))
  {
    var q := Pop(p, p.drainer.w);
    PopWaits(p);
    assert HasID(q, p.drainer.w.n);
    forall n | 1 <= n <= q.calls ensures Accounted(q, n) { Shifted(p, q, n); }
  }

  /** Sections that leave the texts alone. */
  lemma MemMoves(p: Proc, q: Proc)
    requires OrderInv(p) && q == p.(mem := q.mem, inflight := q.inflight, acked := q.acked, loaded := q.loaded,
                                    serving := q.serving)
    requires p.order == [] || p.mem.sequence <= q.mem.sequence
    requires p.loaded ==> q.loaded
    ensures OrderInv(q)
  {
    forall n | 1 <= n <= q.calls ensures Accounted(q, n) { Shifted(p, q, n); }
  }

  lemma TakeKeeps(p: Proc)
    requires OrderInv(p) && p.drainer == Resting && |p.backlog| > 0
    ensures OrderInv(p.(drainer := Holding(p.backlog[0])))
  {
    var q := p.(drainer := Holding(p.backlog[0]));
    forall n | 1 <= n <= q.calls ensures Accounted(q, n) { Shifted(p, q, n); }
  }

  lemma StopKeeps(p: Proc)
    requires OrderInv(p) && p.drainer.Holding?
    ensures OrderInv(Stop(p, p.drainer.w))
  {
    var q := Stop(p, p.drainer.w);
    if p.backlog[0] == p.drainer.w { assert StillWaits(q, p.drainer.w.n); }
    forall n | 1 <= n <= q.calls ensures Accounted(q, n) { Shifted(p, q, n); }
  }

  /** A call that finds nothing waiting is served at once. */
  lemma CallKeeps(p: Proc, w: Waiting)
    requires OrderInv(p) && p.publisher == Idle && p.backlog == [] && w.n == p.calls + 1
    ensures OrderInv(p.(calls := p.calls + 1, publisher := Checked(w)))
  {
    var q := p.(calls := p.calls + 1, publisher := Checked(w));
    forall n | 1 <= n <= q.calls ensures Accounted(q, n) {
      if n <= p.calls {
        assert Accounted(p, n);
        if HasID(p, n) { assert HasID(q, n); }
      }
    }
  }

  lemma PublisherMoves(p: Proc, q: Proc)
    requires OrderInv(p) && p.publisher != Idle
    requires q == p.(publisher := Unsaved(p.publisher.w))
             || q == p.(publisher := Idle, refused := p.refused + {p.publisher.w.n})
    ensures OrderInv(q)
  {
    forall n | 1 <= n <= q.calls ensures Accounted(q, n) { Shifted(p, q, n); }
  }

  lemma PubCallKeeps(p: Proc, w: Waiting)
    requires OrderInv(p) && p.publisher == Idle && w.n == p.calls + 1
    requires !p.serving || |p.backlog| > 0
    ensures OrderInv(Defer(p.(calls := p.calls + 1), w))
  {
    var q := p.(calls := p.calls + 1);
    forall n | 1 <= n < w.n ensures Accounted(q, n) {
      assert Accounted(p, n);
      if HasID(p, n) { assert HasID(q, n); }
      if StillWaits(p, n) { assert StillWaits(q, n); }
    }
    assert q.(publisher := Idle) == q;
    DeferKeeps(q, w);
    assert Defer(q, w).(publisher := Idle) == Defer(q, w);
  }

  lemma PubDeferKeeps(p: Proc)
    requires OrderInv(p) && p.publisher.Unsaved?
    ensures OrderInv(Defer(p, p.publisher.w).(publisher := Idle))
  {
    DeferKeeps(p, p.publisher.w);
  }

  lemma {:induction false} BatchSequence(m: Mem, updates: seq<Update>, at: int)
    ensures m.sequence <= ApplyUpdates(m, updates, at).sequence
  {
    if |updates| > 0 {
      hide PruneContent, AppendContent;
      BatchSequence(m, updates[..|updates| - 1], at);
    }
  }

  lemma StepKeepsOrder(s: System, step: Step)
    requires Inv(s) && Enabled(s, step) && (s.up ==> OrderInv(s.p))
    ensures Do(s, step).up ==> OrderInv(Do(s, step).p)
  {
    hide Inv, OrderInv, PruneContent, AppendContent, AckPending, AckClosed, ReplaceContent, Loaded, Defer, Pop, Stop,
      NothingToSave, ToSave, ValidEpoch, ApplyUpdates;
    var p := s.p;
    match step
    case Start(read, resolved) => StartKeepsOrder(s, read, resolved);
    case PubCall(text, at) =>
      var w := Waiting(p.calls + 1, text, at);
      if !p.serving || |p.backlog| > 0 { PubCallKeeps(p, w); } else { CallKeeps(p, w); }
    case PubAppend => LoadedWhenNamed(s); GiveKeeps(p, Do(s, step).p, p.publisher.w);
    case PubRefuse => PublisherMoves(p, Do(s, step).p);
    case PubUnsaved => PublisherMoves(p, Do(s, step).p);
    case PubDefer => PubDeferKeeps(p);
    case DrainTake => TakeKeeps(p);
    case DrainAppend => LoadedWhenNamed(s); GiveKeeps(p, Do(s, step).p, p.drainer.w);
    case DrainStop => StopKeeps(p);
    case DrainPop => PopKeeps(p);
    case Crash(_) =>
    case _ => if s.up { MemStepKeepsOrder(s, step); }
  }

  lemma MemStepKeepsOrder(s: System, step: Step)
    requires Inv(s) && Enabled(s, step) && s.up && OrderInv(s.p)
    requires step.Load? || step.Switch? || step.Identify? || step.PruneAt? || step.SaveStart? || step.SaveEnd?
             || step.SaveNothing? || step.AckStep? || step.ReplaceStep? || step.HealthStep? || step.Lose?
                 || step.Damage?
    ensures OrderInv(Do(s, step).p)
  {
    hide Inv, OrderInv, PruneContent, AckPending, AckClosed, ReplaceContent, Loaded, NothingToSave, ToSave, ValidEpoch,
      ApplyUpdates;
    var p := s.p;
    if step.Load? { UnloadedGaveNone(p); }
    if step.HealthStep? { BatchSequence(DropHealth(p.mem, step.current), step.updates, step.at); }
    MemMoves(p, Do(s, step).p);
  }

  lemma StartKeepsOrder(s: System, read: bool, resolved: bool)
    requires Enabled(s, Start(read, resolved))
    ensures OrderInv(Do(s, Start(read, resolved)).p)
  {
    hide Loaded;
  }

  lemma LoadedWhenNamed(s: System)
    requires Inv(s) && s.up
    ensures s.p.mem.epoch != "" ==> s.p.loaded
  {}

  lemma UnloadedGaveNone(p: Proc)
    requires OrderInv(p)
    ensures !p.loaded ==> p.order == []
  {}

  lemma {:induction false} RunKeepsOrder(s: System, steps: seq<Step>)
    requires Inv(s) && (s.up ==> OrderInv(s.p)) && Allowed(s, steps)
    ensures Final(s, steps).up ==> OrderInv(Final(s, steps).p)
    decreases |steps|
  {
    hide Inv, OrderInv, Do, Enabled;
    if |steps| > 0 {
      StepKeeps(s, steps[0]);
      StepKeepsOrder(s, steps[0]);
      RunKeepsOrder(Do(s, steps[0]), steps[1..]);
    }
  }

  // ---------------------------------------------------------------- theorems

  /** In every run the texts of a process get increasing sequence numbers in
      the order of the Publish calls, however saves fail and recover and
      wherever drains stop; and no text is lost unseen: each has an ID, waits,
      is on its way, was refused to the caller, was dropped as the oldest of a
      full backlog, or was taken for an equal text (LostTwin). */
  lemma PublishedInCallOrder(s: System, steps: seq<Step>)
    requires Init(s) && Allowed(s, steps) && Final(s, steps).up
    ensures var p := Final(s, steps).p;
            && InOrder(p.order)
            && |p.backlog| <= BACKLOG_MAX
            && forall n | 1 <= n <= p.calls :: Accounted(p, n)
  {
    InitKeeps(s);
    RunKeepsOrder(s, steps);
  }

  /** No text is taken for an equal one in a run in which no call hands over a
      text and a time that a text still waiting has. */
  ghost predicate Distinct(p: Proc) {
    && p.twins == {}
    && (forall i, j | 0 <= i < j < |p.backlog| ::
          p.backlog[i].text != p.backlog[j].text || p.backlog[i].at != p.backlog[j].at)
    && (p.drainer != Resting ==> forall i | 0 <= i < |p.backlog| ::
          p.backlog[i] == p.drainer.w || p.backlog[i].text != p.drainer.w.text || p.backlog[i].at != p.drainer.w.at)
  }

  ghost predicate NewText(p: Proc, text: string, at: int) {
    && (forall x | x in p.backlog :: x.text != text || x.at != at)
    && (p.drainer != Resting ==> p.drainer.w.text != text || p.drainer.w.at != at)
  }

  ghost predicate NewTexts(s: System, steps: seq<Step>)
    requires Allowed(s, steps)
    decreases |steps|
  {
    |steps| > 0 ==>
      && (steps[0].PubCall? ==> NewText(s.p, steps[0].text, steps[0].at))
      && NewTexts(Do(s, steps[0]), steps[1..])
  }

  lemma StepKeepsDistinct(s: System, step: Step)
    requires Enabled(s, step) && (s.up ==> OrderInv(s.p) && Distinct(s.p))
    requires step.PubCall? ==> NewText(s.p, step.text, step.at)
    ensures Do(s, step).up ==> Distinct(Do(s, step).p)
  {
    hide Given, Accounted, PruneContent, AppendContent, AckPending, AckClosed, ReplaceContent, Loaded,
      NothingToSave, ToSave, ValidEpoch, ApplyUpdates, Append, Prune, Ack, Replace, Defer, Pop, Distinct, OrderInv;
    if s.up {
      match step
      case PubCall(text, at) =>
        SameDistinct(s.p, s.p.(calls := s.p.calls + 1));
        DeferDistinct(s.p.(calls := s.p.calls + 1), Waiting(s.p.calls + 1, text, at));
        SameDistinct(s.p, Do(s, step).p);
      case PubDefer =>
        UnsavedAlone(s.p);
        DeferDistinct(s.p, s.p.publisher.w);
      case DrainTake => TakeDistinct(s.p);
      case DrainAppend => SameDistinct(s.p, Do(s, step).p);
      case DrainPop => PopDistinct(s.p);
      case Start(_, _) =>
      case _ => SameDistinct(s.p, Do(s, step).p);
    } else {
      NewDistinct(s, step);
    }
  }

  lemma NewDistinct(s: System, step: Step)
    requires Enabled(s, step) && !s.up
    ensures Do(s, step).up ==> Distinct(Do(s, step).p)
  {
    hide Loaded;
  }

  lemma SameDistinct(p: Proc, q: Proc)
    requires Distinct(p)
    ensures (&& q.twins == p.twins && q.backlog == p.backlog
             && (q.drainer == Resting || (p.drainer != Resting && q.drainer.w == p.drainer.w))) ==> Distinct(q)
  {}

  lemma UnsavedAlone(p: Proc)
    requires OrderInv(p) && p.publisher.Unsaved?
    ensures p.backlog == [] && p.drainer == Resting
  {}

  lemma DeferDistinct(p: Proc, w: Waiting)
    requires Distinct(p) && NewText(p, w.text, w.at)
    ensures Distinct(Defer(p, w)) && forall pub :: Distinct(Defer(p, w).(publisher := pub))
  {
    var q := Defer(p, w);
    assert forall x | x in q.backlog :: x in p.backlog || x == w;
  }

  lemma TakeDistinct(p: Proc)
    requires Distinct(p) && |p.backlog| > 0
    ensures Distinct(p.(drainer := Holding(p.backlog[0])))
  {}

  lemma PopDistinct(p: Proc)
    requires Distinct(p) && p.drainer.Issued?
    ensures Distinct(Pop(p, p.drainer.w))
  {}

  lemma {:induction false} NoTwins(s: System, steps: seq<Step>)
    requires Inv(s) && (s.up ==> OrderInv(s.p) && Distinct(s.p)) && Allowed(s, steps) && NewTexts(s, steps)
    ensures Final(s, steps).up ==> Final(s, steps).p.twins == {}
    decreases |steps|
  {
    hide Inv, OrderInv, Do, Enabled;
    if |steps| > 0 {
      StepKeeps(s, steps[0]);
      StepKeepsOrder(s, steps[0]);
      assert s.up ==> OrderInv(s.p) && Distinct(s.p);
      StepKeepsDistinct(s, steps[0]);
      NoTwins(Do(s, steps[0]), steps[1..]);
    }
  }

  /** With no equal text waiting at any call, texts leave the backlog only with
      an ID or as the oldest of a full one. */
  lemma OnlyOverflowDrops(s: System, steps: seq<Step>)
    requires Init(s) && Allowed(s, steps) && NewTexts(s, steps) && Final(s, steps).up
    ensures var p := Final(s, steps).p;
            forall n | 1 <= n <= p.calls ::
              HasID(p, n) || StillWaits(p, n) || (p.drainer.Holding? && p.drainer.w.n == n)
              || (p.publisher != Idle && p.publisher.w.n == n) || n in p.refused || n in p.overflowed
  {
    InitKeeps(s);
    PublishedInCallOrder(s, steps);
    NoTwins(s, steps);
    var p := Final(s, steps).p;
    forall n | 1 <= n <= p.calls
      ensures HasID(p, n) || StillWaits(p, n) || (p.drainer.Holding? && p.drainer.w.n == n)
              || (p.publisher != Idle && p.publisher.w.n == n) || n in p.refused || n in p.overflowed
    {
      assert Accounted(p, n);
    }
  }

  // ---------------------------------------------------------------- texts that are gone

  /** A text that has no ID and will get none. */
  ghost predicate Lost(p: Proc, n: nat) {
    && n <= p.calls && !HasID(p, n) && !StillWaits(p, n)
    && !(p.drainer.Holding? && p.drainer.w.n == n) && !(p.publisher != Idle && p.publisher.w.n == n)
  }

  /** Each text that was refused, dropped or taken for an equal one is lost, and
      it is one of the three. */
  ghost predicate Fates(p: Proc) {
    && p.refused !! p.overflowed && p.refused !! p.twins && p.overflowed !! p.twins
    && forall n | n in p.refused + p.overflowed + p.twins :: Lost(p, n)
  }

  lemma Apart(p: Proc, n: nat)
    requires Fates(p)
    ensures !Lost(p, n) ==> n !in p.refused && n !in p.overflowed && n !in p.twins
  {}

  lemma AboveLast(p: Proc, n: nat)
    requires Given(p) && LastGiven(p).0 < n
    ensures !HasID(p, n)
  {}

  /** The first of the backlog has an ID only if the drain has just given it one. */
  lemma HeadHasNone(p: Proc)
    requires OrderInv(p) && |p.backlog| > 0 && p.drainer != Issued(p.backlog[0])
    ensures !HasID(p, p.backlog[0].n)
    ensures p.drainer != Resting && p.drainer.w != p.backlog[0] ==> p.drainer.w.n < p.backlog[0].n
  {
    AboveLast(p, p.backlog[0].n);
  }

  lemma DeferFates(p: Proc, w: Waiting)
    requires OrderInv(p) && Fates(p) && (p.publisher == Unsaved(w) || (p.publisher == Idle && w.n == p.calls + 1))
    ensures Fates(Defer(p.(calls := w.n), w).(publisher := Idle))
  {
    var q := Defer(p.(calls := w.n), w).(publisher := Idle);
    var full := |p.backlog| == BACKLOG_MAX && (p.drainer.Resting? || p.drainer.w != p.backlog[0]);
    if full {
      HeadHasNone(p);
      assert StillWaits(p, p.backlog[0].n);
      Apart(p, p.backlog[0].n);
      FirstIsLeast(p.backlog);
    }
    forall n | n in q.refused + q.overflowed + q.twins ensures Lost(q, n) {
      if full && n == p.backlog[0].n {
        assert !StillWaits(q, n);
      } else {
        assert Lost(p, n);
        StillGone(p, q, w, n);
      }
    }
  }

  lemma StillGone(p: Proc, q: Proc, w: Waiting, n: nat)
    requires forall x | x in q.backlog :: x in p.backlog || x == w
    ensures StillWaits(q, n) ==> StillWaits(p, n) || n == w.n
  {
    if i :| 0 <= i < |q.backlog| && q.backlog[i].n == n {
      assert q.backlog[i] in q.backlog;
      if q.backlog[i] in p.backlog {
        var j :| 0 <= j < |p.backlog| && p.backlog[j] == q.backlog[i];
        assert StillWaits(p, n);
      }
    }
  }

  lemma OneMoreID(p: Proc, q: Proc, w: Waiting, sequence: nat, n: nat)
    requires q.order == p.order + [(w.n, sequence)]
    ensures HasID(q, n) ==> HasID(p, n) || n == w.n
  {
    if i :| 0 <= i < |q.order| && q.order[i].0 == n {
      assert i == |p.order| || p.order[i].0 == n;
    }
  }

  /** A text gets its ID from the publisher or the drain. */
  lemma GiveFates(p: Proc, q: Proc, w: Waiting)
    requires Fates(p) && (p.publisher == Checked(w) || p.drainer == Holding(w))
    requires (q.publisher == p.publisher || q.publisher == Idle) && (q.drainer == p.drainer || q.drainer == Issued(w))
    requires q == p.(mem := q.mem, order := p.order + [(w.n, p.mem.sequence + 1)], publisher := q.publisher,
                     drainer := q.drainer)
    ensures Fates(q)
  {
    forall n | n in q.refused + q.overflowed + q.twins ensures Lost(q, n) {
      assert Lost(p, n);
      assert StillWaits(q, n) ==> StillWaits(p, n);
      OneMoreID(p, q, w, p.mem.sequence + 1, n);
    }
  }

  lemma PubRefuseFates(p: Proc)
    requires OrderInv(p) && Fates(p) && p.publisher.Checked?
    ensures Fates(p.(publisher := Idle, refused := p.refused + {p.publisher.w.n}))
  {
    AboveLast(p, p.publisher.w.n);
    Apart(p, p.publisher.w.n);
    var q := p.(publisher := Idle, refused := p.refused + {p.publisher.w.n});
    forall n | n in q.refused + q.overflowed + q.twins ensures Lost(q, n) {
      assert n == p.publisher.w.n || Lost(p, n);
      assert StillWaits(q, n) ==> StillWaits(p, n);
      assert HasID(q, n) ==> HasID(p, n);
    }
  }

  lemma StopFates(p: Proc)
    requires OrderInv(p) && Fates(p) && p.drainer.Holding?
    ensures Fates(Stop(p, p.drainer.w))
  {
    var w, q := p.drainer.w, Stop(p, p.drainer.w);
    AboveLast(p, w.n);
    Apart(p, w.n);
    FirstIsLeast(p.backlog);
    forall n | n in q.refused + q.overflowed + q.twins ensures Lost(q, n) {
      assert n == w.n || Lost(p, n);
      assert StillWaits(q, n) ==> StillWaits(p, n);
      assert HasID(q, n) ==> HasID(p, n);
    }
  }

  lemma PopFates(p: Proc)
    requires OrderInv(p) && Fates(p) && p.drainer.Issued?
    ensures Fates(Pop(p, p.drainer.w))
  {
    var w, q := p.drainer.w, Pop(p, p.drainer.w);
    var head := p.backlog[0];
    assert StillWaits(p, head.n);
    Apart(p, head.n);
    FirstIsLeast(p.backlog);
    if head != w { HeadHasNone(p); }
    forall n | n in q.refused + q.overflowed + q.twins ensures Lost(q, n) {
      assert n == head.n || Lost(p, n);
      assert HasID(q, n) ==> HasID(p, n);
      StillGone(p, q, Waiting(p.calls + 1, "", 0), n);
    }
  }

  /** Sections that move no text. */
  lemma SameFates(p: Proc, q: Proc)
    requires Fates(p) && q.refused == p.refused && q.overflowed == p.overflowed && q.twins == p.twins
             && q.calls >= p.calls
    requires q.order == p.order && q.backlog == p.backlog
    requires q.drainer == p.drainer || (q.drainer.Holding? && StillWaits(p, q.drainer.w.n))
    requires q.publisher == p.publisher || (q.publisher.Unsaved? && p.publisher.Checked?
                                            && q.publisher.w == p.publisher.w)
             || (q.publisher.Checked? && q.publisher.w.n > p.calls)
    ensures Fates(q)
  {
    forall n | n in q.refused + q.overflowed + q.twins ensures Lost(q, n) {
      assert Lost(p, n);
      assert HasID(q, n) ==> HasID(p, n);
      assert StillWaits(q, n) ==> StillWaits(p, n);
    }
  }

  lemma StepKeepsFates(s: System, step: Step)
    requires Inv(s) && Enabled(s, step) && (s.up ==> OrderInv(s.p) && Fates(s.p))
    ensures Do(s, step).up ==> Fates(Do(s, step).p)
  {
    hide Inv, OrderInv, Fates, PruneContent, AppendContent, AckPending, AckClosed, ReplaceContent, Loaded, Defer,
         Pop, Stop,
      NothingToSave, ToSave, ValidEpoch, ApplyUpdates, Lost, StillWaits, HealthBatch, Ack, Replace, Prune, Append;
    var p := s.p;
    if s.up {
      match step
      case PubCall(text, at) =>
        var w := Waiting(p.calls + 1, text, at);
        if !p.serving || |p.backlog| > 0 {
          DeferFates(p, w);
          StaysIdle(p, w);
        } else {
          SameFates(p, Do(s, step).p);
        }
      case PubAppend => GiveFates(p, Do(s, step).p, p.publisher.w);
      case PubRefuse => PubRefuseFates(p);
      case PubDefer =>
        CallsAre(p);
        DeferFates(p, p.publisher.w);
      case DrainTake =>
        HeadWaits(p);
        SameFates(p, Do(s, step).p);
      case DrainAppend => GiveFates(p, Do(s, step).p, p.drainer.w);
      case DrainStop => StopFates(p);
      case DrainPop => PopFates(p);
      case Start(_, _) =>
      case Crash(_) =>
      case _ =>
        TextsStand(s, step);
        SameFates(p, Do(s, step).p);
    } else {
      NewFates(s, step);
    }
  }

  lemma TextsStand(s: System, step: Step)
    requires s.up && Enabled(s, step) && !step.Start? && !step.PubCall? && !step.PubAppend? && !step.PubRefuse?
             && !step.PubDefer?
    requires !step.DrainTake? && !step.DrainAppend? && !step.DrainStop? && !step.DrainPop?
    ensures var p, q := s.p, Do(s, step).p;
            && q.refused == p.refused && q.overflowed == p.overflowed && q.twins == p.twins && q.calls == p.calls
            && q.order == p.order && q.backlog == p.backlog && q.drainer == p.drainer
            && (q.publisher == p.publisher || (q.publisher.Unsaved? && p.publisher.Checked?
                                               && q.publisher.w == p.publisher.w))
  {
    hide Prune, Ack, Replace, Loaded, NothingToSave, ToSave, ValidEpoch, HealthBatch;
  }

  lemma StaysIdle(p: Proc, w: Waiting)
    requires p.publisher == Idle && w.n == p.calls + 1
    ensures Defer(p.(calls := w.n), w).(publisher := Idle) == Defer(p.(calls := p.calls + 1), w)
  {}

  lemma CallsAre(p: Proc)
    requires OrderInv(p) && p.publisher != Idle
    ensures p.publisher.w.n == p.calls && p.(calls := p.publisher.w.n) == p
  {}

  lemma HeadWaits(p: Proc)
    requires |p.backlog| > 0
    ensures StillWaits(p, p.backlog[0].n)
  {}

  lemma NewFates(s: System, step: Step)
    requires Enabled(s, step) && !s.up
    ensures Do(s, step).up ==> Fates(Do(s, step).p)
  {
    hide Loaded;
  }

  lemma {:induction false} RunKeepsFates(s: System, steps: seq<Step>)
    requires Inv(s) && (s.up ==> OrderInv(s.p) && Fates(s.p)) && Allowed(s, steps)
    ensures Inv(Final(s, steps))
    ensures Final(s, steps).up ==> OrderInv(Final(s, steps).p) && Fates(Final(s, steps).p)
    decreases |steps|
  {
    hide Inv, OrderInv, Do, Enabled, Fates;
    if |steps| > 0 {
      StepKeeps(s, steps[0]);
      StepKeepsOrder(s, steps[0]);
      StepKeepsFates(s, steps[0]);
      RunKeepsFates(Do(s, steps[0]), steps[1..]);
    }
  }

  /** In every run, a text that was refused, dropped as the oldest or taken for an
      equal one has no ID, waits nowhere, and came to only one of these ends. */
  lemma LostIsLost(s: System, steps: seq<Step>)
    requires Init(s) && Allowed(s, steps) && Final(s, steps).up
    ensures Fates(Final(s, steps).p)
  {
    InitKeeps(s);
    RunKeepsFates(s, steps);
  }

  /** In every run, a text is taken for an equal one exactly at the end of a drain
      whose own text no longer waits - a full backlog has dropped it meanwhile - and
      whose head, this text, has the same words and time. */
  lemma TwinTakenIff(s: System, steps: seq<Step>, step: Step, n: nat)
    requires Init(s) && Allowed(s, steps) && Final(s, steps).up && Enabled(Final(s, steps), step)
    ensures var p, q := Final(s, steps).p, Do(Final(s, steps), step).p;
            && p.twins <= q.twins
            && (n in q.twins && n !in p.twins <==>
                  && step == DrainPop && |p.backlog| > 0 && n == p.backlog[0].n && !StillWaits(p, p.drainer.w.n)
                  && p.backlog[0].text == p.drainer.w.text && p.backlog[0].at == p.drainer.w.at)
  {
    hide Allowed, Final, Do, Enabled, Inv;
    InitKeeps(s);
    RunKeepsFates(s, steps);
    TwinAtPop(Final(s, steps), step);
  }

  lemma TwinAtPop(s: System, step: Step)
    requires s.up && OrderInv(s.p) && Fates(s.p) && Enabled(s, step)
    ensures step != DrainPop ==> Do(s, step).p.twins == s.p.twins
    ensures var p, q := s.p, Do(s, step).p;
            step == DrainPop ==>
              && |p.backlog| > 0
              && q.twins == p.twins + (if !StillWaits(p, p.drainer.w.n) && p.backlog[0].text == p.drainer.w.text
                                          && p.backlog[0].at == p.drainer.w.at then {p.backlog[0].n} else {})
              && p.backlog[0].n !in p.twins
  {
    hide OrderInv, Fates, PruneContent, AppendContent, AckPending, AckClosed, ReplaceContent, Loaded, NothingToSave,
         ToSave,
      ValidEpoch, ApplyUpdates, Lost, StillWaits;
    if step == DrainPop { PopTakes(s.p); }
  }

  lemma PopTakes(p: Proc)
    requires OrderInv(p) && Fates(p) && p.drainer.Issued?
    ensures |p.backlog| > 0 && p.backlog[0].n !in p.twins
    ensures StillWaits(p, p.drainer.w.n) <==> p.backlog[0] == p.drainer.w
  {
    HeadWaits(p);
    FirstIsLeast(p.backlog);
    Apart(p, p.backlog[0].n);
  }

  // ---------------------------------------------------------------- a lost twin

  const EPOCH: string := seq(32, i => '0')

  function SameCalls(k: nat): seq<Step> {
    seq(k, i => PubCall("x", 0))
  }

  function Twins(first: nat, k: nat): seq<Waiting> {
    seq(k, i requires 0 <= i => Waiting(first + i, "x", 0))
  }

  lemma CallDefers(s: System)
    requires s.up && !s.p.serving && s.p.publisher == Idle && |s.p.backlog| < BACKLOG_MAX
    ensures Enabled(s, PubCall("x", 0))
    ensures Do(s, PubCall("x", 0)) ==
              s.(p := s.p.(calls := s.p.calls + 1, backlog := s.p.backlog + [Waiting(s.p.calls + 1, "x", 0)]))
  {}

  lemma {:induction false} Fill(s: System, k: nat)
    requires s.up && !s.p.serving && s.p.publisher == Idle && s.p.drainer == Resting
    requires |s.p.backlog| + k <= BACKLOG_MAX
    ensures Allowed(s, SameCalls(k))
    ensures Final(s, SameCalls(k)) ==
              s.(p := s.p.(calls := s.p.calls + k, backlog := s.p.backlog + Twins(s.p.calls + 1, k)))
    decreases k
  {
    hide Do, Enabled;
    if k == 0 {
      assert s.p.backlog + Twins(s.p.calls + 1, 0) == s.p.backlog;
    } else {
      CallDefers(s);
      var t := Do(s, PubCall("x", 0));
      assert SameCalls(k)[1..] == SameCalls(k - 1);
      Fill(t, k - 1);
      OneStep(s, SameCalls(k), t);
      assert Twins(s.p.calls + 1, k) == [Waiting(s.p.calls + 1, "x", 0)] + Twins(s.p.calls + 2, k - 1);
      assert s.p.backlog + Twins(s.p.calls + 1, k) == t.p.backlog + Twins(t.p.calls + 1, k - 1);
    }
  }

  /** The text of call 2 is lost although no backlog was over-full because of
      it: 20 equal texts with one time wait, the drain gives the first its ID, a
      new call drops the first as the oldest, and the drain takes the second,
      equal to it, for the one just given an ID. */
  lemma LostTwin(s: System) returns (steps: seq<Step>)
    requires Init(s) && s.disk == Missing
    ensures Allowed(s, steps) && Final(s, steps).up
    ensures 2 in Final(s, steps).p.twins && 2 !in Final(s, steps).p.overflowed && !HasID(Final(s, steps).p, 2)
  {
    var start := Start(true, false);
    var t0 := Do(s, start);
    Fill(t0, BACKLOG_MAX);
    var t1 := Final(t0, SameCalls(BACKLOG_MAX));
    assert t1.p.backlog == Twins(1, BACKLOG_MAX);
    var rest := TakesTwin(t1);
    hide Do, Enabled;
    Then(t0, SameCalls(BACKLOG_MAX), rest);
    OneStep(s, [start] + (SameCalls(BACKLOG_MAX) + rest), t0);
    steps := [start] + (SameCalls(BACKLOG_MAX) + rest);
  }

  lemma TakesTwin(s: System) returns (steps: seq<Step>)
    requires s.up && s.disk == Missing && s.epochs == {}
    requires s.p == Started(Missing, true, false).(calls := BACKLOG_MAX, backlog := Twins(1, BACKLOG_MAX))
    ensures Allowed(s, steps) && Final(s, steps).up
    ensures var p := Final(s, steps).p; 2 in p.twins && 2 !in p.overflowed && !HasID(p, 2)
  {
    var t2, t3, t4, t5 := GivesFirst(s);
    var t6, t7 := TakesSecond(t5);
    steps := [Load(true), Identify(EPOCH), DrainTake, DrainAppend, PubCall("x", 0), DrainPop];
    hide Do, Enabled;
    Chained([s, t2, t3, t4, t5, t6, t7], steps);
  }

  lemma GivesFirst(s: System) returns (t2: System, t3: System, t4: System, t5: System)
    requires s.up && s.disk == Missing && s.epochs == {}
    requires s.p == Started(Missing, true, false).(calls := BACKLOG_MAX, backlog := Twins(1, BACKLOG_MAX))
    ensures Enabled(s, Load(true)) && t2 == Do(s, Load(true))
    ensures Enabled(t2, Identify(EPOCH)) && t3 == Do(t2, Identify(EPOCH))
    ensures Enabled(t3, DrainTake) && t4 == Do(t3, DrainTake)
    ensures Enabled(t4, DrainAppend) && t5 == Do(t4, DrainAppend)
    ensures t5.up && t5.p.drainer == Issued(Waiting(1, "x", 0)) && t5.p.backlog == Twins(1, BACKLOG_MAX)
    ensures t5.p.order == [(1, 1)] && t5.p.publisher == Idle && t5.p.overflowed == {} && t5.p.calls == BACKLOG_MAX
  {
    hide Append, Prune, ValidSaved;
    t2 := Do(s, Load(true));
    assert ValidEpoch(EPOCH);
    t3 := Do(t2, Identify(EPOCH));
    t4 := Do(t3, DrainTake);
    t5 := Do(t4, DrainAppend);
  }

  lemma TakesSecond(t5: System) returns (t6: System, t7: System)
    requires t5.up && t5.p.drainer == Issued(Waiting(1, "x", 0)) && t5.p.backlog == Twins(1, BACKLOG_MAX)
    requires t5.p.order == [(1, 1)] && t5.p.publisher == Idle && t5.p.overflowed == {} && t5.p.calls == BACKLOG_MAX
    ensures Enabled(t5, PubCall("x", 0)) && t6 == Do(t5, PubCall("x", 0))
    ensures Enabled(t6, DrainPop) && t7 == Do(t6, DrainPop)
    ensures t7.up && 2 in t7.p.twins && 2 !in t7.p.overflowed && !HasID(t7.p, 2)
  {
    hide Append, Prune, ValidSaved;
    t6 := Do(t5, PubCall("x", 0));
    assert t6.p.backlog[0] == Waiting(2, "x", 0);
    t7 := Do(t6, DrainPop);
  }
}
