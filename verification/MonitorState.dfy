/** The server monitor's records and what each section of
    server/internal/monitor under `mu` does to them, as functions on values. */
module MonitorState {
  const GUARD_WINDOW: int := 30_000_000_000
  const GUARD_MIN: nat := 5
  const CONTROL_EVERY: int := 15_000_000_000

  datatype Status = Unknown | Alive | Dead | Rejected
  datatype State = OK | Stopped | Disabled | NoXray | ProberError | WANDown

  datatype Time = Never | At(t: int)

  /** What a snapshot shows of an endpoint. */
  datatype EndpointState = EndpointState(
    status: Status, latency: int, checkedAt: Time, fails: nat, error: string, nextAt: Time, since: Time)

  datatype Endpoint = Endpoint(key: string, outbound: string)

  /** A session is a number, 0 for none. */
  type Session = nat
  const NO_SESSION: Session := 0

  datatype Entry = Entry(
    ep: Endpoint,
    st: EndpointState,
    pause: int,
    sticky: bool,
    inFlight: bool,
    pending: bool,
    revision: nat,
    rejectedCurrent: bool,
    completed: nat,
    completedSession: Session,
    completedGeneration: nat,
    completedStart: nat,
    followUp: bool,
    after: nat,
    evidenceFollowUp: bool,
    evidenceAfter: nat,
    urgent: bool)

  datatype Settings = Settings(enabled: bool, interval: int, deadMax: int, concurrency: nat)

  /** A check handed to a worker. */
  datatype Work = Work(key: string, session: Session, generation: nat, started: nat)

  /** A worker's answer, numbered when the check completed. */
  datatype Result = Result(w: Work, ok: bool, reason: string, latency: int, number: nat, at: int)

  datatype Outcome = Outcome(at: int, ok: bool, key: string, reason: string, number: nat, generation: nat, started: nat)

  datatype Monitor = Monitor(
    settings: Settings,
    state: State,
    entries: map<string, Entry>,
    session: Session,
    restored: map<string, SavedEntry>,
    sequence: nat,
    starts: nat,
    generation: nat,
    closed: bool,
    pending: map<string, Outcome>,
    recent: seq<Outcome>,
    controlOK: Time,
    nextControl: int,
    wanPaused: bool)

  datatype SavedEntry = SavedEntry(st: EndpointState, pause: int, sticky: bool)

  // ---------------------------------------------------------------- entries

  function NewState(now: int): EndpointState {
    EndpointState(Unknown, 0, Never, 0, "", At(now), At(now))
  }

  function EntryOf(st: EndpointState, pause: int, sticky: bool): Entry {
    Entry(Endpoint("", ""), st, pause, sticky, false, false, 0, false, 0, NO_SESSION, 0, 0, false, 0, false, 0, false)
  }

  predicate Checkable(e: Entry) { e.st.status != Rejected }

  /** entry.succeed; the next check is due at `next`, an interval later give or take the jitter. */
  function Succeed(e: Entry, now: int, latency: int, next: int): Entry {
    e.(revision := e.revision + 1,
       st := EndpointState(Alive, latency, At(now), 0, "", At(next),
                           if e.st.status != Alive then At(now) else e.st.since),
       pause := 0)
  }

  function NextPause(pause: int, s: Settings): int {
    var last := if pause == 0 then s.interval else pause;
    if last > s.deadMax / 2 then s.deadMax else 2 * last
  }

  /** entry.fail. */
  function Fail(e: Entry, now: int, reason: string, s: Settings): Entry {
    var pause := NextPause(e.pause, s);
    e.(revision := e.revision + 1,
       st := EndpointState(Dead, e.st.latency, At(now), e.st.fails + 1, reason, At(now + pause),
                           if e.st.status != Dead then At(now) else e.st.since),
       pause := pause)
  }

  /** entry.reject. */
  function Reject(e: Entry, now: int, reason: string, sticky: bool): Entry {
    var st := e.st.(status := Rejected, error := reason, nextAt := Never,
                    since := if e.st.status != Rejected then At(now) else e.st.since);
    e.(st := st, pause := 0, sticky := sticky,
       inFlight := false, pending := false, urgent := false, followUp := false, evidenceFollowUp := false,
       revision := e.revision + (if st != e.st || sticky != e.sticky || !e.rejectedCurrent then 1 else 0),
       rejectedCurrent := true)
  }

  /** completed: the bookkeeping of a resolved check. */
  function Completed(e: Entry, o: Outcome, session: Session, generation: nat): Entry {
    e.(completed := o.number, completedSession := session,
       completedGeneration := o.generation, completedStart := o.started,
       followUp := e.followUp && o.number <= e.after,
       evidenceFollowUp := e.evidenceFollowUp && !(o.generation == generation && o.started > e.evidenceAfter))
  }

  // ---------------------------------------------------------------- the whole set

  /** invalidateEvidence. */
  function Invalidate(m: Monitor): Monitor {
    m.(generation := m.generation + 1,
       entries := map k | k in m.entries :: m.entries[k].(evidenceFollowUp := false))
  }

  function DiscardPending(m: Monitor): Monitor {
    m.(pending := map[], entries := map k | k in m.entries :: m.entries[k].(pending := false))
  }

  predicate Publishes(m: Monitor, key: string) {
    key in m.pending && key in m.entries && Checkable(m.entries[key]) && m.entries[key].pending
  }

  function PublishedEntry(m: Monitor, key: string): Entry
    requires key in m.entries
  {
    if Publishes(m, key)
    then Completed(Fail(m.entries[key], m.pending[key].at, m.pending[key].reason, m.settings).(pending := false),
                   m.pending[key], m.session, m.generation)
    else m.entries[key]
  }

  /** publishPending: every failure held back is counted. */
  function PublishPending(m: Monitor): Monitor {
    m.(pending := map[], entries := map k | k in m.entries :: PublishedEntry(m, k))
  }

  function SetState(m: Monitor, state: State): Monitor {
    if m.state == state then m else Invalidate(m.(state := state))
  }

  function AllLanded(m: Monitor): Monitor {
    m.(entries := map k | k in m.entries :: m.entries[k].(inFlight := false))
  }

  /** stopSession, and the same part of crashed. */
  function StopSession(m: Monitor): Monitor {
    if m.session == NO_SESSION then m
    else Invalidate(DiscardPending(AllLanded(m)).(session := NO_SESSION, recent := []))
  }

  function StartSession(m: Monitor, session: Session): Monitor {
    Invalidate(m.(session := session))
  }

  function RejectKey(m: Monitor, key: string, reason: string, now: int): Monitor {
    if key !in m.entries then m
    else
      var r := m.(entries := m.entries[key := Reject(m.entries[key], now, reason, true)]);
      if Checkable(m.entries[key]) then Invalidate(r) else r
  }

  predicate Reassessed(e: Entry) { e.st.status == Rejected && !e.rejectedCurrent }

  function ReassessedEntry(e: Entry, now: int): Entry {
    if Reassessed(e) then e.(st := NewState(now), pause := 0, sticky := false, revision := e.revision + 1) else e
  }

  /** reassessRejected over the endpoints `order` lists. */
  function Reassess(m: Monitor, order: set<string>, now: int): Monitor {
    var r := m.(entries := map k | k in m.entries ::
                  if k in order then ReassessedEntry(m.entries[k], now) else m.entries[k]);
    if exists k :: k in order && k in m.entries && Reassessed(m.entries[k]) then Invalidate(r) else r
  }

  // ---------------------------------------------------------------- merge

  function EntryFor(m: Monitor, key: string, now: int): Entry {
    if key in m.entries then m.entries[key]
    else if key in m.restored then EntryOf(m.restored[key].st, m.restored[key].pause, m.restored[key].sticky)
    else EntryOf(NewState(now), 0, false)
  }

  /** The entry of an endpoint the generator lists. */
  function Admit(m: Monitor, ep: Endpoint, now: int): Entry {
    var e := EntryFor(m, ep.key, now);
    var f := e.(rejectedCurrent := e.rejectedCurrent && e.ep.outbound == ep.outbound, ep := ep);
    if e.st.status == Rejected && !e.sticky
    then f.(st := NewState(now), revision := f.revision + 1, rejectedCurrent := false)
    else f
  }

  predicate AdmitChanges(m: Monitor, ep: Endpoint, now: int) {
    var e := EntryFor(m, ep.key, now);
    ep.key !in m.entries || e.ep.outbound != ep.outbound || (e.st.status == Rejected && !e.sticky)
  }

  /** The entry of an endpoint the generator refuses. */
  function Refuse(m: Monitor, key: string, reason: string, now: int): Entry {
    Reject(EntryFor(m, key, now).(ep := Endpoint(key, "")), now, reason, false)
  }

  predicate RefuseChanges(m: Monitor, key: string, now: int) {
    var e := EntryFor(m, key, now);
    key !in m.entries || Checkable(e) || e.sticky || e.ep.outbound != ""
  }

  function MergedEntries(m: Monitor, eps: map<string, Endpoint>, refused: map<string, string>,
                         now: int): map<string, Entry> {
    map k | k in eps.Keys + refused.Keys ::
      if k in refused then Refuse(m, k, refused[k], now) else Admit(m, eps[k], now)
  }

  predicate AnyAdmitted(m: Monitor, eps: map<string, Endpoint>, now: int) {
    exists k :: k in eps && AdmitChanges(m, eps[k], now)
  }

  predicate IdentityChanged(m: Monitor, eps: map<string, Endpoint>, refused: map<string, string>, now: int) {
    || AnyAdmitted(m, eps, now)
    || (exists k :: k in refused && RefuseChanges(m, k, now))
    || eps.Keys + refused.Keys != m.entries.Keys
  }

  /** merge of a list with one endpoint to a key. */
  function Merge(m: Monitor, eps: map<string, Endpoint>, refused: map<string, string>, now: int): Monitor {
    var r := m.(entries := MergedEntries(m, eps, refused, now), restored := map[]);
    if IdentityChanged(m, eps, refused, now) then Invalidate(r) else r
  }

  // What a merge means, from the lists themselves.

  /** Unknown, and due at once. */
  ghost predicate StartsAnew(st: EndpointState, now: int) {
    st == EndpointState(Unknown, 0, Never, 0, "", At(now), At(now))
  }

  /** An endpoint on the list keeps its entry; a new one has the status, the pause and
      the stickiness saved of it, or none. One the generator refused before, and did
      not fail to load, starts anew. */
  ghost predicate Listed(m: Monitor, ep: Endpoint, now: int, e: Entry) {
    && e.ep == ep
    && (ep.key in m.entries ==>
          var was := m.entries[ep.key];
          && e == was.(ep := ep, st := e.st, revision := e.revision, rejectedCurrent := e.rejectedCurrent,
                       evidenceFollowUp := e.evidenceFollowUp)
          && if was.st.status == Rejected && !was.sticky
             then StartsAnew(e.st, now) && e.revision == was.revision + 1 && !e.rejectedCurrent
             else && e.st == was.st && e.revision == was.revision
                  && e.rejectedCurrent == (was.rejectedCurrent && was.ep.outbound == ep.outbound))
    && (ep.key !in m.entries ==>
          !e.inFlight && !e.pending && !e.urgent && !e.followUp && !e.evidenceFollowUp && !e.rejectedCurrent)
    && (ep.key !in m.entries && ep.key in m.restored ==>
          var saved := m.restored[ep.key];
          && e.pause == saved.pause && e.sticky == saved.sticky
          && if saved.st.status == Rejected && !saved.sticky then StartsAnew(e.st, now) else e.st == saved.st)
    && (ep.key !in m.entries && ep.key !in m.restored ==> StartsAnew(e.st, now) && e.pause == 0 && !e.sticky)
  }

  /** An endpoint the generator refuses is rejected for this list only, and no check
      of it is asked for or under way. */
  ghost predicate RefusedNow(key: string, reason: string, e: Entry) {
    && e.ep == Endpoint(key, "") && e.st.status == Rejected && e.st.error == reason && e.st.nextAt == Never
    && e.pause == 0 && !e.sticky && e.rejectedCurrent
    && !e.inFlight && !e.pending && !e.urgent && !e.followUp && !e.evidenceFollowUp
  }

  /** The list has the same endpoints, as they were, and refuses the same. */
  ghost predicate SameList(m: Monitor, eps: map<string, Endpoint>, refused: map<string, string>) {
    && eps.Keys + refused.Keys == m.entries.Keys
    && (forall k | k in eps && k in m.entries ::
          m.entries[k].ep.outbound == eps[k].outbound && (m.entries[k].st.status == Rejected ==> m.entries[k].sticky))
    && forall k | k in refused && k in m.entries ::
         m.entries[k].st.status == Rejected && !m.entries[k].sticky && m.entries[k].ep.outbound == ""
  }

  lemma AdmitTells(m: Monitor, ep: Endpoint, now: int)
    ensures Listed(m, ep, now, Admit(m, ep, now))
    ensures Admit(m, ep, now).evidenceFollowUp ==> ep.key in m.entries && m.entries[ep.key].evidenceFollowUp
  {
    hide Listed, Admit;
    if ep.key in m.entries { KeptTells(m, ep, now); } else { NewTells(m, ep, now); }
  }

  lemma KeptTells(m: Monitor, ep: Endpoint, now: int)
    requires ep.key in m.entries
    ensures Listed(m, ep, now, Admit(m, ep, now))
    ensures Admit(m, ep, now).evidenceFollowUp == m.entries[ep.key].evidenceFollowUp
  {}

  lemma NewTells(m: Monitor, ep: Endpoint, now: int)
    requires ep.key !in m.entries
    ensures Listed(m, ep, now, Admit(m, ep, now)) && !Admit(m, ep, now).evidenceFollowUp
  {}

  /** Whether it has a follow-up for evidence is said beside it. */
  lemma ListedStill(m: Monitor, ep: Endpoint, now: int, e: Entry)
    requires Listed(m, ep, now, e)
    ensures Listed(m, ep, now, e.(evidenceFollowUp := false))
  {}

  lemma RefuseTells(m: Monitor, key: string, reason: string, now: int)
    ensures RefusedNow(key, reason, Refuse(m, key, reason, now))
  {}

  lemma ChangeTells(m: Monitor, eps: map<string, Endpoint>, refused: map<string, string>, now: int)
    requires forall k | k in eps :: eps[k].key == k
    ensures IdentityChanged(m, eps, refused, now) <==> !SameList(m, eps, refused)
  {
    if eps.Keys + refused.Keys == m.entries.Keys {
      forall k | k in eps
        ensures AdmitChanges(m, eps[k], now) <==>
                  m.entries[k].ep.outbound != eps[k].outbound
                  || (m.entries[k].st.status == Rejected && !m.entries[k].sticky)
      {
        assert k in eps.Keys + refused.Keys;
      }
      forall k | k in refused
        ensures RefuseChanges(m, k, now) <==>
                  !(m.entries[k].st.status == Rejected && !m.entries[k].sticky && m.entries[k].ep.outbound == "")
      {
        assert k in eps.Keys + refused.Keys;
      }
    }
  }

  /** After a merge there is an entry for each endpoint listed or refused, as above,
      and the evidence given so far is void exactly where the list is another one. */
  lemma MergeTells(m: Monitor, eps: map<string, Endpoint>, refused: map<string, string>, now: int)
    requires eps.Keys !! refused.Keys && forall k | k in eps :: eps[k].key == k
    ensures var r := Merge(m, eps, refused, now);
            && r.entries.Keys == eps.Keys + refused.Keys && r.restored == map[]
            && r.generation == (if SameList(m, eps, refused) then m.generation else m.generation + 1)
            && (forall k | k in eps :: Listed(m, eps[k], now, r.entries[k]))
            && (forall k | k in eps && r.entries[k].evidenceFollowUp ::
                  SameList(m, eps, refused) && m.entries[k].evidenceFollowUp)
            && forall k | k in refused :: RefusedNow(k, refused[k], r.entries[k])
  {
    hide Admit, Refuse, Listed, IdentityChanged, SameList;
    ChangeTells(m, eps, refused, now);
    forall k | k in eps
      ensures Listed(m, eps[k], now, Admit(m, eps[k], now))
      ensures Listed(m, eps[k], now, Admit(m, eps[k], now).(evidenceFollowUp := false))
      ensures Admit(m, eps[k], now).evidenceFollowUp ==> k in m.entries && m.entries[k].evidenceFollowUp
    {
      AdmitTells(m, eps[k], now);
      ListedStill(m, eps[k], now, Admit(m, eps[k], now));
    }
    forall k | k in refused ensures RefusedNow(k, refused[k], Refuse(m, k, refused[k], now)) {
      RefuseTells(m, k, refused[k], now);
    }
  }

  // ---------------------------------------------------------------- checks

  predicate Due(e: Entry, now: int) {
    && !e.inFlight && Checkable(e) && !e.pending
    && (e.urgent || e.followUp || e.evidenceFollowUp || e.st.nextAt == Never || e.st.nextAt.t <= now)
  }

  function Dispatch(m: Monitor, key: string): Monitor
    requires key in m.entries
  {
    m.(starts := m.starts + 1, entries := m.entries[key := m.entries[key].(inFlight := true, urgent := false)])
  }

  function Young(recent: seq<Outcome>, now: int): seq<Outcome> {
    if |recent| == 0 then []
    else Young(recent[..|recent| - 1], now) +
         if now - recent[|recent| - 1].at < GUARD_WINDOW then [recent[|recent| - 1]] else []
  }

  /** wanEvidence: a control or a check answered within the window. */
  predicate WANEvidence(m: Monitor, now: int) {
    || (m.controlOK.At? && now - m.controlOK.t < GUARD_WINDOW)
    || exists i | 0 <= i < |m.recent| :: m.recent[i].ok && now - m.recent[i].at < GUARD_WINDOW
  }

  /** The answers apply drops at once, and those it drops after noting that the
      endpoint is no longer under check. */
  predicate Gone(m: Monitor, exited: set<Session>, r: Result) {
    r.number == 0 || r.w.key !in m.entries || r.w.session != m.session || r.w.session == NO_SESSION
        || r.w.session in exited
  }

  predicate Stale(m: Monitor, r: Result) {
    r.w.generation != m.generation || r.w.started == 0 || m.state != OK
  }

  function OutcomeOf(r: Result, now: int): Outcome {
    Outcome(now, r.ok, r.w.key, if r.ok then "" else r.reason, r.number, r.w.generation, r.w.started)
  }

  function Landed(m: Monitor, key: string): Monitor
    requires key in m.entries
  {
    m.(entries := m.entries[key := m.entries[key].(inFlight := false)])
  }

  function Noted(m: Monitor, r: Result, now: int): Monitor
    requires r.w.key in m.entries
  {
    Landed(m, r.w.key).(recent := Young(m.recent + [OutcomeOf(r, now)], now))
  }

  function ApplySuccess(m: Monitor, r: Result, now: int, next: int): Monitor
    requires r.w.key in m.entries
  {
    var n := Noted(m, r, now);
    var e := Completed(Succeed(n.entries[r.w.key], now, r.latency, next), OutcomeOf(r, now), m.session, m.generation);
    PublishPending(n.(entries := n.entries[r.w.key := e]))
  }

  function HeldBack(m: Monitor, r: Result, now: int): Monitor
    requires r.w.key in m.entries
  {
    var n := Noted(m, r, now);
    n.(entries := n.entries[r.w.key := n.entries[r.w.key].(pending := true)],
       pending := n.pending[r.w.key := OutcomeOf(r, now)])
  }

  function ApplyFailure(m: Monitor, r: Result, now: int): Monitor
    requires r.w.key in m.entries
  {
    var h := HeldBack(m, r, now);
    if WANEvidence(h, now) then PublishPending(h) else h
  }

  /** apply, up to the question whether the WAN is up. */
  function Apply(m: Monitor, exited: set<Session>, r: Result, now: int, next: int): Monitor {
    if Gone(m, exited, r) then m
    else if Stale(m, r) then Landed(m, r.w.key)
    else if r.ok then ApplySuccess(m, r, now, next)
    else ApplyFailure(m, r, now)
  }

  function GuardUp(m: Monitor, now: int): Monitor {
    PublishPending(m.(controlOK := At(now)))
  }

  function GuardDown(m: Monitor, now: int): Monitor {
    DiscardPending(m).(recent := [], nextControl := now + CONTROL_EVERY, wanPaused := true)
  }

  /** tick's section once a control answers again: every endpoint is due. */
  function Back(m: Monitor, now: int): Monitor {
    m.(entries := map k | k in m.entries :: DueNow(m.entries[k], now),
       recent := [], controlOK := At(now), wanPaused := false)
  }

  function DueNow(e: Entry, now: int): Entry {
    if Checkable(e) then e.(st := e.st.(nextAt := At(now))) else e
  }

  // ---------------------------------------------------------------- requests and evidence

  datatype Activity = Active | NotActive | Inactive

  predicate Queueable(m: Monitor) { m.state != Stopped && m.state != Disabled }

  function Marked(m: Monitor, e: Entry, check: bool): Entry {
    if !Checkable(e) then e
    else if check then e.(followUp := true, after := m.sequence)
    else if !e.inFlight then e.(urgent := true) else e
  }

  /** queue over a set of keys; an empty request is every endpoint. */
  function Queue(m: Monitor, keys: set<string>, check: bool): Monitor {
    m.(entries := map k | k in m.entries ::
         if keys == {} || k in keys then Marked(m, m.entries[k], check) else m.entries[k])
  }

  /** The section of CheckEvidence that registers the request. */
  function Register(m: Monitor, keys: set<string>): Monitor {
    var q := Queue(m, keys, true);
    q.(entries := map k | k in q.entries ::
         if k in keys && Checkable(q.entries[k])
         then q.entries[k].(evidenceFollowUp := true, evidenceAfter := m.starts) else q.entries[k])
  }

  /** evidenceActive. */
  function ActivityOf(m: Monitor, exited: set<Session>): Activity {
    if m.state == Stopped || m.state == Disabled || !m.settings.enabled then NotActive
    else if m.closed || m.state != OK || m.wanPaused || (m.session != NO_SESSION && m.session in exited) then Inactive
    else Active
  }

  datatype Record = Record(completion: nat, revision: nat, status: Status)

  datatype Evidence = Evidence(
    state: State, endpoints: map<string, EndpointState>, session: Session, generation: nat,
    records: map<string, Record>)

  /** recordFor: restored checks and rejections of an earlier process do not count. */
  predicate Applicable(m: Monitor, e: Entry) {
    match e.st.status
    case Rejected => e.rejectedCurrent
    case Unknown => false
    case _ =>
      m.session != NO_SESSION && e.completed != 0 && e.completedSession == m.session
          && e.completedGeneration == m.generation
  }

  function RecordOf(e: Entry): Record {
    Record(e.completed, e.revision, e.st.status)
  }

  /** evidenceLocked for a set of keys. */
  function EvidenceOf(m: Monitor, exited: set<Session>, keys: set<string>): Evidence {
    if ActivityOf(m, exited) != Active then Evidence(m.state, map[], m.session, m.generation, map[])
    else Evidence(m.state, StatesOf(m, keys), m.session, m.generation, RecordsOf(m, keys))
  }

  function StatesOf(m: Monitor, keys: set<string>): map<string, EndpointState> {
    map k | k in keys && k in m.entries && Applicable(m, m.entries[k]) :: m.entries[k].st
  }

  function RecordsOf(m: Monitor, keys: set<string>): map<string, Record> {
    map k | k in keys && k in m.entries && Applicable(m, m.entries[k]) :: RecordOf(m.entries[k])
  }

  function RequestedKeys(m: Monitor, keys: set<string>): set<string> {
    if keys == {} then m.entries.Keys else keys
  }

  predicate Proves(m: Monitor, e: Evidence, key: string) {
    && key in m.entries && Applicable(m, m.entries[key])
    && key in e.records && key in e.endpoints
    && e.records[key] == RecordOf(m.entries[key]) && e.endpoints[key] == m.entries[key].st
  }

  /** ValidateEvidence answers nil. */
  predicate Validates(m: Monitor, exited: set<Session>, e: Evidence, keys: set<string>) {
    && ActivityOf(m, exited) == Active
    && e.state == m.state && e.generation == m.generation && e.session == m.session
    && RequestedKeys(m, keys) != {}
    && forall k | k in RequestedKeys(m, keys) :: Proves(m, e, k)
  }

  /** CheckEvidence may return: every key is rejected, or has a check both
      started and completed after the call. */
  predicate Answered(m: Monitor, keys: set<string>, after: nat, afterStart: nat) {
    forall k | k in keys ::
      && k in m.entries && Applicable(m, m.entries[k])
      && (m.entries[k].st.status != Rejected ==>
            m.entries[k].completed > after && m.entries[k].completedStart > afterStart)
  }

  // What the steps do, from the entries themselves.

  /** Only the entries have changed, and these are still there. */
  ghost predicate OnlyEntries(m: Monitor, r: Monitor) {
    r == m.(entries := r.entries) && r.entries.Keys == m.entries.Keys
  }

  /** A request marks each endpoint it names, or all of them: a check that is to come
      after now, or one at once where none is under way. */
  lemma QueueTells(m: Monitor, keys: set<string>, check: bool)
    ensures var q := Queue(m, keys, check);
            && OnlyEntries(m, q)
            && forall k | k in m.entries ::
                 var e := m.entries[k];
                 q.entries[k] ==
                   if e.st.status == Rejected || (keys != {} && k !in keys) then e
                   else if check then e.(followUp := true, after := m.sequence)
                   else e.(urgent := e.urgent || !e.inFlight)
  {}

  /** A request for evidence asks besides for a check started after now. */
  lemma RegisterTells(m: Monitor, keys: set<string>)
    requires keys != {}
    ensures var q := Register(m, keys);
            && OnlyEntries(m, q)
            && forall k | k in m.entries ::
                 var e := m.entries[k];
                 q.entries[k] ==
                   if e.st.status == Rejected || k !in keys then e
                   else e.(followUp := true, after := m.sequence, evidenceFollowUp := true, evidenceAfter := m.starts)
  {}

  /** A rejection of this process sticks, ends what is asked for or under way, and
      voids evidence if the endpoint could be checked. */
  lemma RejectTells(m: Monitor, key: string, reason: string, now: int)
    requires key in m.entries
    ensures var r := RejectKey(m, key, reason, now);
            var e := r.entries[key];
            && e.st.status == Rejected && e.st.error == reason && e.st.nextAt == Never && e.pause == 0 && e.sticky
            && e.rejectedCurrent && e.ep == m.entries[key].ep
            && !e.inFlight && !e.pending && !e.urgent && !e.followUp && !e.evidenceFollowUp
            && r.generation == m.generation + (if m.entries[key].st.status != Rejected then 1 else 0)
            && forall k | k in m.entries && k != key ::
                 r.entries[k].(evidenceFollowUp := false) == m.entries[k].(evidenceFollowUp := false)
  {}

  /** Rejections of earlier processes are taken back, and void evidence. */
  lemma ReassessTells(m: Monitor, order: set<string>, now: int)
    ensures var r := Reassess(m, order, now);
            && (forall k | k in m.entries ::
                  var e := m.entries[k];
                  if k in order && e.st.status == Rejected && !e.rejectedCurrent
                  then StartsAnew(r.entries[k].st, now) && r.entries[k].pause == 0 && !r.entries[k].sticky
                       && r.entries[k].revision == e.revision + 1 && r.generation == m.generation + 1
                  else r.entries[k].(evidenceFollowUp := false) == e.(evidenceFollowUp := false))
            && (r.generation != m.generation ==> exists k ::
                  k in order && k in m.entries && m.entries[k].st.status == Rejected && !m.entries[k].rejectedCurrent)
  {
    hide ReassessedEntry, StartsAnew;
    forall k | k in m.entries
      ensures var e, f := m.entries[k], ReassessedEntry(m.entries[k], now);
              if Reassessed(e) then StartsAnew(f.st, now) && f.pause == 0 && !f.sticky && f.revision == e.revision + 1
              else f == e
    {
      ReassessedIs(m.entries[k], now);
    }
  }

  lemma ReassessedIs(e: Entry, now: int)
    ensures var f := ReassessedEntry(e, now);
            if Reassessed(e) then StartsAnew(f.st, now) && f.pause == 0 && !f.sticky && f.revision == e.revision + 1
            else f == e
  {}

  /** Without its session the monitor has nothing under way or held back, and no
      evidence given so far stands. */
  lemma StopTells(m: Monitor)
    requires m.session != NO_SESSION
    ensures var r := StopSession(m);
            && r.session == NO_SESSION && r.recent == [] && r.pending == map[] && r.generation == m.generation + 1
            && forall k | k in m.entries ::
                 k in r.entries
                 && r.entries[k] == m.entries[k].(inFlight := false, pending := false, evidenceFollowUp := false)
  {}

  /** The entry after a failure that is counted: twice the pause, up to the limit. */
  ghost predicate CountsFailure(s: Settings, e: Entry, o: Outcome, f: Entry) {
    var last := if e.pause == 0 then s.interval else e.pause;
    && f.st.status == Dead && f.st.fails == e.st.fails + 1 && f.st.latency == e.st.latency
    && f.st.error == o.reason && f.st.checkedAt == At(o.at) && f.st.nextAt == At(o.at + f.pause)
    && f.pause == (if 2 * last < s.deadMax then 2 * last else s.deadMax)
    && f.st.since == (if e.st.status == Dead then e.st.since else At(o.at))
    && !f.pending
  }

  /** The check with this outcome is the entry's latest, and has answered what was
      asked for before it completed, or before it started. */
  ghost predicate Resolved(m: Monitor, e: Entry, o: Outcome, f: Entry) {
    && f.completed == o.number && f.completedSession == m.session
    && f.completedGeneration == o.generation && f.completedStart == o.started
    && (f.followUp <==> e.followUp && o.number <= e.after)
    && (f.evidenceFollowUp <==> e.evidenceFollowUp && (o.generation != m.generation || o.started <= e.evidenceAfter))
  }

  /** A success: alive and due at the next time, unless a failure of its own was held
      back, and every failure held back is counted. */
  lemma SuccessTells(m: Monitor, exited: set<Session>, r: Result, now: int, next: int)
    requires r.number > 0 && r.w.key in m.entries && r.w.session == m.session != NO_SESSION && m.session !in exited
    requires r.w.generation == m.generation && r.w.started > 0 && m.state == OK && r.ok
    ensures var a := Apply(m, exited, r, now, next);
            var e, f := m.entries[r.w.key], a.entries[r.w.key];
            && a.pending == map[] && a.generation == m.generation
            && (!(r.w.key in m.pending && e.pending) ==>
                  && f.st == EndpointState(Alive, r.latency, At(now), 0, "", At(next),
                                           if e.st.status == Alive then e.st.since else At(now))
                  && f.pause == 0 && !f.inFlight && Resolved(m, e, OutcomeOf(r, now), f))
            && forall k | k in m.entries && k != r.w.key ::
                 if k in m.pending && m.entries[k].pending && m.entries[k].st.status != Rejected
                 then CountsFailure(m.settings, m.entries[k], m.pending[k], a.entries[k])
                      && Resolved(m, m.entries[k], m.pending[k], a.entries[k])
                 else a.entries[k] == m.entries[k]
  {
    hide Young;
  }

  /** A failure: counted if something answered within the window, and else held back
      with the entry as it was. */
  lemma FailureTells(m: Monitor, exited: set<Session>, r: Result, now: int, next: int)
    requires r.number > 0 && r.w.key in m.entries && r.w.session == m.session != NO_SESSION && m.session !in exited
    requires r.w.generation == m.generation && r.w.started > 0 && m.state == OK && !r.ok
    requires m.entries[r.w.key].st.status != Rejected
    ensures var a := Apply(m, exited, r, now, next);
            var e, f := m.entries[r.w.key], a.entries[r.w.key];
            var answered := (m.controlOK.At? && now - m.controlOK.t < GUARD_WINDOW)
                || exists i | 0 <= i < |m.recent| :: m.recent[i].ok && now - m.recent[i].at < GUARD_WINDOW;
            if answered
            then a.pending == map[] && !f.inFlight && CountsFailure(m.settings, e, OutcomeOf(r, now), f)
                 && Resolved(m, e, OutcomeOf(r, now), f)
            else && a.pending == m.pending[r.w.key := OutcomeOf(r, now)]
                 && a.entries == m.entries[r.w.key := e.(inFlight := false, pending := true)]
  {
    HeldAnswers(m, r, now);
    FailureIs(m, exited, r, now, next);
    HeldIs(m, r, now);
    hide Apply, ApplyFailure, HeldBack, PublishPending, WANEvidence;
    HeldCounts(m, HeldBack(m, r, now), r.w.key, OutcomeOf(r, now));
  }

  lemma FailureIs(m: Monitor, exited: set<Session>, r: Result, now: int, next: int)
    requires !Gone(m, exited, r) && !Stale(m, r) && !r.ok
    ensures var h := HeldBack(m, r, now);
            Apply(m, exited, r, now, next) == if WANEvidence(h, now) then PublishPending(h) else h
  {
    hide HeldBack, PublishPending, WANEvidence;
  }

  lemma HeldIs(m: Monitor, r: Result, now: int)
    requires r.w.key in m.entries
    ensures var h := HeldBack(m, r, now);
            h == m.(entries := m.entries[r.w.key := m.entries[r.w.key].(inFlight := false, pending := true)],
                    pending := m.pending[r.w.key := OutcomeOf(r, now)], recent := h.recent)
  {
    hide Young;
  }

  /** A failure that has just been held back, and then counted. */
  lemma HeldCounts(m: Monitor, h: Monitor, key: string, o: Outcome)
    requires key in m.entries && m.entries[key].st.status != Rejected
    requires h == m.(entries := m.entries[key := m.entries[key].(inFlight := false, pending := true)],
                     pending := m.pending[key := o], recent := h.recent)
    ensures var a := PublishPending(h);
            var e, f := m.entries[key], a.entries[key];
            a.pending == map[] && !f.inFlight && CountsFailure(m.settings, e, o, f) && Resolved(m, e, o, f)
  {}

  lemma HeldAnswers(m: Monitor, r: Result, now: int)
    requires r.w.key in m.entries && !r.ok
    ensures WANEvidence(HeldBack(m, r, now), now) <==>
              || (m.controlOK.At? && now - m.controlOK.t < GUARD_WINDOW)
              || exists i | 0 <= i < |m.recent| :: m.recent[i].ok && now - m.recent[i].at < GUARD_WINDOW
  {
    var all := m.recent + [OutcomeOf(r, now)];
    var kept := Young(all, now);
    forall o ensures o in kept <==> o in all && now - o.at < GUARD_WINDOW { YoungMember(all, now, o); }
    hide Young;
    assert HeldBack(m, r, now).recent == kept;
    if i :| 0 <= i < |kept| && kept[i].ok {
      assert kept[i] in all;
      var j :| 0 <= j < |all| && all[j] == kept[i];
      assert m.recent[j] == kept[i];
    }
    if i :| 0 <= i < |m.recent| && m.recent[i].ok && now - m.recent[i].at < GUARD_WINDOW {
      assert all[i] in kept;
      var j :| 0 <= j < |kept| && kept[j] == m.recent[i];
    }
  }

  lemma {:induction false} YoungMember(recent: seq<Outcome>, now: int, o: Outcome)
    ensures o in Young(recent, now) <==> o in recent && now - o.at < GUARD_WINDOW
  {
    if |recent| > 0 {
      YoungMember(recent[..|recent| - 1], now, o);
      assert recent == recent[..|recent| - 1] + [recent[|recent| - 1]];
    }
  }

  // What evidence says, from the entries themselves.

  /** The checks are on, their state is OK and the session is alive, with the WAN up. */
  ghost predicate Answering(m: Monitor, exited: set<Session>) {
    && m.settings.enabled && m.state == OK && !m.closed && !m.wanPaused
    && (m.session != NO_SESSION ==> m.session !in exited)
  }

  /** An endpoint this process has refused, or one checked in this session and epoch. */
  ghost predicate Proved(m: Monitor, key: string) {
    && key in m.entries
    && var e := m.entries[key];
       || (e.st.status == Rejected && e.rejectedCurrent)
       || (e.st.status in {Alive, Dead} && e.completed > 0
           && m.session != NO_SESSION && e.completedSession == m.session && e.completedGeneration == m.generation)
  }

  /** The key was taken, and proved then as it is now: no check, no rejection and no
      other status since. */
  ghost predicate StillProved(a: Monitor, b: Monitor, taken: set<string>, k: string) {
    && k in taken && Proved(a, k) && Proved(b, k) && b.entries[k].st == a.entries[k].st
    && b.entries[k].completed == a.entries[k].completed && b.entries[k].revision == a.entries[k].revision
  }

  /** Evidence taken of one state validates in another exactly if the monitor answers
      in both, in one epoch, and each key asked for, which is every endpoint if none
      is, was among those taken and is proved in both with nothing between them. */
  lemma EvidenceStands(a: Monitor, exitedA: set<Session>, b: Monitor, exitedB: set<Session>, taken: set<string>,
                       keys: set<string>)
    ensures var asked := if keys == {} then b.entries.Keys else keys;
            Validates(b, exitedB, EvidenceOf(a, exitedA, taken), keys) <==>
              && Answering(a, exitedA) && Answering(b, exitedB)
              && b.generation == a.generation && b.session == a.session && asked != {}
              && forall k | k in asked :: StillProved(a, b, taken, k)
  {
    hide Proved, Proves, Answering, ActivityOf, Applicable;
    AnsweringIs(a, exitedA);
    AnsweringIs(b, exitedB);
    var e := EvidenceOf(a, exitedA, taken);
    var asked := if keys == {} then b.entries.Keys else keys;
    assert asked == RequestedKeys(b, keys);
    if ActivityOf(a, exitedA) == Active {
      forall k | k in asked ensures Proves(b, e, k) <==> StillProved(a, b, taken, k) {
        ProvesIs(a, exitedA, b, taken, k);
      }
      hide StillProved, EvidenceOf;
    } else {
      forall k | k in asked ensures !Proves(b, e, k) { NothingProves(a, exitedA, b, taken, k); }
    }
  }

  lemma ProvesIs(a: Monitor, exited: set<Session>, b: Monitor, taken: set<string>, k: string)
    requires ActivityOf(a, exited) == Active
    ensures Proves(b, EvidenceOf(a, exited, taken), k) <==> StillProved(a, b, taken, k)
  {
    hide ActivityOf;
    assert k in a.entries ==> (Proved(a, k) <==> Applicable(a, a.entries[k]));
    assert k in b.entries ==> (Proved(b, k) <==> Applicable(b, b.entries[k]));
    hide Applicable;
  }

  lemma NothingProves(a: Monitor, exited: set<Session>, b: Monitor, taken: set<string>, k: string)
    requires ActivityOf(a, exited) != Active
    ensures !Proves(b, EvidenceOf(a, exited, taken), k)
  {}

  lemma AnsweringIs(m: Monitor, exited: set<Session>)
    ensures Answering(m, exited) <==> ActivityOf(m, exited) == Active
    ensures Answering(m, exited) ==> m.state == OK
  {}
}
