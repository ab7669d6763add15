/** The monitor of server/internal/monitor as the object it is. */
module MonitorObject {
  // Fields its sections change in place, each section proved to make of them what
  // the function in module MonitorState makes of their value.

  import opened MonitorState
  import opened Sets

  /** An endpoint's record, whose methods assign its fields. */
  class EntryObject {
    var ep: Endpoint
    var st: EndpointState
    var pause: int
    var sticky: bool
    var inFlight: bool
    var pending: bool
    var revision: nat
    var rejectedCurrent: bool
    var followUp: bool
    var evidenceFollowUp: bool
    var urgent: bool
    const rest: Entry   // the fields none of the methods below touches

    function View(): Entry
      reads this
    {
      rest.(ep := ep, st := st, pause := pause, sticky := sticky, inFlight := inFlight, pending := pending,
            revision := revision, rejectedCurrent := rejectedCurrent, followUp := followUp,
            evidenceFollowUp := evidenceFollowUp, urgent := urgent)
    }

    constructor (e: Entry)
      ensures View() == e
    {
      ep, st, pause, sticky := e.ep, e.st, e.pause, e.sticky;
      inFlight, pending, revision, rejectedCurrent := e.inFlight, e.pending, e.revision, e.rejectedCurrent;
      followUp, evidenceFollowUp, urgent, rest := e.followUp, e.evidenceFollowUp, e.urgent, e;
    }

    /** succeed reports whether the status changed. */
    method Succeed(now: int, latency: int, next: int) returns (changed: bool)
      modifies this`revision, this`st, this`pause
      ensures View() == MonitorState.Succeed(old(View()), now, latency, next)
      ensures changed <==> old(st).status != st.status
    {
      revision := revision + 1;
      changed := st.status != Alive;
      if changed {
        st := st.(since := At(now));
      }
      st := st.(status := Alive, latency := latency, checkedAt := At(now), fails := 0, error := "");
      pause := 0;
      st := st.(nextAt := At(next));
    }

    /** fail doubles the pause up to the limit; it reports whether the status changed. */
    method Fail(now: int, reason: string, s: Settings) returns (changed: bool)
      modifies this`revision, this`st, this`pause
      ensures View() == MonitorState.Fail(old(View()), now, reason, s)
      ensures changed <==> old(st).status != st.status
    {
      revision := revision + 1;
      changed := st.status != Dead;
      if changed {
        st := st.(since := At(now));
      }
      st := st.(status := Dead, checkedAt := At(now), fails := st.fails + 1, error := reason);
      if pause == 0 {
        pause := s.interval;
      }
      if pause > s.deadMax / 2 {
        pause := s.deadMax;
      } else {
        pause := 2 * pause;
      }
      st := st.(nextAt := At(now + pause));
    }

    method Reject(now: int, reason: string, isSticky: bool)
      modifies this
      ensures View() == MonitorState.Reject(old(View()), now, reason, isSticky)
    {
      var before, wasSticky := st, sticky;
      if st.status != Rejected {
        st := st.(since := At(now));
      }
      st := st.(status := Rejected, error := reason, nextAt := Never);
      pause, sticky := 0, isSticky;
      inFlight, pending, urgent, followUp, evidenceFollowUp := false, false, false, false, false;
      if before != st || wasSticky != isSticky || !rejectedCurrent {
        revision := revision + 1;
      }
      rejectedCurrent := true;
    }
  }

  /** After n failures in a row the pause is 2^n intervals, up to the limit. */
  lemma {:induction false} PauseDoubles(n: nat, s: Settings)
    requires n > 0 && 0 < s.interval && 2 * s.interval <= s.deadMax
    ensures PauseAfter(n, s) == if Power(n) * s.interval <= s.deadMax then Power(n) * s.interval else s.deadMax
  {
    if n > 1 {
      PauseDoubles(n - 1, s);
      var p := Power(n - 1) * s.interval;
      assert Power(n) * s.interval == 2 * p;
      assert p > 0 by { PowerPositive(n - 1, s.interval); }
    }
  }

  /** A check counted for an endpoint; after a success the next one is due at `next`. */
  datatype Check = Check(ok: bool, at: int, latency: int, reason: string, next: int)

  function After(e: Entry, checks: seq<Check>, s: Settings): Entry {
    if |checks| == 0 then e
    else
      var was := After(e, checks[..|checks| - 1], s);
      var c := checks[|checks| - 1];
      if c.ok then MonitorState.Succeed(was, c.at, c.latency, c.next) else MonitorState.Fail(was, c.at, c.reason, s)
  }

  ghost predicate FailedLast(checks: seq<Check>, k: nat) {
    && k <= |checks| && (forall i | |checks| - k <= i < |checks| :: !checks[i].ok)
    && (k < |checks| ==> checks[|checks| - 1 - k].ok)
  }

  /** What an endpoint shows after any checks, the last k of which failed: the
      count is k, the pause that of k failures, dead since the first of them, with
      the latency of the success before them. */
  lemma {:induction false} StatusTells(e: Entry, checks: seq<Check>, s: Settings, k: nat)
    requires e.st.status == Unknown && e.st.fails == 0 && e.pause == 0 && FailedLast(checks, k)
    ensures var x := After(e, checks, s);
            && x.st.fails == k && x.pause == PauseAfter(k, s) && x.revision == e.revision + |checks|
            && x.st.status == (if k > 0 then Dead else if |checks| > 0 then Alive else Unknown)
            && (k > 0 ==> x.st.since == At(checks[|checks| - k].at)
                          && x.st.nextAt == At(checks[|checks| - 1].at + PauseAfter(k, s))
                          && x.st.error == checks[|checks| - 1].reason)
            && (k < |checks| ==> x.st.latency == checks[|checks| - 1 - k].latency)
  {
    if |checks| > 0 {
      var before := checks[..|checks| - 1];
      if k > 0 {
        StatusTells(e, before, s, k - 1);
      } else {
        var j := FailuresAtEnd(before);
        StatusTells(e, before, s, j);
      }
    }
  }

  lemma {:induction false} FailuresAtEnd(checks: seq<Check>) returns (k: nat)
    ensures FailedLast(checks, k)
  {
    if |checks| == 0 || checks[|checks| - 1].ok {
      k := 0;
    } else {
      var before := checks[..|checks| - 1];
      k := FailuresAtEnd(before);
      k := k + 1;
    }
  }

  function Power(n: nat): nat { if n == 0 then 1 else 2 * Power(n - 1) }

  function PauseAfter(n: nat, s: Settings): int { if n == 0 then 0 else NextPause(PauseAfter(n - 1, s), s) }

  lemma {:induction false} PowerPositive(n: nat, x: int)
    requires x > 0
    ensures Power(n) * x > 0
  {
    if n > 0 {
      PowerPositive(n - 1, x);
      assert Power(n) * x == 2 * (Power(n - 1) * x);
    }
  }

  // ---------------------------------------------------------------- loops over the entries

  /** A loop that replaces every entry, in any order. */
  method ForEach(entries: map<string, Entry>, f: (string, Entry) -> Entry) returns (r: map<string, Entry>)
    ensures r == map k | k in entries :: f(k, entries[k])
  {
    r := entries;
    var left: set<string> := entries.Keys;
    while left != {}
      invariant left <= entries.Keys
      invariant r == map k | k in entries :: if k in left then entries[k] else f(k, entries[k])
      decreases |left|
    {
      InhabitedStrings(left);
      var k :| k in left;
      r := r[k := f(k, entries[k])];
      left := left - {k};
    }
  }

  /** How many entries the prober holds. */
  method CountCheckable(entries: map<string, Entry>) returns (n: nat)
    ensures n == |CheckableKeys(entries)|
  {
    n := 0;
    var left: set<string> := entries.Keys;
    ghost var counted: set<string> := {};
    while left != {}
      invariant left <= entries.Keys && n == |counted|
      invariant counted == set k | k in entries && k !in left && Checkable(entries[k])
      decreases |left|
    {
      InhabitedStrings(left);
      var k :| k in left;
      if Checkable(entries[k]) {
        n := n + 1;
        counted := counted + {k};
      }
      left := left - {k};
    }
    assert counted == CheckableKeys(entries);
  }

  function CheckableKeys(entries: map<string, Entry>): set<string> {
    set k | k in entries && Checkable(entries[k])
  }

  method PruneRecent(recent: seq<Outcome>, now: int) returns (kept: seq<Outcome>)
    ensures kept == Young(recent, now)
  {
    kept := [];
    for i := 0 to |recent|
      invariant kept == Young(recent[..i], now)
    {
      assert recent[..i + 1][..i] == recent[..i];
      if now - recent[i].at < GUARD_WINDOW {
        kept := kept + [recent[i]];
      }
    }
    assert recent[..|recent|] == recent;
  }

  /** publishPending's loop over the failures held back. */
  method PublishLoop(m: MonitorState.Monitor) returns (entries: map<string, Entry>)
    ensures entries == MonitorState.PublishPending(m).entries
  {
    hide PublishedEntry;
    entries := m.entries;
    var left: set<string> := m.pending.Keys;
    while left != {}
      invariant left <= m.pending.Keys
      invariant entries == map k | k in m.entries :: if k in m.pending && k !in left then PublishedEntry(m, k)
                else m.entries[k]
      decreases |left|
    {
      InhabitedStrings(left);
      var k :| k in left;
      if k in entries {
        PublishedIs(m, k);
        var e, o := entries[k], m.pending[k];
        if Checkable(e) && e.pending {
          var failed := Fail(e, o.at, o.reason, m.settings).(pending := false);
          entries := entries[k := Completed(failed, o, m.session, m.generation)];
        } else {
          assert entries[k := PublishedEntry(m, k)] == entries;
        }
      }
      left := left - {k};
    }
    forall k | k in m.entries && k !in m.pending ensures PublishedEntry(m, k) == m.entries[k] {
      PublishedIs(m, k);
    }
  }

  lemma PublishedIs(m: MonitorState.Monitor, k: string)
    requires k in m.entries
    ensures PublishedEntry(m, k) ==
              if k in m.pending && Checkable(m.entries[k]) && m.entries[k].pending
              then Completed(Fail(m.entries[k], m.pending[k].at, m.pending[k].reason, m.settings).(pending := false),
                             m.pending[k], m.session, m.generation)
              else m.entries[k]
  {}

  // ---------------------------------------------------------------- merge

  /** One endpoint to a key, as the generator lists them. */
  ghost predicate OnceEach(eps: seq<Endpoint>) {
    forall i, j | 0 <= i < j < |eps| :: eps[i].key != eps[j].key
  }

  function ByKey(eps: seq<Endpoint>): map<string, Endpoint> {
    if |eps| == 0 then map[] else ByKey(eps[..|eps| - 1])[eps[|eps| - 1].key := eps[|eps| - 1]]
  }

  function KeysOf(eps: seq<Endpoint>): seq<string> {
    seq(|eps|, i requires 0 <= i < |eps| => eps[i].key)
  }

  lemma {:induction false} ByKeyHas(eps: seq<Endpoint>, k: string)
    requires OnceEach(eps)
    ensures k in ByKey(eps) <==> k in KeysOf(eps)
    ensures forall i | 0 <= i < |eps| && eps[i].key == k :: k in ByKey(eps) && ByKey(eps)[k] == eps[i]
  {
    if |eps| > 0 {
      var n := |eps| - 1;
      ByKeyHas(eps[..n], k);
      assert KeysOf(eps) == KeysOf(eps[..n]) + [eps[n].key];
    }
  }

  lemma ByKeyNext(eps: seq<Endpoint>, i: nat)
    requires i < |eps| && OnceEach(eps)
    ensures ByKey(eps[..i + 1]) == ByKey(eps[..i])[eps[i].key := eps[i]] && eps[i].key !in ByKey(eps[..i])
    ensures KeysOf(eps[..i + 1]) == KeysOf(eps[..i]) + [eps[i].key]
  {
    assert eps[..i + 1][..i] == eps[..i];
    ByKeyHas(eps[..i], eps[i].key);
  }

  /** The first loop of merge: the endpoints the generator lists. */
  method MergeListed(m: MonitorState.Monitor, now: int, eps: seq<Endpoint>)
    returns (next: map<string, Entry>, order: seq<string>, identityChanged: bool)
    requires OnceEach(eps)
    ensures next == MergedEntries(m, ByKey(eps), map[], now) && order == KeysOf(eps)
    ensures identityChanged <==> AnyAdmitted(m, ByKey(eps), now)
  {
    hide Admit, AdmitChanges, ByKey, KeysOf, MergedEntries;
    next, order, identityChanged := map[], [], false;
    assert next == MergedEntries(m, ByKey(eps[..0]), map[], now) && order == KeysOf(eps[..0])
        && ByKey(eps[..0]) == map[] by {
      NothingMerged(m, eps, now);
    }
    for i := 0 to |eps|
      invariant next == MergedEntries(m, ByKey(eps[..i]), map[], now) && order == KeysOf(eps[..i])
      invariant identityChanged <==> AnyAdmitted(m, ByKey(eps[..i]), now)
    {
      var ep := eps[i];
      ByKeyNext(eps, i);
      var e, changed := AdmitOne(m, ep, now);
      identityChanged := identityChanged || changed;
      ListedNext(m, ByKey(eps[..i]), ep, now);
      next := next[ep.key := e];
      order := order + [ep.key];
    }
    assert eps[..|eps|] == eps;
  }

  lemma NothingMerged(m: MonitorState.Monitor, eps: seq<Endpoint>, now: int)
    ensures ByKey(eps[..0]) == map[] && KeysOf(eps[..0]) == [] && MergedEntries(m, map[], map[], now) == map[]
  {}

  lemma ListedNext(m: MonitorState.Monitor, done: map<string, Endpoint>, ep: Endpoint, now: int)
    requires ep.key !in done
    ensures MergedEntries(m, done[ep.key := ep], map[], now)
            == MergedEntries(m, done, map[], now)[ep.key := Admit(m, ep, now)]
    ensures AnyAdmitted(m, done[ep.key := ep], now) <==> AdmitChanges(m, ep, now) || AnyAdmitted(m, done, now)
  {
    hide Admit, AdmitChanges;
    var more := done[ep.key := ep];
    assert more[ep.key] == ep;
    forall k | k in done ensures more[k] == done[k] {}
  }

  method AdmitOne(m: MonitorState.Monitor, ep: Endpoint, now: int) returns (e: Entry, changed: bool)
    ensures e == Admit(m, ep, now) && (changed <==> AdmitChanges(m, ep, now))
  {
    e := EntryFor(m, ep.key, now);
    changed := ep.key !in m.entries;
    if e.ep.outbound != ep.outbound {
      changed := true;
      e := e.(rejectedCurrent := false);
    }
    e := e.(ep := ep);
    if e.st.status == Rejected && !e.sticky {
      e := e.(st := NewState(now), revision := e.revision + 1, rejectedCurrent := false);
      changed := true;
    }
  }

  /** The second loop of merge: the endpoints the generator refuses. */
  method MergeRefused(m: MonitorState.Monitor, now: int, eps: map<string, Endpoint>, refused: map<string, string>,
                      listed: map<string, Entry>)
    returns (next: map<string, Entry>, identityChanged: bool)
    requires listed == MergedEntries(m, eps, map[], now) && eps.Keys !! refused.Keys
    ensures next == MergedEntries(m, eps, refused, now)
    ensures identityChanged <==> exists k :: k in refused && RefuseChanges(m, k, now)
  {
    hide Refuse, RefuseChanges, MergedEntries, Admit;
    next, identityChanged := listed, false;
    var left: set<string> := refused.Keys;
    ghost var done: map<string, string> := map[];
    while left != {}
      invariant left <= refused.Keys && done == map k | k in refused && k !in left :: refused[k]
      invariant next == MergedEntries(m, eps, done, now)
      invariant identityChanged <==> exists k :: k in refused && k !in left && RefuseChanges(m, k, now)
      decreases |left|
    {
      InhabitedStrings(left);
      var k :| k in left;
      var e, changed := RefuseOne(m, k, refused[k], now);
      RefusedNext(m, eps, done, k, refused[k], now);
      identityChanged := identityChanged || changed;
      next := next[k := e];
      left := left - {k};
      done := done[k := refused[k]];
    }
    assert done == refused;
  }

  lemma RefusedNext(m: MonitorState.Monitor, eps: map<string, Endpoint>, done: map<string, string>, k: string,
                    reason: string, now: int)
    requires k !in eps && k !in done
    ensures MergedEntries(m, eps, done[k := reason], now)
            == MergedEntries(m, eps, done, now)[k := Refuse(m, k, reason, now)]
  {
    hide Admit, Refuse;
  }

  method RefuseOne(m: MonitorState.Monitor, k: string, reason: string, now: int) returns (e: Entry, changed: bool)
    ensures e == Refuse(m, k, reason, now) && (changed <==> RefuseChanges(m, k, now))
  {
    e := EntryFor(m, k, now);
    changed := k !in m.entries || Checkable(e) || e.sticky || e.ep.outbound != "";
    e := Reject(e.(ep := Endpoint(k, "")), now, reason, false);
  }

  // ---------------------------------------------------------------- evidence

  method EvidenceRecords(m: MonitorState.Monitor, exited: set<Session>, keys: set<string>) returns (e: Evidence)
    ensures e == EvidenceOf(m, exited, keys)
  {
    hide Applicable, RecordOf, StatesOf, RecordsOf;
    if ActivityOf(m, exited) != Active { return Evidence(m.state, map[], m.session, m.generation, map[]); }
    var states, records := map[], map[];
    var left := keys;
    NoEvidence(m);
    assert keys - left == {};
    while left != {}
      invariant left <= keys && states == StatesOf(m, keys - left) && records == RecordsOf(m, keys - left)
      decreases |left|
    {
      InhabitedStrings(left);
      var k :| k in left;
      MoreEvidence(m, keys - left, k);
      if k in m.entries && Applicable(m, m.entries[k]) {
        states, records := states[k := m.entries[k].st], records[k := RecordOf(m.entries[k])];
      }
      assert keys - (left - {k}) == keys - left + {k};
      left := left - {k};
    }
    assert keys - {} == keys;
    e := Evidence(m.state, states, m.session, m.generation, records);
  }

  lemma NoEvidence(m: MonitorState.Monitor)
    ensures StatesOf(m, {}) == map[] && RecordsOf(m, {}) == map[]
  {}

  lemma MoreEvidence(m: MonitorState.Monitor, done: set<string>, k: string)
    ensures StatesOf(m, done + {k}) ==
              if k in m.entries && Applicable(m, m.entries[k]) then StatesOf(m, done)[k := m.entries[k].st]
                  else StatesOf(m, done)
    ensures RecordsOf(m, done + {k}) ==
              if k in m.entries && Applicable(m, m.entries[k]) then RecordsOf(m, done)[k := RecordOf(m.entries[k])]
                  else RecordsOf(m, done)
  {
    hide Applicable, RecordOf;
  }

  /** The loop of ValidateEvidence. */
  method AllProved(m: MonitorState.Monitor, e: Evidence, keys: set<string>) returns (ok: bool)
    ensures ok <==> forall k | k in keys :: Proves(m, e, k)
  {
    hide Proves;
    var left := keys;
    while left != {}
      invariant left <= keys && forall k | k in keys && k !in left :: Proves(m, e, k)
      decreases |left|
    {
      InhabitedStrings(left);
      var k :| k in left;
      if !Proves(m, e, k) { return false; }
      left := left - {k};
    }
    return true;
  }

  /** The loop of CheckEvidence that decides whether it may answer. */
  method AllAnswered(m: MonitorState.Monitor, keys: set<string>, after: nat, afterStart: nat) returns (done: bool)
    ensures done <==> Answered(m, keys, after, afterStart)
  {
    hide Applicable;
    done := true;
    var left := keys;
    while left != {}
      invariant left <= keys && (done <==> Answered(m, keys - left, after, afterStart))
      decreases |left|
    {
      InhabitedStrings(left);
      var k :| k in left;
      if k !in m.entries || !Applicable(m, m.entries[k]) {
        done := false;
      } else if m.entries[k].st.status != Rejected &&
                (m.entries[k].completed <= after || m.entries[k].completedStart <= afterStart) {
        done := false;
      }
      AnsweredNext(m, keys - left, k, after, afterStart);
      assert keys - (left - {k}) == keys - left + {k};
      left := left - {k};
    }
    assert keys - {} == keys;
  }

  lemma AnsweredNext(m: MonitorState.Monitor, done: set<string>, k: string, after: nat, afterStart: nat)
    ensures Answered(m, done + {k}, after, afterStart) <==>
              Answered(m, done, after, afterStart) && Answered(m, {k}, after, afterStart)
  {
    hide Applicable;
  }

  // ---------------------------------------------------------------- dispatch

  predicate Urgent(e: Entry) { e.urgent || e.followUp || e.evidenceFollowUp }

  function DueAt(e: Entry): int { if e.st.nextAt == Never then 0 else e.st.nextAt.t }

  /** Urgent checks go first, then the longest due, then Build order. */
  predicate Precedes(m: MonitorState.Monitor, pos: map<string, nat>, a: string, b: string)
    requires a in m.entries && b in m.entries
  {
    var x, y := m.entries[a], m.entries[b];
    if Urgent(x) != Urgent(y) then Urgent(x)
    else if DueAt(x) != DueAt(y) then DueAt(x) < DueAt(y)
    else PosOf(pos, a) < PosOf(pos, b)
  }

  function PosOf(pos: map<string, nat>, key: string): nat { if key in pos then pos[key] else 0 }

  function DueKeys(m: MonitorState.Monitor, now: int): set<string> {
    set k | k in m.entries && Due(m.entries[k], now)
  }

  function Busy(m: MonitorState.Monitor): set<string> {
    set k | k in m.entries && m.entries[k].inFlight
  }

  /** No key of `after` goes before one of `sorted`, and sorted is in order. */
  ghost predicate InOrder(m: MonitorState.Monitor, pos: map<string, nat>, sorted: seq<string>) {
    && (forall k | k in sorted :: k in m.entries)
    && forall i, j | 0 <= i < j < |sorted| :: !Precedes(m, pos, sorted[j], sorted[i])
  }

  ghost predicate Distinct(s: seq<string>) {
    forall i, j | 0 <= i < j < |s| :: s[i] != s[j]
  }

  method CollectDue(m: MonitorState.Monitor, pos: map<string, nat>, now: int) returns (due: seq<string>, busy: nat)
    ensures busy == |Busy(m)|
    ensures Distinct(due) && InOrder(m, pos, due) && forall k :: k in due <==> k in DueKeys(m, now)
  {
    hide Due, Precedes, InOrder, Distinct;
    due, busy := [], 0;
    var left: set<string> := m.entries.Keys;
    ghost var found: set<string> := {};
    NoneInOrder(m, pos);
    while left != {}
      invariant left <= m.entries.Keys
      invariant found == (set k | k in m.entries && k !in left && m.entries[k].inFlight) && busy == |found|
      invariant Distinct(due) && InOrder(m, pos, due)
      invariant forall k :: k in due <==> k in m.entries && k !in left && Due(m.entries[k], now)
      decreases |left|
    {
      InhabitedStrings(left);
      var k :| k in left;
      if m.entries[k].inFlight {
        busy := busy + 1;
        found := found + {k};
        FlyingIsNotDue(m.entries[k], now);
      } else if Due(m.entries[k], now) {
        due := InsertDue(m, pos, due, k);
      }
      left := left - {k};
    }
    assert found == Busy(m);
  }

  lemma NoneInOrder(m: MonitorState.Monitor, pos: map<string, nat>)
    ensures InOrder(m, pos, []) && Distinct([])
  {}

  lemma FlyingIsNotDue(e: Entry, now: int)
    requires e.inFlight
    ensures !Due(e, now)
  {}

  /** One step of the sort. */
  method InsertDue(m: MonitorState.Monitor, pos: map<string, nat>, due: seq<string>, k: string) returns (r: seq<string>)
    requires k in m.entries && k !in due && Distinct(due) && InOrder(m, pos, due)
    ensures Distinct(r) && InOrder(m, pos, r) && forall x :: x in r <==> x == k || x in due
  {
    hide Precedes;
    var i := 0;
    while i < |due| && !Precedes(m, pos, k, due[i])
      invariant i <= |due| && forall j | 0 <= j < i :: !Precedes(m, pos, k, due[j])
    {
      i := i + 1;
    }
    r := due[..i] + [k] + due[i..];
    InsertedInOrder(m, pos, due, k, i);
    InsertedOnce(due, k, i);
  }

  lemma PrecedesOrders(m: MonitorState.Monitor, pos: map<string, nat>, a: string, b: string, c: string)
    requires a in m.entries && b in m.entries && c in m.entries
    ensures Precedes(m, pos, a, b) && !Precedes(m, pos, c, b) ==> !Precedes(m, pos, c, a)
  {}

  lemma InsertedInOrder(m: MonitorState.Monitor, pos: map<string, nat>, due: seq<string>, k: string, i: nat)
    requires k in m.entries && InOrder(m, pos, due) && i <= |due|
    requires forall j | 0 <= j < i :: !Precedes(m, pos, k, due[j])
    requires i < |due| ==> Precedes(m, pos, k, due[i])
    ensures InOrder(m, pos, due[..i] + [k] + due[i..])
  {
    hide Precedes;
    var r := due[..i] + [k] + due[i..];
    forall x | 0 <= x < |r| ensures r[x] == (if x < i then due[x] else if x == i then k else due[x - 1])
        && r[x] in m.entries {}
    forall x, y | 0 <= x < y < |r| ensures !Precedes(m, pos, r[y], r[x]) {
      if x == i {
        if y > i + 1 { assert !Precedes(m, pos, due[y - 1], due[i]); }
        PrecedesOrders(m, pos, k, due[i], r[y]);
        NeverBoth(m, pos, k, due[i]);
      }
    }
  }

  lemma NeverBoth(m: MonitorState.Monitor, pos: map<string, nat>, a: string, b: string)
    requires a in m.entries && b in m.entries
    ensures Precedes(m, pos, a, b) ==> !Precedes(m, pos, b, a)
  {}

  lemma InsertedOnce(due: seq<string>, k: string, i: nat)
    requires k !in due && Distinct(due) && i <= |due|
    ensures var r := due[..i] + [k] + due[i..]; Distinct(r) && forall x :: x in r <==> x == k || x in due
  {
    var r := due[..i] + [k] + due[i..];
    forall x | 0 <= x < |r| ensures r[x] == if x < i then due[x] else if x == i then k else due[x - 1] {}
    forall x ensures x in r <==> x == k || x in due {
      if x in due {
        var j :| 0 <= j < |due| && due[j] == x;
        assert r[if j < i then j else j + 1] == x;
      }
    }
  }

  // What the order means, from the entries themselves.

  /** The check of a goes before that of b, or with it: one asked for before one that
      is not, then the one due longest, then the first in Build order. */
  ghost predicate NotAfter(a: Entry, b: Entry, posA: nat, posB: nat) {
    var askedA, askedB := a.urgent || a.followUp || a.evidenceFollowUp, b.urgent || b.followUp || b.evidenceFollowUp;
    var dueA, dueB := if a.st.nextAt.At? then a.st.nextAt.t else 0, if b.st.nextAt.At? then b.st.nextAt.t else 0;
    && (askedB ==> askedA)
    && (askedA == askedB ==> dueA <= dueB)
    && (askedA == askedB && dueA == dueB ==> posA <= posB)
  }

  ghost predicate InTurn(entries: map<string, Entry>, pos: map<string, nat>, line: seq<string>) {
    && (forall k | k in line :: k in entries)
    && forall i, j | 0 <= i < j < |line| ::
         NotAfter(entries[line[i]], entries[line[j]], PosOf(pos, line[i]), PosOf(pos, line[j]))
  }

  /** A check may run: not under way or held back, not rejected, and asked for or due. */
  ghost predicate MayRun(e: Entry, now: int) {
    && !e.inFlight && !e.pending && e.st.status != Rejected
    && (e.urgent || e.followUp || e.evidenceFollowUp || !e.st.nextAt.At? || e.st.nextAt.t <= now)
  }

  lemma OrderTells(m: MonitorState.Monitor, pos: map<string, nat>, line: seq<string>)
    requires InOrder(m, pos, line)
    ensures InTurn(m.entries, pos, line)
  {
    forall i, j | 0 <= i < j < |line|
      ensures NotAfter(m.entries[line[i]], m.entries[line[j]], PosOf(pos, line[i]), PosOf(pos, line[j]))
    {
      assert !Precedes(m, pos, line[j], line[i]);
    }
  }

  lemma DueTells(m: MonitorState.Monitor, now: int)
    ensures forall k :: k in DueKeys(m, now) <==> k in m.entries && MayRun(m.entries[k], now)
  {}

  /** Checks handed out one after another. */
  function DispatchAll(m: MonitorState.Monitor, keys: seq<string>): MonitorState.Monitor
    requires forall k | k in keys :: k in m.entries
    ensures DispatchAll(m, keys).entries.Keys == m.entries.Keys
  {
    if |keys| == 0 then m
    else
      assert forall k | k in keys[..|keys| - 1] :: k in keys;
      Dispatch(DispatchAll(m, keys[..|keys| - 1]), keys[|keys| - 1])
  }

  lemma {:induction false} DispatchTells(m: MonitorState.Monitor, keys: seq<string>)
    requires forall k | k in keys :: k in m.entries
    ensures var d := DispatchAll(m, keys);
            && d.starts == m.starts + |keys|
            && forall k | k in m.entries ::
                 d.entries[k] == if k in keys then m.entries[k].(inFlight := true, urgent := false) else m.entries[k]
  {
    if |keys| > 0 {
      var before, last := keys[..|keys| - 1], keys[|keys| - 1];
      assert keys == before + [last];
      DispatchTells(m, before);
    }
  }

  lemma DispatchNext(m: MonitorState.Monitor, keys: seq<string>, i: nat)
    requires i < |keys| && forall k | k in keys :: k in m.entries
    ensures (forall k | k in keys[..i] :: k in m.entries) && (forall k | k in keys[..i + 1] :: k in m.entries)
    ensures DispatchAll(m, keys[..i + 1]) == Dispatch(DispatchAll(m, keys[..i]), keys[i])
  {
    assert keys[..i + 1][..i] == keys[..i];
    assert forall k | k in keys[..i + 1] :: k in keys;
  }

  // ---------------------------------------------------------------- small laws

  /** The guard's question is due. */
  ghost predicate AllFailing(m: MonitorState.Monitor, now: int) {
    var checkable := |CheckableKeys(m.entries)|;
    var need := if GUARD_MIN < checkable then GUARD_MIN else checkable;
    && need > 0 && |m.recent| >= need
    && !(m.controlOK.At? && now - m.controlOK.t < GUARD_WINDOW)
    && forall i | 0 <= i < |m.recent| :: !m.recent[i].ok
  }

  lemma NotGone(m: MonitorState.Monitor, exited: set<Session>, r: Result)
    requires !Gone(m, exited, r)
    ensures r.w.key in m.entries
  {}

  lemma NotStale(m: MonitorState.Monitor, r: Result)
    requires !Stale(m, r)
    ensures m.state == OK
  {}

  lemma StaleLanded(m: MonitorState.Monitor, r: Result)
    requires r.w.key in m.entries
    ensures Stale(Landed(m, r.w.key), r) <==> Stale(m, r)
  {}

  lemma PublishedEvidence(m: MonitorState.Monitor, now: int)
    ensures MonitorState.WANEvidence(MonitorState.PublishPending(m), now) <==> MonitorState.WANEvidence(m, now)
  {
    hide PublishedEntry;
  }

  lemma {:induction false} YoungAgain(recent: seq<Outcome>, now: int)
    ensures Young(Young(recent, now), now) == Young(recent, now)
  {
    if |recent| > 0 {
      YoungAgain(recent[..|recent| - 1], now);
      var y := Young(recent[..|recent| - 1], now);
      var last := recent[|recent| - 1];
      if now - last.at < GUARD_WINDOW {
        assert Young(recent, now) == y + [last];
        assert (y + [last])[..|y|] == y;
      } else {
        assert Young(recent, now) == y + [] == y;
      }
    }
  }

  function SetOf(order: seq<string>): set<string> {
    set k | k in order
  }

  method ReassessLoop(was: map<string, Entry>, order: seq<string>, now: int)
    returns (entries: map<string, Entry>, changed: bool)
    ensures entries == map k | k in was :: if k in SetOf(order) then ReassessedEntry(was[k], now) else was[k]
    ensures changed <==> exists k :: k in SetOf(order) && k in was && Reassessed(was[k])
  {
    hide ReassessedEntry, Reassessed;
    entries, changed := was, false;
    ghost var done: set<string> := {};
    for i := 0 to |order|
      invariant done == set j | 0 <= j < i :: order[j]
      invariant entries == map k | k in was :: if k in done then ReassessedEntry(was[k], now) else was[k]
      invariant changed <==> exists k :: k in done && k in was && Reassessed(was[k])
    {
      var k := order[i];
      if k in entries {
        ReassessTwice(was[k], now);
        if Reassessed(entries[k]) {
          changed := true;
          entries := entries[k := ReassessedEntry(entries[k], now)];
        } else {
          assert entries[k := ReassessedEntry(entries[k], now)] == entries;
        }
      }
      done := done + {k};
    }
    assert done == SetOf(order);
  }

  lemma ReassessTwice(e: Entry, now: int)
    ensures !Reassessed(ReassessedEntry(e, now))
    ensures !Reassessed(e) ==> ReassessedEntry(e, now) == e
    ensures ReassessedEntry(ReassessedEntry(e, now), now) == ReassessedEntry(e, now)
  {}

  /** Both loops of merge. */
  method MergeLists(m: MonitorState.Monitor, now: int, eps: seq<Endpoint>, refused: map<string, string>)
    returns (next: map<string, Entry>, order: seq<string>, identityChanged: bool)
    requires OnceEach(eps) && ByKey(eps).Keys !! refused.Keys
    ensures next == MergedEntries(m, ByKey(eps), refused, now) && order == KeysOf(eps)
    ensures identityChanged <==> IdentityChanged(m, ByKey(eps), refused, now)
  {
    hide MergedEntries, ByKey, KeysOf, AnyAdmitted, RefuseChanges, OnceEach;
    var listed, admitted, changed;
    listed, order, admitted := MergeListed(m, now, eps);
    next, changed := MergeRefused(m, now, ByKey(eps), refused, listed);
    MergedKeys(m, ByKey(eps), refused, now);
    identityChanged := admitted || changed || next.Keys != m.entries.Keys;
  }

  lemma MergedKeys(m: MonitorState.Monitor, eps: map<string, Endpoint>, refused: map<string, string>, now: int)
    ensures MergedEntries(m, eps, refused, now).Keys == eps.Keys + refused.Keys
  {
    hide Admit, Refuse;
  }

  /** How CheckEvidence takes a request. */
  datatype Admission = Registered | Refused(activity: Activity) | Cancelled | NothingAsked

  /** How many entries a list of keys names that can be checked, one named twice twice. */
  function Marks(entries: map<string, Entry>, keys: seq<string>): nat {
    if |keys| == 0 then 0
    else
      var k := keys[|keys| - 1];
      Marks(entries, keys[..|keys| - 1]) + if k in entries && Checkable(entries[k]) then 1 else 0
  }

  function MarkedBy(m: MonitorState.Monitor, keys: seq<string>, check: bool): map<string, Entry> {
    map k | k in m.entries :: if k in keys then Marked(m, m.entries[k], check) else m.entries[k]
  }

  /** Marking an entry again changes nothing. */
  lemma MarkedTwice(m: MonitorState.Monitor, e: Entry, check: bool)
    ensures Marked(m, Marked(m, e, check), check) == Marked(m, e, check)
    ensures Checkable(Marked(m, e, check)) <==> Checkable(e)
  {}

  lemma MarkNext(m: MonitorState.Monitor, keys: seq<string>, i: nat, check: bool)
    requires i < |keys|
    ensures var was, k := MarkedBy(m, keys[..i], check), keys[i];
            && MarkedBy(m, keys[..i + 1], check) == (if k in was then was[k := Marked(m, was[k], check)] else was)
            && Marks(m.entries, keys[..i + 1])
               == Marks(m.entries, keys[..i]) + (if k in was && Checkable(was[k]) then 1 else 0)
  {
    hide Marked;
    assert keys[..i + 1] == keys[..i] + [keys[i]];
    assert keys[..i + 1][..i] == keys[..i];
    if keys[i] in m.entries { MarkedTwice(m, m.entries[keys[i]], check); }
  }

  /** The loop of queue over a list of keys. */
  method MarkListed(m: MonitorState.Monitor, keys: seq<string>, check: bool)
    returns (entries: map<string, Entry>, n: nat)
    ensures entries == MarkedBy(m, keys, check) && n == Marks(m.entries, keys)
  {
    hide Marked;
    entries, n := m.entries, 0;
    assert entries == MarkedBy(m, [], check);
    for i := 0 to |keys|
      invariant entries == MarkedBy(m, keys[..i], check) && n == Marks(m.entries, keys[..i])
    {
      MarkNext(m, keys, i, check);
      var k := keys[i];
      if k in entries {
        if Checkable(entries[k]) {
          n := n + 1;
        }
        entries := entries[k := Marked(m, entries[k], check)];
      }
    }
    assert keys[..|keys|] == keys;
  }

  lemma OneMoreKey(keys: seq<string>, k: string)
    ensures SetOf(keys + [k]) == SetOf(keys) + {k}
    ensures Distinct(keys) && k !in keys ==> Distinct(keys + [k])
  {}

  /** Each key's place in the order. */
  function Positions(order: seq<string>, n: nat): map<string, nat>
    requires n <= |order|
  {
    if n == 0 then map[] else Positions(order, n - 1)[order[n - 1] := n - 1]
  }

  method PositionsOf(order: seq<string>) returns (pos: map<string, nat>)
    ensures pos == Positions(order, |order|)
  {
    pos := map[];
    for i := 0 to |order|
      invariant pos == Positions(order, i)
    {
      pos := pos[order[i] := i];
    }
  }

  lemma DueIsEntry(m: MonitorState.Monitor, now: int, k: string)
    requires k in DueKeys(m, now)
    ensures k in m.entries
  {
    hide Due;
  }

  // ---------------------------------------------------------------- the object

  class Monitor {
    var settings: Settings
    var state: State
    var message: string          // what a snapshot shows with the state
    var entries: map<string, Entry>
    var order: seq<string>
    var pos: map<string, nat>
    var session: Session
    var restored: map<string, SavedEntry>
    var sequence: nat
    var starts: nat
    var generation: nat
    var closed: bool
    var pending: map<string, Outcome>
    var recent: seq<Outcome>
    var controlOK: Time
    var nextControl: int
    var wanPaused: bool

    function View(): MonitorState.Monitor
      reads this
    {
      MonitorState.Monitor(settings, state, entries, session, restored, sequence, starts, generation, closed,
                           pending, recent, controlOK, nextControl, wanPaused)
    }

    constructor (settings: Settings, restored: map<string, SavedEntry>)
      ensures View() == MonitorState.Monitor(settings, OK, map[], NO_SESSION, restored, 0, 0, 1, false, map[], [],
                                             Never, 0, false)
      ensures order == [] && pos == map[]
    {
      this.settings, this.restored := settings, restored;
      state, entries, order, pos, session := OK, map[], [], map[], NO_SESSION;
      sequence, starts, generation, closed := 0, 0, 1, false;
      pending, recent, controlOK, nextControl, wanPaused := map[], [], Never, 0, false;
    }

    method InvalidateEvidence()
      modifies this`generation, this`entries
      ensures View() == MonitorState.Invalidate(old(View()))
    {
      generation := generation + 1;
      entries := ForEach(entries, (k: string, e: Entry) => e.(evidenceFollowUp := false));
    }

    method DiscardPending()
      modifies this`pending, this`entries
      ensures View() == MonitorState.DiscardPending(old(View()))
    {
      entries := ForEach(entries, (k: string, e: Entry) => e.(pending := false));
      pending := map[];
    }

    method PublishPending()
      modifies this`pending, this`entries
      ensures View() == MonitorState.PublishPending(old(View()))
    {
      hide PublishedEntry;
      entries := PublishLoop(View());
      pending := map[];
    }

    /** setState: a new message alone ends no epoch. */
    method SetState(next: State, text: string)
      modifies this`state, this`message, this`generation, this`entries
      ensures View() == MonitorState.SetState(old(View()), next) && message == text
    {
      hide MonitorState.Invalidate;
      if state == next && message == text { return; }
      var stateChanged := state != next;
      state, message := next, text;
      if stateChanged {
        InvalidateEvidence();
      }
    }

    method StopSession()
      modifies this`session, this`entries, this`pending, this`recent, this`generation
      ensures View() == MonitorState.StopSession(old(View()))
    {
      hide MonitorState.Invalidate, MonitorState.DiscardPending;
      if session == NO_SESSION { return; }
      ghost var m := View();
      entries := ForEach(entries, (k: string, e: Entry) => e.(inFlight := false));
      assert View() == AllLanded(m);
      hide AllLanded;
      DiscardPending();
      session, recent := NO_SESSION, [];
      InvalidateEvidence();
    }

    /** The section of ensureSession that takes a session that started. */
    method StartSession(started: Session)
      modifies this`session, this`generation, this`entries
      ensures View() == MonitorState.StartSession(old(View()), started)
    {
      hide MonitorState.Invalidate;
      session := started;
      InvalidateEvidence();
    }

    method RejectKey(key: string, reason: string, now: int)
      modifies this`generation, this`entries
      ensures View() == MonitorState.RejectKey(old(View()), key, reason, now)
    {
      hide MonitorState.Invalidate, Reject;
      if key !in entries { return; }
      var wasCheckable := Checkable(entries[key]);
      entries := entries[key := Reject(entries[key], now, reason, true)];
      if wasCheckable {
        InvalidateEvidence();
      }
    }

    method ReassessRejected(now: int)
      modifies this`generation, this`entries
      ensures View() == MonitorState.Reassess(old(View()), SetOf(order), now)
    {
      hide MonitorState.Invalidate, Reassessed, ReassessedEntry, SetOf;
      ghost var m := View();
      var kept, changed := ReassessLoop(entries, order, now);
      entries := kept;
      if changed {
        InvalidateEvidence();
      }
    }

    /** merge of a new endpoint list. */
    method Merge(now: int, eps: seq<Endpoint>, refused: map<string, string>)
      requires OnceEach(eps) && ByKey(eps).Keys !! refused.Keys
      modifies this`entries, this`order, this`pos, this`restored, this`generation
      ensures View() == MonitorState.Merge(old(View()), ByKey(eps), refused, now)
      ensures order == KeysOf(eps) && pos == Positions(order, |order|)
    {
      hide MonitorState.Invalidate, MergedEntries, IdentityChanged, ByKey, KeysOf, OnceEach, Positions;
      var next, keys, identityChanged := MergeLists(View(), now, eps, refused);
      pos := PositionsOf(keys);
      entries, order, restored := next, keys, map[];
      if identityChanged {
        InvalidateEvidence();
      }
    }

    // -------------------------------------------------------------- checks

    method WANEvidence(now: int) returns (up: bool)
      ensures up <==> MonitorState.WANEvidence(View(), now)
    {
      if controlOK.At? && now - controlOK.t < GUARD_WINDOW { return true; }
      for i := 0 to |recent|
        invariant forall j | 0 <= j < i :: !(recent[j].ok && now - recent[j].at < GUARD_WINDOW)
      {
        if recent[i].ok && now - recent[i].at < GUARD_WINDOW { return true; }
      }
      return false;
    }

    /** guardDue: enough checks completed within the window, all failed, and no
        control answered within it. */
    method GuardDue(now: int) returns (due: bool)
      modifies this`recent
      ensures View() == old(View()).(recent := Young(old(recent), now))
      ensures due <==> AllFailing(View(), now)
    {
      hide Young, CheckableKeys;
      recent := PruneRecent(recent, now);
      var checkable := CountCheckable(entries);
      var need := if GUARD_MIN < checkable then GUARD_MIN else checkable;
      if need == 0 || |recent| < need || (controlOK.At? && now - controlOK.t < GUARD_WINDOW) { return false; }
      for i := 0 to |recent|
        invariant forall j | 0 <= j < i :: !recent[j].ok
      {
        if recent[i].ok { return false; }
      }
      return true;
    }

    /** apply: counts the answer, or holds a failure back until there is proof
        that the WAN works; it says whether to ask whether the WAN is up. */
    method Apply(r: Result, exited: set<Session>, now: int, next: int) returns (trip: bool)
      modifies this`entries, this`recent, this`pending
      ensures View() == MonitorState.Apply(old(View()), exited, r, now, next)
      ensures trip ==> state == OK && !r.ok && !MonitorState.WANEvidence(View(), now) && AllFailing(View(), now)
      ensures (!Gone(old(View()), exited, r) && !Stale(old(View()), r) && !r.ok
               && !MonitorState.WANEvidence(View(), now) && AllFailing(View(), now)) ==> trip
    {
      hide Gone, Stale, AllFailing, MonitorState.WANEvidence, MonitorState.PublishPending, Succeed, Completed, Young,
           OutcomeOf;
      ghost var m := View();
      trip := false;
      if Gone(View(), exited, r) { return; }
      NotGone(m, exited, r);
      entries := entries[r.w.key := entries[r.w.key].(inFlight := false)];
      StaleLanded(m, r);
      if Stale(View(), r) { return; }
      var o := OutcomeOf(r, now);
      recent := PruneRecent(recent + [o], now);
      assert View() == Noted(m, r, now);
      if r.ok {
        var e := Succeed(entries[r.w.key], now, r.latency, next);
        entries := entries[r.w.key := Completed(e, o, session, generation)];
        PublishPending();
        return;
      }
      entries := entries[r.w.key := entries[r.w.key].(pending := true)];
      pending := pending[r.w.key := o];
      ghost var h := View();
      assert h == HeldBack(m, r, now);
      var up := WANEvidence(now);
      if up {
        PublishPending();
        PublishedEvidence(h, now);
      } else {
        trip := GuardDue(now);
        YoungAgain(m.recent + [o], now);
        NotStale(m, r);
      }
    }

    /** guard's section once the control addresses have been dialed. */
    method Guard(up: bool, now: int)
      modifies this`controlOK, this`entries, this`pending, this`recent, this`nextControl, this`wanPaused
      ensures View() == if up then GuardUp(old(View()), now) else GuardDown(old(View()), now)
    {
      hide MonitorState.PublishPending, MonitorState.DiscardPending;
      if up {
        controlOK := At(now);
        PublishPending();
        return;
      }
      DiscardPending();
      recent, nextControl, wanPaused := [], now + CONTROL_EVERY, true;
    }

    /** tick's section when a control answers again. */
    method Back(now: int)
      modifies this`controlOK, this`entries, this`recent, this`wanPaused
      ensures View() == MonitorState.Back(old(View()), now)
    {
      hide DueNow;
      entries := ForEach(entries, (k: string, e: Entry) => DueNow(e, now));
      recent, controlOK, wanPaused := [], At(now), false;
    }

    /** finish: numbers a completed check. */
    method Finish(w: Work, ok: bool, reason: string, latency: int, now: int) returns (r: Result)
      modifies this`sequence
      ensures View() == old(View()).(sequence := old(sequence) + 1)
      ensures r == Result(w, ok, reason, latency, sequence, now)
    {
      sequence := sequence + 1;
      r := Result(w, ok, reason, latency, sequence, now);
    }

    /** dispatch hands the first of the due checks to the free workers: as many
        as there are, and none while one that goes before it waits. The lag is how
        long the first that waits has been due. */
    method Dispatch(now: int) returns (started: seq<string>, lag: int, ghost waiting: seq<string>)
      modifies this`entries, this`starts
      ensures Distinct(started + waiting) && InTurn(old(entries), pos, started + waiting)
      ensures forall k :: k in started + waiting <==> k in old(entries) && MayRun(old(entries)[k], now)
      ensures starts == old(starts) + |started| && entries.Keys == old(entries).Keys
      ensures forall k | k in entries ::
                entries[k] == if k in started then old(entries)[k].(inFlight := true, urgent := false)
                              else old(entries)[k]
      ensures |Busy(old(View()))| + |started| <= settings.concurrency || started == []
      ensures waiting != [] ==> |Busy(old(View()))| + |started| >= settings.concurrency
      ensures forall k | k in waiting :: k in old(entries)
      ensures lag == if waiting == [] || Urgent(old(entries)[waiting[0]]) then 0
              else now - DueAt(old(entries)[waiting[0]])
    {
      hide InOrder, DueKeys, Busy, Distinct, Due, DispatchAll, InTurn, MayRun;
      ghost var m := View();
      DueTells(m, now);
      var due, busy := CollectDue(View(), pos, now);
      var free := if busy < settings.concurrency then settings.concurrency - busy else 0;
      var n := if free < |due| then free else |due|;
      started, waiting := due[..n], due[n..];
      assert due == started + waiting;
      forall k | k in started + waiting ensures k in entries { assert k in due; DueIsEntry(m, now, k); }
      lag := 0;
      if n < |due| {
        assert waiting[0] == due[n] && due[n] in started + waiting;
        var first := entries[due[n]];
        if !Urgent(first) {
          lag := now - DueAt(first);
        }
      }
      OrderTells(m, pos, due);
      DispatchTells(m, started);
      HandOut(started);
    }

    /** Each check goes to a worker, with the next number. */
    method HandOut(keys: seq<string>)
      requires forall k | k in keys :: k in entries
      modifies this`entries, this`starts
      ensures View() == DispatchAll(old(View()), keys)
    {
      ghost var m := View();
      for i := 0 to |keys|
        invariant forall k | k in keys :: k in m.entries
        invariant forall k | k in keys[..i] :: k in m.entries
        invariant View() == DispatchAll(m, keys[..i])
      {
        DispatchNext(m, keys, i);
        entries := entries[keys[i] := entries[keys[i]].(inFlight := true, urgent := false)];
        starts := starts + 1;
      }
      assert keys[..|keys|] == keys;
    }

    // -------------------------------------------------------------- requests and evidence

    /** queue: refuses where nothing is checked, else marks what the list names, or
        everything, and says how much it marked. */
    method Queue(keys: seq<string>, check: bool) returns (ok: bool, n: nat)
      modifies this`entries
      ensures ok <==> Queueable(old(View()))
      ensures View() == if ok then MonitorState.Queue(old(View()), SetOf(keys), check) else old(View())
      ensures n == if !ok then 0 else if keys == [] then |CheckableKeys(old(entries))| else Marks(old(entries), keys)
    {
      hide Marked;
      if state == Stopped || state == Disabled { return false, 0; }
      var m := View();
      ok, n := true, 0;
      if |keys| == 0 {
        n := CountCheckable(entries);
        entries := ForEach(entries, (k: string, e: Entry) => Marked(m, e, check));
        return;
      }
      assert keys[0] in SetOf(keys);
      entries, n := MarkListed(m, keys, check);
    }

    /** evidenceKeys: each key once; no key at all asks for every endpoint. */
    method EvidenceKeys(keys: seq<string>) returns (out: seq<string>)
      ensures SetOf(out) == RequestedKeys(View(), SetOf(keys)) && Distinct(out)
    {
      out := [];
      if |keys| == 0 {
        var left: set<string> := entries.Keys;
        while left != {}
          invariant left <= entries.Keys && SetOf(out) == entries.Keys - left && Distinct(out)
          decreases |left|
        {
          InhabitedStrings(left);
          var k :| k in left;
          OneMoreKey(out, k);
          out := out + [k];
          left := left - {k};
        }
        return;
      }
      assert keys[0] in SetOf(keys);
      for i := 0 to |keys|
        invariant SetOf(out) == SetOf(keys[..i]) && Distinct(out)
      {
        assert keys[..i + 1] == keys[..i] + [keys[i]];
        OneMoreKey(keys[..i], keys[i]);
        OneMoreKey(out, keys[i]);
        if keys[i] !in out {
          out := out + [keys[i]];
        }
      }
      assert keys[..|keys|] == keys;
    }

    /** CheckEvidence up to its wait: what there is, and whether the request is
        registered. */
    method Register(keys: seq<string>, exited: set<Session>, cancelled: bool) returns (e: Evidence, r: Admission)
      modifies this`entries
      ensures e == EvidenceOf(old(View()), exited, RequestedKeys(old(View()), SetOf(keys)))
      ensures r == if ActivityOf(old(View()), exited) != Active then Refused(ActivityOf(old(View()), exited))
                   else if cancelled then Cancelled
                   else if RequestedKeys(old(View()), SetOf(keys)) == {} then NothingAsked else Registered
      ensures View() == if r == Registered
                        then MonitorState.Register(old(View()), RequestedKeys(old(View()), SetOf(keys)))
                        else old(View())
    {
      hide Marked, EvidenceOf, RequestedKeys;
      var requested := EvidenceKeys(keys);
      var afterStart := starts;
      e := EvidenceRecords(View(), exited, SetOf(requested));
      var activity := ActivityOf(View(), exited);
      if activity != Active { return e, Refused(activity); }
      if cancelled { return e, Cancelled; }
      if |requested| == 0 { return e, NothingAsked; }
      assert requested[0] in SetOf(requested);
      var ok, n := Queue(requested, true);
      MarkEvidence(requested, afterStart);
      r := Registered;
    }

    /** The loop of CheckEvidence over the keys it registers. */
    method MarkEvidence(keys: seq<string>, afterStart: nat)
      modifies this`entries
      ensures View() == old(View()).(entries := map k | k in old(entries) ::
                if k in SetOf(keys) && Checkable(old(entries)[k])
                then old(entries)[k].(evidenceFollowUp := true, evidenceAfter := afterStart) else old(entries)[k])
    {
      entries := ForEach(entries, (k: string, e: Entry) =>
        if k in keys && Checkable(e) then e.(evidenceFollowUp := true, evidenceAfter := afterStart) else e);
    }

    method TakeEvidence(exited: set<Session>, keys: set<string>) returns (e: Evidence)
      ensures e == EvidenceOf(View(), exited, keys)
    {
      e := EvidenceRecords(View(), exited, keys);
    }

    method ValidateEvidence(e: Evidence, keys: set<string>, exited: set<Session>) returns (ok: bool)
      ensures ok <==> Validates(View(), exited, e, keys)
    {
      if ActivityOf(View(), exited) != Active { return false; }
      if e.state != state || e.generation != generation || e.session != session { return false; }
      var requested := RequestedKeys(View(), keys);
      if requested == {} { return false; }
      ok := AllProved(View(), e, requested);
    }
  }
}
