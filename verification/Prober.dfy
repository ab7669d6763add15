/** The prober's session. */
module Prober {
  // The search for an outbound Xray refuses, and the loop that starts a session
  // without those it refused. What Xray answers is a parameter: any function of the
  // number of the call and of the endpoints.

  import opened MonitorState
  import O = MonitorObject

  const MAX_REFUSALS: nat := 20

  /** Xray's test of a set: it accepts it, refuses the configuration, or fails otherwise. */
  datatype Answer = Accepts | Refuses | Fails

  datatype Verdict = NoneBad | Bad(key: string) | TestFailed

  /** Rounds of halving down to one: the logarithm to base 2, rounded up. */
  function Halvings(n: nat): nat {
    if n <= 1 then 0 else 1 + Halvings((n + 1) / 2)
  }

  lemma {:induction false} HalvingsIsLog(n: nat, k: nat)
    ensures Halvings(n) <= k <==> n <= O.Power(k)
  {
    if n > 1 {
      if k > 0 {
        HalvingsIsLog((n + 1) / 2, k - 1);
      } else {
        assert Halvings(n) >= 1;
      }
    } else {
      O.PowerPositive(k, 1);
    }
  }

  lemma {:induction false} HalvingsGrow(a: nat, b: nat)
    requires a <= b
    ensures Halvings(a) <= Halvings(b)
  {
    if a > 1 { HalvingsGrow((a + 1) / 2, (b + 1) / 2); }
  }

  ghost predicate HasBad(eps: seq<Endpoint>, bad: set<string>) {
    exists i :: 0 <= i < |eps| && eps[i].key in bad
  }

  /** Xray refuses a set exactly if it holds an endpoint of `bad`. */
  ghost predicate Honest(ask: (nat, seq<Endpoint>) -> Answer, bad: set<string>) {
    forall i: nat, s: seq<Endpoint> :: ask(i, s) == if HasBad(s, bad) then Refuses else Accepts
  }

  /** bisect: whatever Xray answers, a key it returns was refused alone, by the
      last test; and where a set is refused exactly for a bad endpoint in it,
      every refused set yields one, within log2 of its size and two more tests. */
  method Bisect(endpoints: seq<Endpoint>, ask: (nat, seq<Endpoint>) -> Answer) returns (r: Verdict, calls: nat)
    requires |endpoints| > 0
    ensures 1 <= calls <= Halvings(|endpoints|) + 2
    ensures r.Bad? ==> exists e :: e in endpoints && e.key == r.key && ask(calls - 1, [e]) == Refuses
    ensures r.NoneBad? && calls == 1 ==> ask(0, endpoints) == Accepts
    ensures ask(0, endpoints) == Accepts ==> r.NoneBad? && calls == 1
    ensures forall bad | Honest(ask, bad) :: if HasBad(endpoints, bad) then r.Bad? && r.key in bad else r.NoneBad?
  {
    var s := endpoints;
    calls := 1;
    match ask(0, s) {
      case Fails => return TestFailed, calls;
      case Accepts => return NoneBad, calls;
      case Refuses =>
    }
    ghost var from: nat := 0;
    assert endpoints[0..|endpoints|] == endpoints;
    while |s| > 1
      invariant |s| > 0 && from + |s| <= |endpoints| && s == endpoints[from..from + |s|]
      invariant 1 <= calls && calls + Halvings(|s|) <= Halvings(|endpoints|) + 1
      invariant forall bad | Honest(ask, bad) && HasBad(endpoints, bad) :: HasBad(s, bad)
      decreases |s|
    {
      var half := s[..|s| / 2];
      var answer := ask(calls, half);
      HalvesHaveBad(s, |s| / 2);
      HalvingsGrow(|s| / 2, (|s| + 1) / 2);
      calls := calls + 1;
      match answer {
        case Fails => return TestFailed, calls;
        case Refuses => s := half;
        case Accepts =>
          from := from + |s| / 2;
          s := s[|s| / 2..];
      }
    }
    assert s == [s[0]] && s[0] == endpoints[from];
    var answer := ask(calls, s);
    calls := calls + 1;
    match answer {
      case Fails => return TestFailed, calls;
      case Accepts => return NoneBad, calls;
      case Refuses => return Bad(s[0].key), calls;
    }
  }

  lemma HalvesHaveBad(s: seq<Endpoint>, n: nat)
    requires n <= |s|
    ensures forall bad :: HasBad(s, bad) <==> HasBad(s[..n], bad) || HasBad(s[n..], bad)
  {
    forall bad ensures HasBad(s, bad) <==> HasBad(s[..n], bad) || HasBad(s[n..], bad) {
      if HasBad(s, bad) {
        var i :| 0 <= i < |s| && s[i].key in bad;
        if i < n { assert s[..n][i] == s[i]; } else { assert s[n..][i - n] == s[i]; }
      }
    }
  }

  // ---------------------------------------------------------------- the checkable set

  /** Every record is filed under its endpoint's key. */
  ghost predicate Filed(entries: map<string, Entry>) {
    forall k | k in entries :: entries[k].ep.key == k
  }

  /** checkableSet: what the prober should hold, in Build order. */
  function CheckableSet(order: seq<string>, entries: map<string, Entry>): seq<Endpoint> {
    if |order| == 0 then []
    else
      var k := order[|order| - 1];
      CheckableSet(order[..|order| - 1], entries) +
      if k in entries && Checkable(entries[k]) then [entries[k].ep] else []
  }

  method CollectCheckable(order: seq<string>, entries: map<string, Entry>) returns (s: seq<Endpoint>)
    ensures s == CheckableSet(order, entries)
  {
    s := [];
    for i := 0 to |order|
      invariant s == CheckableSet(order[..i], entries)
    {
      assert order[..i + 1][..i] == order[..i];
      var k := order[i];
      if k in entries && Checkable(entries[k]) {
        s := s + [entries[k].ep];
      }
    }
    assert order[..|order|] == order;
  }

  function Without(s: seq<Endpoint>, key: string): seq<Endpoint> {
    if |s| == 0 then []
    else Without(s[..|s| - 1], key) + if s[|s| - 1].key != key then [s[|s| - 1]] else []
  }

  method Leave(s: seq<Endpoint>, key: string) returns (r: seq<Endpoint>)
    ensures r == Without(s, key)
  {
    r := [];
    for i := 0 to |s|
      invariant r == Without(s[..i], key)
    {
      assert s[..i + 1][..i] == s[..i];
      if s[i].key != key {
        r := r + [s[i]];
      }
    }
    assert s[..|s|] == s;
  }

  lemma {:induction false} WithoutMember(s: seq<Endpoint>, key: string)
    ensures |Without(s, key)| <= |s|
    ensures |Without(s, key)| == |s| <==> forall i | 0 <= i < |s| :: s[i].key != key
  {
    if |s| > 0 {
      var n := |s| - 1;
      WithoutMember(s[..n], key);
      assert forall i | 0 <= i < n :: s[..n][i] == s[i];
    }
  }

  /** A record that can still be checked is one that differs in nothing the
      checkable set reads. */
  ghost predicate SameChecks(a: map<string, Entry>, b: map<string, Entry>) {
    && a.Keys == b.Keys
    && forall k | k in a :: (Checkable(a[k]) <==> Checkable(b[k])) && a[k].ep == b[k].ep
  }

  lemma {:induction false} SameSet(order: seq<string>, a: map<string, Entry>, b: map<string, Entry>)
    requires SameChecks(a, b)
    ensures CheckableSet(order, a) == CheckableSet(order, b)
  {
    if |order| > 0 { SameSet(order[..|order| - 1], a, b); }
  }

  /** Rejecting an endpoint takes it, and it alone, out of the set. */
  ghost predicate RejectedOnly(a: map<string, Entry>, b: map<string, Entry>, key: string) {
    && a.Keys == b.Keys
    && forall k | k in a :: a[k].ep == b[k].ep && (Checkable(b[k]) <==> Checkable(a[k]) && k != key)
  }

  lemma {:induction false} RejectedLeaves(order: seq<string>, a: map<string, Entry>, b: map<string, Entry>, key: string)
    requires Filed(a) && RejectedOnly(a, b, key)
    ensures CheckableSet(order, b) == Without(CheckableSet(order, a), key)
  {
    if |order| > 0 {
      var n := |order| - 1;
      RejectedLeaves(order[..n], a, b, key);
      var k, rest := order[n], CheckableSet(order[..n], a);
      if k in a && Checkable(a[k]) {
        assert (rest + [a[k].ep])[..|rest|] == rest;
      } else {
        assert rest + [] == rest;
      }
    }
  }

  lemma {:induction false} CheckableHas(order: seq<string>, entries: map<string, Entry>, e: Endpoint)
    requires Filed(entries) && e in CheckableSet(order, entries)
    ensures e.key in entries && Checkable(entries[e.key]) && entries[e.key].ep == e
  {
    if |order| > 0 {
      var n := |order| - 1;
      if e in CheckableSet(order[..n], entries) { CheckableHas(order[..n], entries, e); }
    }
  }

  // ---------------------------------------------------------------- sections and the set

  lemma InvalidateSame(m: Monitor)
    ensures SameChecks(m.entries, Invalidate(m).entries)
    ensures Invalidate(m).session == m.session && Invalidate(m).wanPaused == m.wanPaused
  {}

  lemma StopSame(m: Monitor)
    ensures SameChecks(m.entries, StopSession(m).entries) && StopSession(m).session == NO_SESSION
    ensures StopSession(m).wanPaused == m.wanPaused
  {
    hide Invalidate, SameChecks;
    Unchanged(m.entries);
    if m.session != NO_SESSION {
      var stopped := DiscardPending(AllLanded(m)).(session := NO_SESSION, recent := []);
      ClearedSame(m);
      InvalidateSame(stopped);
      SameTwice(m.entries, stopped.entries, Invalidate(stopped).entries);
    }
  }

  lemma ClearedSame(m: Monitor)
    ensures SameChecks(m.entries, DiscardPending(AllLanded(m)).entries)
  {}

  lemma SetStateSame(m: Monitor, state: State)
    ensures SameChecks(m.entries, SetState(m, state).entries)
    ensures SetState(m, state).session == m.session && SetState(m, state).wanPaused == m.wanPaused
  {
    hide Invalidate, SameChecks;
    Unchanged(m.entries);
    InvalidateSame(m.(state := state));
  }

  lemma StartSame(m: Monitor, session: Session)
    ensures SameChecks(m.entries, StartSession(m, session).entries)
    ensures StartSession(m, session).session == session && StartSession(m, session).wanPaused == m.wanPaused
  {
    hide Invalidate, SameChecks;
    InvalidateSame(m.(session := session));
  }

  lemma RejectOnly(m: Monitor, key: string, reason: string, now: int)
    requires key in m.entries
    ensures RejectedOnly(m.entries, RejectKey(m, key, reason, now).entries, key)
    ensures RejectKey(m, key, reason, now).session == m.session
            && RejectKey(m, key, reason, now).wanPaused == m.wanPaused
  {
    hide Invalidate, Reject;
    var e := Reject(m.entries[key], now, reason, true);
    RejectIs(m.entries[key], now, reason);
    var r := m.(entries := m.entries[key := e]);
    InvalidateSame(r);
    assert RejectedOnly(m.entries, r.entries, key);
    OnlyThenSame(m.entries, r.entries, Invalidate(r).entries, key);
  }

  lemma RejectIs(e: Entry, now: int, reason: string)
    ensures Reject(e, now, reason, true).ep == e.ep && !Checkable(Reject(e, now, reason, true))
  {}

  lemma OnlyThenSame(a: map<string, Entry>, b: map<string, Entry>, c: map<string, Entry>, key: string)
    requires RejectedOnly(a, b, key) && SameChecks(b, c)
    ensures RejectedOnly(a, c, key)
  {}

  lemma RejectFiled(a: map<string, Entry>, b: map<string, Entry>, key: string)
    requires Filed(a) && RejectedOnly(a, b, key)
    ensures Filed(b)
  {}

  /** The keys of `rejected`, and no others, have left the set. */
  ghost predicate RejectedKeys(a: map<string, Entry>, b: map<string, Entry>, rejected: seq<string>) {
    && a.Keys == b.Keys
    && (forall k | k in rejected :: k in a && Checkable(a[k]))
    && (forall i, j | 0 <= i < j < |rejected| :: rejected[i] != rejected[j])
    && forall k | k in a :: a[k].ep == b[k].ep && (Checkable(b[k]) <==> Checkable(a[k]) && k !in rejected)
  }

  lemma OneMoreRejected(a: map<string, Entry>, b: map<string, Entry>, c: map<string, Entry>, rejected: seq<string>,
                        key: string)
    requires RejectedKeys(a, b, rejected) && RejectedOnly(b, c, key) && key in b && Checkable(b[key])
    ensures RejectedKeys(a, c, rejected + [key])
  {}

  lemma StillRejected(a: map<string, Entry>, b: map<string, Entry>, c: map<string, Entry>, rejected: seq<string>)
    requires RejectedKeys(a, b, rejected) && SameChecks(b, c)
    ensures RejectedKeys(a, c, rejected)
  {}

  // ---------------------------------------------------------------- the loop of ensureSession

  datatype StartAnswer = Started | RefusedKey(key: string, reason: string) | RefusedSome | StartFailed

  datatype Attempt = Taken | Empty | Failed | Kept

  /** The keyed outbounds of a set, whatever their order. */
  function KeyedOutbounds(s: seq<Endpoint>): set<Endpoint> {
    set e | e in s
  }

  class Sessions {
    const m: O.Monitor
    var proberAt: int
    var proberFails: nat
    var setKey: set<Endpoint>
    ghost var held: seq<Endpoint>   // what the session was started with

    ghost predicate Valid()
      reads this, m
    {
      Filed(m.entries) && (m.session != NO_SESSION ==> setKey == KeyedOutbounds(held))
    }

    constructor (m: O.Monitor)
      requires Filed(m.entries) && m.session == NO_SESSION
      ensures Valid() && this.m == m && fresh(this)
    {
      this.m, proberAt, proberFails, setKey, held := m, 0, 0, {}, [];
    }

    /** startFailed: backs off before the next try. */
    method StartFailedAt(now: int, wait: int)
      requires Valid()
      modifies this`proberAt, this`proberFails, m`state, m`message, m`generation, m`entries
      ensures Valid() && m.session == old(m.session) && m.wanPaused == old(m.wanPaused)
      ensures SameChecks(old(m.entries), m.entries) && proberAt == now + wait
    {
      hide SetState, Filed, SameChecks;
      ghost var was := m.entries;
      Unchanged(was);
      proberFails, proberAt := proberFails + 1, now + wait;
      if !m.wanPaused {
        SetStateSame(m.View(), ProberError);
        var why: string := *;
        m.SetState(ProberError, why);
        Through(m.order, was, m.entries);
      }
    }

    /** ensureSession: starts a session that holds the checkable set, rejecting
        what Xray refuses, at most MAX_REFUSALS endpoints; a session it takes
        was started with exactly the set that is checkable then. */
    method EnsureSession(now: int, wait: int, next: Session, exited: set<Session>,
                         start: (nat, seq<Endpoint>) -> StartAnswer, ask: (nat, nat, seq<Endpoint>) -> Answer)
      returns (r: Attempt, ghost rejected: seq<string>)
      requires Valid() && next != NO_SESSION
      modifies this`proberAt, this`proberFails, this`setKey, this`held,
               m`state, m`message, m`generation, m`entries, m`session, m`pending, m`recent
      ensures Valid()
      ensures |rejected| <= MAX_REFUSALS && RejectedKeys(old(m.entries), m.entries, rejected)
      ensures m.wanPaused ==> m.View() == old(m.View())
      ensures r.Taken? ==> m.session == next && held == CheckableSet(m.order, m.entries) && held != []
      ensures r.Empty? ==> m.session == NO_SESSION && CheckableSet(m.order, m.entries) == []
      ensures r.Failed? ==> m.session == NO_SESSION && proberAt == now + wait
      ensures r.Kept? ==> m.session == old(m.session) && rejected == []
      ensures r.Kept? && !m.wanPaused ==>
                || (m.session != NO_SESSION && KeyedOutbounds(held) == KeyedOutbounds(CheckableSet(m.order, m.entries)))
                || now < proberAt
    {
      hide SetState, StopSession, Filed, SameChecks, RejectedKeys, CheckableSet, KeyedOutbounds;
      rejected := [];
      ghost var was := m.entries;
      Unchanged(was);
      if m.wanPaused { return Kept, rejected; }
      var s := CollectCheckable(m.order, m.entries);
      if m.session != NO_SESSION && KeyedOutbounds(s) == setKey {
        if m.session !in exited {
          SetStateSame(m.View(), OK);
          m.SetState(OK, "");
          Through(m.order, was, m.entries);
        }
        return Kept, rejected;
      }
      if |s| > 0 && now < proberAt { return Kept, rejected; }
      StopSame(m.View());
      m.StopSession();
      Through(m.order, was, m.entries);
      if |s| == 0 {
        ghost var mid := m.entries;
        SetStateSame(m.View(), OK);
        m.SetState(OK, "");
        Through(m.order, mid, m.entries);
        StillRejected(was, mid, m.entries, rejected);
        return Empty, rejected;
      }
      ghost var stopped := m.entries;
      r, rejected := StartLoop(now, wait, next, s, start, ask);
      RejectedSince(was, stopped, m.entries, rejected);
    }

    /** The attempts of ensureSession. */
    method StartLoop(now: int, wait: int, next: Session, all: seq<Endpoint>,
                     start: (nat, seq<Endpoint>) -> StartAnswer, ask: (nat, nat, seq<Endpoint>) -> Answer)
      returns (r: Attempt, ghost rejected: seq<string>)
      requires Valid() && next != NO_SESSION && m.session == NO_SESSION && !m.wanPaused
      requires |all| > 0 && all == CheckableSet(m.order, m.entries)
      modifies this`proberAt, this`proberFails, this`setKey, this`held, m`state, m`message, m`generation, m`entries,
          m`session
      ensures Valid() && !r.Kept?
      ensures |rejected| <= MAX_REFUSALS && RejectedKeys(old(m.entries), m.entries, rejected)
      ensures r.Taken? ==> m.session == next && held == CheckableSet(m.order, m.entries) && held != []
      ensures r.Empty? ==> m.session == NO_SESSION && CheckableSet(m.order, m.entries) == []
      ensures r.Failed? ==> m.session == NO_SESSION && proberAt == now + wait
    {
      hide SetState, StartSession, RejectKey, Filed, SameChecks, RejectedKeys, RejectedOnly, CheckableSet, Without,
           KeyedOutbounds;
      var s := all;
      rejected := [];
      Unchanged(m.entries);
      for attempt := 0 to MAX_REFUSALS
        invariant Valid() && m.session == NO_SESSION
        invariant |s| > 0 && s == CheckableSet(m.order, m.entries)
        invariant |rejected| == attempt && RejectedKeys(old(m.entries), m.entries, rejected)
      {
        var bad, reason := "", "";
        ghost var before := m.entries;
        match start(attempt, s) {
          case Started =>
            TakeSession(next, s);
            StillRejected(old(m.entries), before, m.entries, rejected);
            return Taken, rejected;
          case StartFailed =>
            StartFailedAt(now, wait);
            StillRejected(old(m.entries), before, m.entries, rejected);
            return Failed, rejected;
          case RefusedKey(key, why) =>
            bad, reason := key, why;
          case RefusedSome =>
            var verdict, calls := Bisect(s, (i: nat, part: seq<Endpoint>) => ask(attempt, i, part));
            if verdict.TestFailed? {
              StartFailedAt(now, wait);
              StillRejected(old(m.entries), before, m.entries, rejected);
              return Failed, rejected;
            }
            bad, reason := if verdict.Bad? then verdict.key else "", "Xray refused the outbound";
        }
        var rest := Leave(s, bad);
        if bad == "" || |rest| == |s| {
          StartFailedAt(now, wait);
          StillRejected(old(m.entries), before, m.entries, rejected);
          return Failed, rejected;
        }
        RefusedIsEntry(m.order, m.entries, s, bad);
        RejectOnly(m.View(), bad, reason, now);
        m.RejectKey(bad, reason, now);
        RejectedLeaves(m.order, before, m.entries, bad);
        RejectFiled(before, m.entries, bad);
        OneMoreRejected(old(m.entries), before, m.entries, rejected, bad);
        rejected, s := rejected + [bad], rest;
        if |s| == 0 {
          ghost var empty := m.entries;
          SetStateSame(m.View(), OK);
          m.SetState(OK, "");
          Through(m.order, empty, m.entries);
          StillRejected(old(m.entries), empty, m.entries, rejected);
          return Empty, rejected;
        }
      }
      ghost var before := m.entries;
      StartFailedAt(now, wait);
      StillRejected(old(m.entries), before, m.entries, rejected);
      r := Failed;
    }

    /** A session that started is taken with the set it was started with. */
    method TakeSession(next: Session, s: seq<Endpoint>)
      requires Valid() && next != NO_SESSION && s == CheckableSet(m.order, m.entries)
      modifies this`proberAt, this`proberFails, this`setKey, this`held, m`state, m`message, m`generation, m`entries,
          m`session
      ensures Valid() && m.session == next && held == s == CheckableSet(m.order, m.entries)
      ensures SameChecks(old(m.entries), m.entries)
    {
      hide SetState, StartSession, Filed, SameChecks, CheckableSet, KeyedOutbounds;
      ghost var was := m.entries;
      setKey, held := KeyedOutbounds(s), s;
      StartSame(m.View(), next);
      m.StartSession(next);
      Through(m.order, was, m.entries);
      proberFails, proberAt := 0, 0;
      ghost var mid := m.entries;
      SetStateSame(m.View(), OK);
      m.SetState(OK, "");
      Through(m.order, mid, m.entries);
      SameTwice(was, mid, m.entries);
    }
  }

  lemma Unchanged(a: map<string, Entry>)
    ensures SameChecks(a, a) && RejectedKeys(a, a, [])
  {}

  lemma Through(order: seq<string>, a: map<string, Entry>, b: map<string, Entry>)
    requires SameChecks(a, b)
    ensures CheckableSet(order, a) == CheckableSet(order, b) && RejectedKeys(a, b, [])
    ensures Filed(a) ==> Filed(b)
  {
    SameSet(order, a, b);
  }

  lemma SameTwice(a: map<string, Entry>, b: map<string, Entry>, c: map<string, Entry>)
    requires SameChecks(a, b) && SameChecks(b, c)
    ensures SameChecks(a, c)
  {}

  lemma RejectedSince(a: map<string, Entry>, b: map<string, Entry>, c: map<string, Entry>, rejected: seq<string>)
    requires SameChecks(a, b) && RejectedKeys(b, c, rejected)
    ensures RejectedKeys(a, c, rejected)
  {}

  /** A key that leaves the set is that of a record that could be checked. */
  lemma RefusedIsEntry(order: seq<string>, entries: map<string, Entry>, s: seq<Endpoint>, key: string)
    requires Filed(entries) && s == CheckableSet(order, entries) && |Without(s, key)| != |s|
    ensures key in entries && Checkable(entries[key])
  {
    WithoutMember(s, key);
    var i :| 0 <= i < |s| && s[i].key == key;
    CheckableHas(order, entries, s[i]);
  }
}
