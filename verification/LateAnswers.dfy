/** An answer the monitor's loop takes late. */
module LateAnswers {
  // A run in which a failed check is counted although nothing answered within the
  // window, nor within any time before: what the guard dates by is when the loop
  // takes an answer, not when it came.

  import opened MonitorState
  import opened MonitorRuns

  const A := Endpoint("a", "x")
  const B := Endpoint("b", "y")

  /** Two endpoints in a session, none counted yet and nothing known of the WAN. */
  ghost predicate Base(s: System) {
    && s.pc == Free && s.exited == {} && s.answers == {}
    && s.m.state == OK && s.m.session == 1 && s.m.recent == [] && s.m.controlOK == Never
    && s.m.entries.Keys == {"a", "b"}
    && forall k | k in s.m.entries :: s.m.entries[k].st.status == Unknown && s.m.entries[k].st.fails == 0
  }

  ghost predicate Idle(s: System, k: string) {
    k in s.m.entries && Due(s.m.entries[k], s.clock) && !s.m.entries[k].pending
  }

  /** The check w of endpoint k is under way. */
  ghost predicate Checked(s: System, k: string, w: Work) {
    && k in s.m.entries && s.m.entries[k].inFlight && !s.m.entries[k].pending
    && w.key == k && w.session == 1 && w.generation == s.m.generation && w.started > 0
  }

  lemma Listed(s: System) returns (t: System)
    requires Init(s) && s.m.restored == map[]
    ensures var step := MergeStep(map["a" := A, "b" := B], map[], s.clock);
            Enabled(s, step) && t == Do(s, step)
    ensures t.pc == Free && t.exited == {} && t.answers == {} && t.clock == s.clock && t.lastSession == 0
    ensures t.m.state == OK && !t.m.wanPaused && t.m.session == NO_SESSION && t.m.recent == [] && t.m.controlOK == Never
    ensures t.m.pending == map[] && t.m.entries.Keys == {"a", "b"}
    ensures forall k | k in t.m.entries :: t.m.entries[k].st == NewState(t.clock) && Idle(t, k)
  {
    t := Do(s, MergeStep(map["a" := A, "b" := B], map[], s.clock));
  }

  lemma Begun(s: System) returns (t: System)
    requires s.pc == Free && s.exited == {} && s.answers == {} && s.lastSession == 0
    requires s.m.state == OK && !s.m.wanPaused && s.m.session == NO_SESSION && s.m.recent == []
             && s.m.controlOK == Never
    requires s.m.pending == map[] && s.m.entries.Keys == {"a", "b"}
    requires forall k | k in s.m.entries :: s.m.entries[k].st == NewState(s.clock) && Idle(s, k)
    ensures Enabled(s, StartStep) && t == Do(s, StartStep)
    ensures Base(t) && t.m.pending == map[] && t.clock == s.clock && Idle(t, "a") && Idle(t, "b")
  {
    t := Do(s, StartStep);
  }

  lemma Handed(s: System, k: string, other: string) returns (t: System, w: Work)
    requires Base(s) && s.m.pending == map[] && Idle(s, k) && other in s.m.entries && other != k
    ensures Enabled(s, DispatchStep(k, s.clock)) && t == Do(s, DispatchStep(k, s.clock))
    ensures Base(t) && t.m.pending == map[] && t.clock == s.clock && t.m.generation == s.m.generation
    ensures Checked(t, k, w) && t.workers == s.workers + {w} && t.m.entries[other] == s.m.entries[other]
    ensures (Idle(s, other) ==> Idle(t, other)) && forall v :: Checked(s, other, v) ==> Checked(t, other, v)
  {
    w := Work(k, s.m.session, s.m.generation, s.m.starts + 1);
    t := Do(s, DispatchStep(k, s.clock));
  }

  lemma Ended(s: System, w: Work, ok: bool) returns (t: System, r: Result)
    requires Base(s) && w in s.workers
    ensures Enabled(s, FinishStep(w, ok, "", 0)) && t == Do(s, FinishStep(w, ok, "", 0))
    ensures r == Result(w, ok, "", 0, s.m.sequence + 1, s.clock)
    ensures t.results == s.results + {r} && t.workers == s.workers - {w} && t.clock == s.clock
    ensures t.m == s.m.(sequence := s.m.sequence + 1) && Base(t)
    ensures forall k, v :: Checked(s, k, v) ==> Checked(t, k, v)
  {
    t := Do(s, FinishStep(w, ok, "", 0));
    r := Result(w, ok, "", 0, s.m.sequence + 1, s.clock);
  }

  lemma Later(s: System, delay: nat) returns (t: System)
    ensures Enabled(s, TimeStep(s.clock + delay)) && t == Do(s, TimeStep(s.clock + delay))
    ensures t.clock == s.clock + delay && t.m == s.m && t.results == s.results && (Base(s) ==> Base(t))
    ensures t.pc == s.pc && t.exited == s.exited && t.answers == s.answers
    ensures forall k, v :: Checked(s, k, v) ==> Checked(t, k, v)
  {
    t := Do(s, TimeStep(s.clock + delay));
  }

  /** A run to a success of "a" and a failure of "b" at one time, neither taken yet. */
  lemma BothEnd(start: System) returns (steps: seq<Step>, t: System, ra: Result, rb: Result)
    requires Init(start) && start.m.restored == map[]
    ensures Allowed(start, steps) && Final(start, steps) == t
    ensures Base(t) && t.m.pending == map[] && ra in t.results && rb in t.results && ra != rb
    ensures ra.ok && ra.w.key == "a" && ra.at == t.clock && ra.number > 0 && Checked(t, "a", ra.w)
    ensures !rb.ok && rb.w.key == "b" && rb.at == t.clock && rb.number > 0 && Checked(t, "b", rb.w)
  {
    hide Do, Enabled, Init, Base, Idle;
    var s1 := Listed(start);
    var s2 := Begun(s1);
    var s3, wa := Handed(s2, "a", "b");
    var s4, wb := Handed(s3, "b", "a");
    var s5;
    s5, ra := Ended(s4, wa, true);
    t, rb := Ended(s5, wb, false);
    steps := [MergeStep(map["a" := A, "b" := B], map[], start.clock), StartStep, DispatchStep("a", s2.clock),
              DispatchStep("b", s3.clock), FinishStep(wa, true, "", 0), FinishStep(wb, false, "", 0)];
    Chained([start, s1, s2, s3, s4, s5, t], steps);
  }

  /** The failure is taken first and held back. */
  lemma HoldsBack(s: System, r: Result, other: string) returns (t: System)
    requires Base(s) && s.m.pending == map[] && r in s.results && !r.ok && r.number > 0
    requires r.w.key != other && other in s.m.entries && Checked(s, r.w.key, r.w)
    ensures Enabled(s, ApplyStep(r, s.clock + 1)) && t == Do(s, ApplyStep(r, s.clock + 1))
    ensures t.pc == Free && t.answers == {} && t.clock == s.clock && t.exited == {} && t.results == s.results - {r}
    ensures t.m.entries.Keys == s.m.entries.Keys && t.m.entries[other] == s.m.entries[other]
    ensures t.m.state == OK && t.m.session == 1 && t.m.generation == s.m.generation
    ensures Publishes(t.m, r.w.key) && t.m.entries[r.w.key].st.status == Unknown
    ensures forall v :: Checked(s, other, v) ==> Checked(t, other, v)
  {
    hide Young, Counted, Apply, Due;
    t := Do(s, ApplyStep(r, s.clock + 1));
    HeldIs(s.m, s.exited, r, s.clock, s.clock + 1);
  }

  lemma HeldIs(m: Monitor, exited: set<Session>, r: Result, now: int, next: int)
    requires m.state == OK && m.session == 1 && exited == {} && m.recent == [] && m.controlOK == Never
    requires !r.ok && r.number > 0 && r.w.key in m.entries && m.entries[r.w.key].inFlight
    requires r.w.session == 1 && r.w.generation == m.generation && r.w.started > 0
    ensures Apply(m, exited, r, now, next) == HeldBack(m, r, now)
  {
    hide Young, PublishPending, ApplySuccess;
    NoneOK(r, now);
  }

  lemma NoneOK(r: Result, now: int)
    requires !r.ok
    ensures forall o | o in Young([] + [OutcomeOf(r, now)], now) :: !o.ok
  {
    var o := OutcomeOf(r, now);
    assert [] + [o] == [o] && [o][..0] == [];
    forall x | x in Young([o], now) ensures !x.ok { YoungMember([o], now, x); }
  }

  /** Then the success, and with it the failure counts. */
  lemma Counts(s: System, r: Result, k: string) returns (t: System)
    requires s.pc == Free && s.answers == {} && s.exited == {} && s.m.state == OK && s.m.session == 1
    requires r in s.results && r.ok && r.number > 0 && r.w.key != k && k in s.m.entries
    requires Checked(s, r.w.key, r.w) && Publishes(s.m, k) && s.m.entries[k].st.status == Unknown
    ensures Enabled(s, ApplyStep(r, s.clock + 1)) && t == Do(s, ApplyStep(r, s.clock + 1))
    ensures t.answers == {Answer(r.at, s.clock)} && t.clock == s.clock
    ensures k in t.m.entries && Counted(s.m.entries[k], t.m.entries[k])
  {
    t := Do(s, ApplyStep(r, s.clock + 1));
    hide Young;
  }

  /** For every delay a failure is counted on nothing but an answer as old. */
  lemma LateAnswerCounts(start: System, delay: nat) returns (steps: seq<Step>, step: Step)
    requires Init(start) && start.m.restored == map[]
    ensures Allowed(start, steps) && Enabled(Final(start, steps), step)
    ensures var s := Final(start, steps);
            var t := Do(s, step);
            && "b" in s.m.entries && "b" in t.m.entries && Counted(s.m.entries["b"], t.m.entries["b"])
            && forall a | a in t.answers :: t.clock - a.at == delay
  {
    hide Do, Enabled, Init, Base, Checked, Publishes, Counted;
    var before, s6, ra, rb := BothEnd(start);
    var s7 := Later(s6, delay);
    var s8 := HoldsBack(s7, rb, "a");
    var s9 := Counts(s8, ra, "b");
    step := ApplyStep(ra, s8.clock + 1);
    var after := [TimeStep(s6.clock + delay), ApplyStep(rb, s7.clock + 1)];
    Chained([s6, s7, s8], after);
    Then(start, before, after);
    steps := before + after;
  }

  // ---------------------------------------------------------------- the bound is reached

  /** A success taken while no failure is held back. */
  lemma Takes(s: System, r: Result, other: string) returns (t: System)
    requires Base(s) && s.m.pending == map[] && r in s.results && r.ok && r.number > 0
    requires r.w.key != other && other in s.m.entries && Checked(s, r.w.key, r.w)
    ensures Enabled(s, ApplyStep(r, s.clock + 1)) && t == Do(s, ApplyStep(r, s.clock + 1))
    ensures t.pc == Free && t.clock == s.clock && t.exited == {} && t.results == s.results - {r}
    ensures t.answers == {Answer(r.at, s.clock)}
    ensures t.m.state == OK && t.m.session == 1 && t.m.generation == s.m.generation
    ensures t.m.recent == [OutcomeOf(r, s.clock)] && t.m.entries[other] == s.m.entries[other] && other in t.m.entries
    ensures forall v :: Checked(s, other, v) ==> Checked(t, other, v)
  {
    hide Counted, Due, Apply;
    SuccessIs(s.m, s.exited, r, s.clock, s.clock + 1, other);
    t := Do(s, ApplyStep(r, s.clock + 1));
  }

  lemma SuccessIs(m: Monitor, exited: set<Session>, r: Result, now: int, next: int, other: string)
    requires m.state == OK && m.session == 1 && exited == {} && m.recent == [] && m.pending == map[]
    requires r.ok && r.number > 0 && r.w.key in m.entries && m.entries[r.w.key].inFlight
    requires r.w.session == 1 && r.w.generation == m.generation && r.w.started > 0
    requires r.w.key != other && other in m.entries
    ensures var t := Apply(m, exited, r, now, next);
            && t.recent == [OutcomeOf(r, now)] && other in t.entries && t.entries[other] == m.entries[other]
            && t.state == m.state && t.session == m.session && t.generation == m.generation
  {
    hide Young;
    YoungOne(OutcomeOf(r, now), now);
  }

  lemma YoungOne(o: Outcome, now: int)
    requires now - o.at < GUARD_WINDOW
    ensures Young([] + [o], now) == [o]
  {
    assert [] + [o] == [o] && [o][..0] == [];
    assert Young([o], now) == Young([], now) + [o];
  }

  /** A failure taken while a success taken before it is within the window. */
  lemma CountsLater(s: System, r: Result, o: Outcome) returns (t: System)
    requires s.pc == Free && s.exited == {} && s.m.state == OK && s.m.session == 1
    requires r in s.results && !r.ok && r.number > 0 && Checked(s, r.w.key, r.w)
    requires s.m.recent == [o] && o.ok && s.clock - o.at < GUARD_WINDOW
    requires s.m.entries[r.w.key].st.status == Unknown
    ensures Enabled(s, ApplyStep(r, s.clock + 1)) && t == Do(s, ApplyStep(r, s.clock + 1))
    ensures t.answers == s.answers && t.clock == s.clock
    ensures r.w.key in t.m.entries && Counted(s.m.entries[r.w.key], t.m.entries[r.w.key])
  {
    hide Due, Young;
    t := Do(s, ApplyStep(r, s.clock + 1));
    var h := HeldBack(s.m, r, s.clock);
    YoungMember([o] + [OutcomeOf(r, s.clock)], s.clock, o);
    assert o in h.recent;
  }

  /** The bound of PromptAnswers is reached: for every delay a failure is counted
      where all answers were taken with that delay and all are a window old on top
      of it, less the least there is. */
  lemma BoundIsReached(start: System, delay: nat) returns (steps: seq<Step>, step: Step)
    requires Init(start) && start.m.restored == map[]
    ensures Allowed(start, steps) && Enabled(Final(start, steps), step)
    ensures var s := Final(start, steps);
            var t := Do(s, step);
            && "b" in s.m.entries && "b" in t.m.entries && Counted(s.m.entries["b"], t.m.entries["b"])
            && t.answers != {}
            && forall a | a in t.answers :: a.taken - a.at == delay && t.clock - a.at == delay + GUARD_WINDOW - 1
  {
    hide Do, Enabled, Init, Checked, Publishes, Counted;
    var before, s6, ra, rb := BothEnd(start);
    var s7 := Later(s6, delay);
    var s8 := Takes(s7, ra, "b");
    var s9 := Later(s8, GUARD_WINDOW - 1);
    var t := CountsLater(s9, rb, OutcomeOf(ra, s7.clock));
    step := ApplyStep(rb, s9.clock + 1);
    var after := [TimeStep(s6.clock + delay), ApplyStep(ra, s7.clock + 1), TimeStep(s8.clock + (GUARD_WINDOW - 1))];
    Chained([s6, s7, s8, s9], after);
    Then(start, before, after);
    steps := before + after;
  }
}
