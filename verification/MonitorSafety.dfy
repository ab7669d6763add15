/** What holds over every run of the server monitor. */
module MonitorSafety {
  import opened MonitorState
  import opened MonitorRuns

  /** Evidence has no ABA: where it validates, the monitor has been active in
      one epoch - session, state and endpoint set - since it was taken, no check
      of the keys was resolved in between, and their states never changed. */
  lemma EvidenceHasNoABA(s: System, steps: seq<Step>, taken: set<string>, keys: set<string>)
    requires PcOK(s) && Allowed(s, steps)
    requires var t := Final(s, steps); Validates(t.m, t.exited, EvidenceOf(s.m, s.exited, taken), keys)
    ensures QuietRun(s, steps, RequestedKeys(Final(s, steps).m, keys))
  {
    hide Final, Allowed, Do, Enabled;
    var t := Final(s, steps);
    var ks := RequestedKeys(t.m, keys);
    EvidenceKeys(s, t, taken, keys);
    SameRevisionsQuiet(s, steps, ks);
  }

  /** When CheckEvidence answers, every key it was asked for has a fresh proof;
      results restored from an earlier process never count. */
  lemma CheckEvidenceIsFresh(start: System, before: seq<Step>, after: seq<Step>, keys: set<string>, k: string)
    requires Init(start) && Allowed(start, before) && Allowed(Final(start, before), after)
    requires MayAnswer(Final(start, before), Final(Final(start, before), after), keys) && k in keys
    ensures FreshProof(Final(start, before), Final(Final(start, before), after), k)
  {
    hide Final, Allowed, Init;
    InitKeeps(start);
    RunKeeps(start, before);
    var s := Final(start, before);
    RunKeeps(s, after);
    FreshAnswer(s, Final(s, after), keys, k);
  }

  /** A failed check is counted only where the loop took note, within the last 30
      seconds, of an endpoint or a control address that answered. That one also
      answered within those 30 seconds exactly if the step asks a control address,
      or takes a success that came within them, or one was known before it. */
  lemma FailuresNeedTheWAN(start: System, steps: seq<Step>, step: Step, k: string)
    requires Init(start) && Allowed(start, steps) && Enabled(Final(start, steps), step)
    requires var s := Final(start, steps);
             k in s.m.entries && k in Do(s, step).m.entries && Counted(s.m.entries[k], Do(s, step).m.entries[k])
    ensures var s, t := Final(start, steps), Do(Final(start, steps), step);
            && AnsweredLately(t) && (forall a | a in t.answers :: a.at <= a.taken <= t.clock)
            && (CameLately(t) <==>
                  || step.GuardUpStep? || (step.ApplyStep? && step.r.ok && s.clock - step.r.at < GUARD_WINDOW)
                  || CameLately(s))
  {
    hide Final, Allowed, Init, Do, Enabled, Counted, PcOK, ChecksOK, EntriesOK;
    InitKeeps(start);
    RunKeeps(start, steps);
    var s := Final(start, steps);
    CountedNeedsAnswer(s, step, k);
    StepKeeps(s, step);
    AnswersOfCount(s, step, k);
    CameAfter(s, step);
  }

  /** What a step that counts a failure adds to the answers. */
  lemma AnswersOfCount(s: System, step: Step, k: string)
    requires Enabled(s, step) && k in s.m.entries && k in Do(s, step).m.entries
    requires Counted(s.m.entries[k], Do(s, step).m.entries[k])
    ensures step.ApplyStep? || step.GuardUpStep?
    ensures Do(s, step).clock == s.clock
    ensures Do(s, step).answers == s.answers + NewAnswers(s, step)
  {
    hide Next, Resolves, Counted, Gone, Stale, Enabled;
    DoIs(s, step);
    if step.ApplyStep? {
      ApplyCountsIf(s, step, k);
    } else if !step.GuardUpStep? {
      OthersCountNothing(s, step, k);
    }
  }

  function NewAnswers(s: System, step: Step): set<Answer> {
    if step.GuardUpStep? then {Answer(s.clock, s.clock)}
    else if step.ApplyStep? && step.r.ok then {Answer(step.r.at, s.clock)} else {}
  }

  lemma CameAfter(s: System, step: Step)
    requires Enabled(s, step) && (step.ApplyStep? || step.GuardUpStep?)
    ensures var t := Do(s, step);
            t.clock == s.clock && t.answers == s.answers + NewAnswers(s, step) ==>
              (CameLately(t) <==>
                 || step.GuardUpStep? || (step.ApplyStep? && step.r.ok && s.clock - step.r.at < GUARD_WINDOW)
                 || CameLately(s))
  {
    hide Do, Enabled;
    var t := Do(s, step);
    if t.clock == s.clock && t.answers == s.answers + NewAnswers(s, step) {
      if a :| a in s.answers && s.clock - a.at < GUARD_WINDOW { assert a in t.answers; }
      if step.GuardUpStep? { assert Answer(s.clock, s.clock) in t.answers; }
      if step.ApplyStep? && step.r.ok { assert Answer(step.r.at, s.clock) in t.answers; }
    }
  }

  /** Where every answer is taken within `delay`, a counted failure has one that is
      not older than the window and that delay. */
  lemma PromptAnswers(start: System, steps: seq<Step>, step: Step, k: string, delay: int)
    requires Init(start) && Allowed(start, steps) && Enabled(Final(start, steps), step)
    requires var s := Final(start, steps);
             k in s.m.entries && k in Do(s, step).m.entries && Counted(s.m.entries[k], Do(s, step).m.entries[k])
    requires forall a | a in Do(Final(start, steps), step).answers :: a.taken - a.at <= delay
    ensures var t := Do(Final(start, steps), step);
            exists a :: a in t.answers && t.clock - a.at < GUARD_WINDOW + delay
  {
    hide Final, Allowed, Init, Do, Enabled, Counted;
    FailuresNeedTheWAN(start, steps, step, k);
    var t := Do(Final(start, steps), step);
    var a :| a in t.answers && NotedLately(t, a);
  }

  /** From the guard finding the WAN down until a control answers again, no
      status, count of failures or pause changes, but those an endpoint list
      changes: of those it drops, refuses, or no longer refuses. */
  lemma PauseHoldsStatuses(start: System, before: seq<Step>, down: Step, during: seq<Step>)
    requires Init(start) && Allowed(start, before)
    requires down.GuardDownStep? && Enabled(Final(start, before), down)
    requires Allowed(Do(Final(start, before), down), during) && Paused(Do(Final(start, before), down), during)
    ensures var s := Final(start, before);
            var t := Final(Do(s, down), during);
            && (forall k | k in s.m.entries :: HoldsOver(s.m, Do(s, down).m, k))
            && ChangedByLists(Do(s, down), during)
            && forall k | k in s.m.entries && LeftAlone(Do(s, down), during, k) :: HoldsOver(s.m, t.m, k)
  {
    hide Do, Enabled, Held, PcOK, Final, Allowed, Init, Next, Paused, ChangedByLists, LeftAlone;
    InitKeeps(start);
    RunKeeps(start, before);
    var s := Final(start, before);
    DoIs(s, down);
    PcKept(s, down);
    PausedStepExact(s, down);
    PausedRunExact(Do(s, down), during);
    forall k | k in s.m.entries && LeftAlone(Do(s, down), during, k)
      ensures HoldsOver(s.m, Final(Do(s, down), during).m, k)
    {
      HoldsTwice(s.m, Do(s, down).m, Final(Do(s, down), during).m, k);
    }
  }
}
