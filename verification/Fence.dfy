/** The fence around the failover watch's writes. */
module Fence {
  // Transactions of the watch and of users in any order, each under the config
  // lock: selections and the watch's own writes, whose records may fail to save
  // after config.json is written, and refreshes a user asks for, whose records
  // follow a server the fresh list renamed.

  import opened Servers

  /** What the watch compares the config with: the record when it began, its own
      last saved one, and the counter it expects. */
  datatype Book = Book(started: string, lastRecorded: string, expected: nat)

  datatype System = System(
    config: Config,
    running: seq<Server>,  // the server config.json was built from
    book: Book,
    foreign: bool,         // a user's selection was recorded since the watch last read the config or wrote
    known: Named,          // the record the watch last read or saved
    agreed: bool)          // the last write of config.json had its record saved

  /** What else decides a write of the watch: a stop or a deleted subscription
      refuses it, the generator may reject the server, the record may not save. */
  datatype Attempt = Barred | NotGenerated | Written(saved: bool)

  /** What a refresh makes of the name a record bears; its counter stays. */
  datatype Rename = Stays | To(name: string)

  function Renamed(a: Named, rename: Rename): Named {
    if a.Names? && rename.To? then Names(a.r.(name := rename.name)) else a
  }

  datatype Step =
    | Begin                             // the watch reads the config and starts an attempt
    | Select(s: Server, saved: bool)    // a user's selection that generated
    | DropPreferred                     // the preferred server's subscription is deleted
    | Follow(active: Rename, preferred: Rename)  // a refresh renamed the servers the records name
    | Write(s: Server, attempt: Attempt)

  predicate Owns(f: System) {
    !Superseded(f.config, f.book.started, f.book.lastRecorded, f.book.expected)
  }

  predicate Generates(f: System, step: Step) {
    step.Write? && step.attempt.Written? && Owns(f)
  }

  function Do(f: System, step: Step): System {
    match step
    case Begin =>
      f.(book := Book(ActiveID(f.config.active), "", Counter(f.config.active)), foreign := false,
         known := f.config.active)
    case Select(s, saved) =>
      f.(config := if saved then Selected(f.config, s) else f.config, running := [s],
         foreign := f.foreign || saved, agreed := saved)
    case DropPreferred => f.(config := f.config.(preferred := Nobody))
    case Follow(active, preferred) =>
      f.(config := Config(Renamed(f.config.active, active), Renamed(f.config.preferred, preferred)))
    case Write(s, attempt) =>
      if !Generates(f, step) then f
      else
        var config := if attempt.saved then Walked(f.config, s) else f.config;
        f.(config := config, running := [s], foreign := false, agreed := attempt.saved,
           known := if attempt.saved then config.active else f.known,
           book := f.book.(lastRecorded := if attempt.saved then ServerID(s) else f.book.lastRecorded,
                           expected := Counter(config.active)))
  }

  function Final(f: System, steps: seq<Step>): System
    decreases |steps|
  {
    if |steps| == 0 then f else Final(Do(f, steps[0]), steps[1..])
  }

  /** The watch has just begun, over any config. */
  predicate Begun(f: System) {
    && f.book == Book(ActiveID(f.config.active), "", Counter(f.config.active)) && f.known == f.config.active
    && !f.foreign && !f.agreed
  }

  // ---------------------------------------------------------------- the invariant

  /** Record b is record a, or a under another name. */
  predicate SameButName(a: Named, b: Named) {
    if a.Nobody? then b.Nobody? else b.Names? && b.r.(name := a.r.name) == a.r
  }

  ghost predicate Inv(f: System) {
    && (f.foreign ==> Counter(f.config.active) > f.book.expected)
    && (!f.foreign ==> Counter(f.config.active) == f.book.expected && SameButName(f.known, f.config.active))
    && (if f.book.lastRecorded == "" then f.book.started == ActiveID(f.known)
        else f.known.Names? && f.book.lastRecorded == FullID(f.known.r))
    && (f.agreed ==> |f.running| == 1 && SameButName(Names(RecordOf(f.running[0], Counter(f.config.active))),
                                                     f.config.active))
  }

  /** A record's identity with its address, even where it has none. */
  function FullID(r: Record): string {
    r.subscription + SEPARATOR + r.name + SEPARATOR + r.address + SEPARATOR + Decimal(r.port)
  }

  lemma OwnRecord(s: Server, number: nat)
    ensures ServerID(s) != "" && FullID(RecordOf(s, number)) == ServerID(s)
  {
    assert SEPARATOR in [SEPARATOR];
    assert |ServerID(s)| >= |SEPARATOR|;
  }

  lemma StepKeeps(f: System, step: Step)
    requires Inv(f)
    ensures Inv(Do(f, step))
  {
    hide ServerID, ActiveID, Superseded, FullID;
    if Generates(f, step) {
      OwnRecord(step.s, Counter(f.config.active) + 1);
      OwnsIs(f);
    }
  }

  lemma SameName(a: string, b: string, before: string, after: string)
    requires before + a + after == before + b + after
    ensures a == b
  {
    assert |a| == |b|;
    assert forall i | 0 <= i < |a| :: a[i] == (before + a + after)[|before| + i];
    assert forall i | 0 <= i < |b| :: b[i] == (before + b + after)[|before| + i];
  }

  /** Two records that differ at most in their names have one identity exactly if
      they have one name. */
  lemma SameID(a: Record, b: Record)
    requires b.(name := a.name) == a
    ensures ActiveID(Names(a)) == ActiveID(Names(b)) <==> a.name == b.name
    ensures FullID(a) == FullID(b) <==> a.name == b.name
    ensures ActiveID(Names(a)) != "" && ActiveID(Names(b)) != ""
  {
    var before := a.subscription + SEPARATOR;
    var after := SEPARATOR + a.address + SEPARATOR + Decimal(a.port);
    assert FullID(a) == before + a.name + after && FullID(b) == before + b.name + after;
    assert |before| > 0;
    if FullID(a) == FullID(b) { SameName(a.name, b.name, before, after); }
    if NoAddress(a) {
      assert ActiveID(Names(a)) == before + a.name + "" && ActiveID(Names(b)) == before + b.name + "";
      if ActiveID(Names(a)) == ActiveID(Names(b)) { SameName(a.name, b.name, before, ""); }
    } else {
      assert ActiveID(Names(a)) == FullID(a) && ActiveID(Names(b)) == FullID(b);
    }
  }

  /** Active_server bears the name it had when the watch last read or saved it; a
      record of the watch's own that has no address may bear any. */
  predicate NameStands(f: System) {
    || f.config.active.Nobody? || f.known.Nobody? || f.config.active.r.name == f.known.r.name
    || (f.book.lastRecorded != "" && NoAddress(f.config.active.r))
  }

  /** The guard lets a write pass exactly when no selection was recorded since and
      the record bears the name it had. */
  lemma OwnsIs(f: System)
    requires Inv(f)
    ensures Owns(f) <==> !f.foreign && NameStands(f)
  {
    hide ActiveID, FullID;
    NobodyID();
    if !f.foreign && f.config.active.Names? {
      assert f.known.Names?;
      SameID(f.known.r, f.config.active.r);
      if !NoAddress(f.config.active.r) {
        WithAddress(f.config.active.r);
        WithAddress(f.known.r);
      }
    }
  }

  lemma NobodyID()
    ensures ActiveID(Nobody) == ""
  {}

  lemma WithAddress(r: Record)
    requires !NoAddress(r)
    ensures ActiveID(Names(r)) == FullID(r)
  {}

  lemma {:induction false} RunKeeps(f: System, steps: seq<Step>)
    requires Inv(f)
    ensures Inv(Final(f, steps))
    decreases |steps|
  {
    hide Inv, Do;
    if |steps| > 0 {
      StepKeeps(f, steps[0]);
      RunKeeps(Do(f, steps[0]), steps[1..]);
    }
  }

  // ---------------------------------------------------------------- what it gives

  /** Whatever came before, the watch is refused exactly when a selection was
      recorded since it last read the config or wrote, or a refresh has left the
      record another name than the watch read or wrote. */
  lemma FenceIsExact(f: System, steps: seq<Step>)
    requires Begun(f)
    ensures var g := Final(f, steps); Owns(g) <==> !g.foreign && NameStands(g)
  {
    hide Owns, Final;
    RunKeeps(f, steps);
    OwnsIs(Final(f, steps));
  }

  predicate Renames(step: Step) { step.Follow? && step.active.To? }

  /** Where no refresh renames the record, nobody else's silence is taken for a
      selection: the watch is refused only if one was recorded. */
  lemma RefusedBySelectionOnly(f: System, steps: seq<Step>)
    requires Begun(f) && forall i | 0 <= i < |steps| :: !Renames(steps[i])
    ensures var g := Final(f, steps); Owns(g) <==> !g.foreign
  {
    hide Owns, Final;
    FenceIsExact(f, steps);
    NamesKept(f, steps);
  }

  lemma {:induction false} NamesKept(f: System, steps: seq<Step>)
    requires Inv(f) && (!f.foreign ==> f.config.active == f.known)
    requires forall i | 0 <= i < |steps| :: !Renames(steps[i])
    ensures var g := Final(f, steps); !g.foreign ==> g.config.active == g.known
    decreases |steps|
  {
    hide Inv, Owns;
    if |steps| > 0 {
      assert !Renames(steps[0]);
      OwnsIs(f);
      StepKeeps(f, steps[0]);
      NamesKept(Do(f, steps[0]), steps[1..]);
    }
  }

  /** A run in which nobody selects anything and the watch is refused: a refresh
      renames the server that runs. */
  lemma RenameRefuses()
    ensures var a := Server("a", "10.0.0.1", 443, "s", "g", "", [], "");
            var f := System(Config(Names(RecordOf(a, 4)), Nobody), [a], Book("", "", 0), false, Nobody, true);
            var g := Final(f, [Begin, Follow(To("b"), Stays)]);
            Owns(Final(f, [Begin])) && !g.foreign && !Owns(g)
  {
    var a := Server("a", "10.0.0.1", 443, "s", "g", "", [], "");
    var f := System(Config(Names(RecordOf(a, 4)), Nobody), [a], Book("", "", 0), false, Nobody, true);
    var g := Do(f, Begin);
    var rename := Follow(To("b"), Stays);
    assert [Begin, rename][1..] == [rename] && [rename][1..] == [] && [Begin][1..] == [];
    assert Final(g, []) == g && Final(f, [Begin]) == g;
    assert Final(Do(g, rename), []) == Do(g, rename) && Final(g, [rename]) == Do(g, rename);
    StepKeeps(g, rename);
    OwnsIs(g);
    OwnsIs(Do(g, rename));
  }

  /** A recorded selection stands: until the watch reads the config again it writes
      over none, whatever else happens but another selection. */
  lemma SelectionStands(f: System, steps: seq<Step>, user: Server, later: seq<Step>)
    requires Begun(f) && forall i | 0 <= i < |later| :: !later[i].Begin? && !later[i].Select?
    ensures Final(Do(Final(f, steps), Select(user, true)), later).running == [user]
  {
    hide Final;
    RunKeeps(f, steps);
    StepKeeps(Final(f, steps), Select(user, true));
    ForeignStands(Do(Final(f, steps), Select(user, true)), later);
  }

  lemma {:induction false} ForeignStands(f: System, steps: seq<Step>)
    requires Inv(f) && f.foreign && forall i | 0 <= i < |steps| :: !steps[i].Begin? && !steps[i].Select?
    ensures Final(f, steps).running == f.running
    decreases |steps|
  {
    hide Inv, Owns;
    if |steps| > 0 {
      assert !steps[0].Begin? && !steps[0].Select?;
      OwnsIs(f);
      StepKeeps(f, steps[0]);
      ForeignStands(Do(f, steps[0]), steps[1..]);
    }
  }

  /** A selection made while the watch owns the config is still what runs after
      the watch's next write exactly if its record was saved: a selection whose
      record did not save leaves no mark, and the watch writes over it. */
  lemma SelectionKeptIff(f: System, steps: seq<Step>, user: Server, saved: bool, walked: Server, record: bool)
    requires Begun(f) && user != walked && Owns(Final(f, steps))
    ensures var g := Final(f, steps);
            Do(Do(g, Select(user, saved)), Write(walked, Written(record))).running == [user] <==> saved
  {
    hide Owns, Final;
    RunKeeps(f, steps);
    var g := Final(f, steps);
    OwnsIs(g);
    StepKeeps(g, Select(user, saved));
    OwnsIs(Do(g, Select(user, saved)));
  }

  /** A run in which a selection is lost: its record did not save. */
  lemma LostSelection()
    ensures var a := Server("a", "10.0.0.1", 443, "s", "g", "", [], "");
            var b, c := a.(name := "b"), a.(name := "c");
            var f := System(Config(Names(RecordOf(a, 4)), Nobody), [a], Book("", "", 0), false, Nobody, true);
            Final(f, [Begin, Select(b, false), Write(c, Written(true))]).running == [c]
  {
    var a := Server("a", "10.0.0.1", 443, "s", "g", "", [], "");
    var b, c := a.(name := "b"), a.(name := "c");
    var f := System(Config(Names(RecordOf(a, 4)), Nobody), [a], Book("", "", 0), false, Nobody, true);
    var g := Do(f, Begin);
    var h := Do(g, Select(b, false));
    var last := Write(c, Written(true));
    assert [Begin, Select(b, false), last][1..] == [Select(b, false), last];
    assert [Select(b, false), last][1..] == [last];
    assert [last][1..] == [];
    assert Final(Do(h, last), []) == Do(h, last);
    assert Final(h, [last]) == Do(h, last);
    assert Final(g, [Select(b, false), last]) == Final(h, [last]);
  }

  /** After every transaction whose record saved, config.json and the record name
      one server, whatever a refresh has named it since; and by one name where
      none has. */
  lemma RecordNamesRunning(f: System, steps: seq<Step>)
    requires Begun(f) && Final(f, steps).agreed
    ensures var g := Final(f, steps);
            |g.running| == 1 && SameButName(Names(RecordOf(g.running[0], Counter(g.config.active))), g.config.active)
    ensures var g := Final(f, steps);
            (forall i | 0 <= i < |steps| :: !Renames(steps[i])) ==>
              |g.running| == 1 && g.config.active == Names(RecordOf(g.running[0], Counter(g.config.active)))
  {
    hide Final;
    RunKeeps(f, steps);
    if forall i | 0 <= i < |steps| :: !Renames(steps[i]) { RunningKept(f, steps); }
  }

  lemma {:induction false} RunningKept(f: System, steps: seq<Step>)
    requires f.agreed ==> |f.running| == 1 && f.config.active == Names(RecordOf(f.running[0], Counter(f.config.active)))
    requires forall i | 0 <= i < |steps| :: !Renames(steps[i])
    ensures var g := Final(f, steps);
            g.agreed ==> |g.running| == 1 && g.config.active == Names(RecordOf(g.running[0], Counter(g.config.active)))
    decreases |steps|
  {
    hide Owns;
    if |steps| > 0 {
      assert !Renames(steps[0]);
      RunningKept(Do(f, steps[0]), steps[1..]);
    }
  }

  // ---------------------------------------------------------------- the user's choice

  lemma WalkedKeepsChoice(c: Config, s: Server, u: Record)
    requires Choice(c).Names? && OfChoice(u, Choice(c).r)
    ensures Choice(Walked(c, s)).Names? && OfChoice(u, Choice(Walked(c, s)).r)
  {}

  /** The watch's own writes, one after another, whichever servers they try and
      whichever records save. */
  predicate WatchOnly(steps: seq<Step>) {
    forall i | 0 <= i < |steps| :: steps[i].Begin? || steps[i].Write?
  }

  /** Through any number of the watch's writes the config still knows the choice
      the user's recorded selection made. */
  lemma {:induction false} ChoiceIsKept(f: System, steps: seq<Step>, u: Record)
    requires Choice(f.config).Names? && OfChoice(u, Choice(f.config).r) && WatchOnly(steps)
    ensures var c := Final(f, steps).config; Choice(c).Names? && OfChoice(u, Choice(c).r)
    decreases |steps|
  {
    hide Owns, Walked, Choice, OfChoice;
    if |steps| > 0 {
      if Generates(f, steps[0]) && steps[0].attempt.saved {
        WalkedKeepsChoice(f.config, steps[0].s, u);
      }
      assert steps[0].Begin? || steps[0].Write?;
      ChoiceIsKept(Do(f, steps[0]), steps[1..], u);
    }
  }

  /** A selection that saves makes its own choice, whatever was kept before. */
  lemma SelectionChooses(f: System, s: Server, steps: seq<Step>)
    requires WatchOnly(steps)
    ensures var c := Final(Do(f, Select(s, true)), steps).config;
            Choice(c).Names? && OfChoice(RecordOf(s, 0), Choice(c).r)
  {
    hide Owns, Final;
    ChoiceIsKept(Do(f, Select(s, true)), steps, RecordOf(s, 0));
  }

  // ---------------------------------------------------------------- the switcher

  /** What a server that was written shows: a stop on the way, a restart or a probe
      that fails, or that it lives. */
  datatype Trial = Interrupted | Fails | Lives

  /** The walk's and the returns' bookkeeping from write to write. */
  class Switcher {
    const files: Files
    const started: string
    var lastRecorded: string
    var number: nat
    var wrote: bool

    constructor (files: Files)
      ensures this.files == files && fresh(this)
      ensures started == ActiveID(files.config.active) && lastRecorded == "" && number == Counter(files.config.active)
              && !wrote
    {
      this.files, started := files, ActiveID(files.config.active);
      lastRecorded, number, wrote := "", Counter(files.config.active), false;
    }

    function Bookkeeping(): Book
      reads this
    {
      Book(started, lastRecorded, number)
    }

    /** switcher.to: the guard's checks, then the transaction, then a restart and
        a probe of what was written, which may be stopped on the way. `stopped` is a
        stop before anything is read, `stops` one the guard finds, and `owned` says
        that the ownership of a fallback still allows writes. The files and the
        bookkeeping become those of the step Write of the run. */
    method SwitchTo(s: Server, stopped: bool, stops: bool, holds: bool, subscriptionGone: bool, outcome: Outcome,
                    owned: bool, trial: Trial,
                    ghost known: Named, ghost agreed: bool)
      returns (live: bool, ended: bool, gone: bool)
      requires outcome != Refused
      modifies this`lastRecorded, this`number, this`wrote, files
      ensures var f := System(old(files.config), old(files.running), old(Bookkeeping()), false, known, agreed);
              var guarded := !stopped && outcome != LoadFails;
              var barred := !guarded || stops || (holds && subscriptionGone);
              var write := Write(s, if barred then Barred else if outcome == Rejected then NotGenerated
                                 else Written(outcome == Saved));
              var g := Do(f, write);
              var kept := Generates(f, write) && (outcome == Saved || owned);
              && files.config == g.config && files.running == g.running && Bookkeeping() == g.book
              && (live <==> kept && trial == Lives)
              && (ended <==> || stopped || (guarded && (stops || !Owns(f)))
                             || (!owned && !(Generates(f, write) && outcome == Saved))
                             || (kept && trial == Interrupted))
              && (gone <==> guarded && !stops && Owns(f) && holds && subscriptionGone && owned)
              && (wrote <==> old(wrote) || kept)
    {
      ghost var f := System(files.config, files.running, Bookkeeping(), false, known, agreed);
      if stopped { return false, true, false; }
      if outcome == LoadFails { return false, !owned, false; }
      if stops || Superseded(files.config, started, lastRecorded, number) { return false, true, false; }
      if holds && subscriptionGone { return false, !owned, owned; }
      var generated, counter, ok := files.RecordGenerated(s, Walk, outcome);
      if !ok && !owned { return false, true, false; }
      if !generated { return false, false, false; }
      wrote := true;
      if ok {
        lastRecorded := ServerID(s);
      }
      number := counter;
      return trial == Lives, trial == Interrupted, false;
    }
  }
}
