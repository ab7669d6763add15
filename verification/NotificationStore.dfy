/** The store of server/internal/notifications as the object it is: fields that
    the sections under `mu` change in place. Each section is proved to make of
    the fields what the function in module Events makes of their value; the
    calls around the sections are proved for a caller nobody runs beside, and
    module NotificationRuns interleaves the sections. */
module NotificationStore {
  import opened Events
  import opened QueueLaws
  import opened StoreLaws
  import L = StoreLoops
  import P = Paging
  import R = NotificationRuns

  // ---------------------------------------------------------------- the object

  class Store {
    var epoch: string
    var sequence: nat
    var reservedThrough: nat
    var revision: nat
    var savedRevision: nat
    var needsBackup: bool
    var recent: seq<Event>
    var recipients: map<int, Recipient>
    var pending: map<int, seq<Event>>
    var closed: map<int, map<EventID, int>>
    var health: map<string, Health>
    var serving: bool            // resolve is nil
    var loaded: bool
    var backlog: seq<Text>
    var disk: R.Disk             // the file at path
    const drawn: string          // the epoch this process draws if it needs one
    ghost var issued: Issued     // every ID this and earlier processes issued
    ghost var history: seq<Event>  // the events of this process, in the order of their IDs
    ghost var faults: seq<Fault> // what the system has refused this process

    ghost function View(): Mem
      reads this
    {
      Mem(epoch, sequence, reservedThrough, revision, savedRevision, needsBackup, Contents())
    }

    function Contents(): Content
      reads this`recent, this`recipients, this`pending, this`closed, this`health
    {
      Content(recent, recipients, pending, closed, health)
    }

    ghost predicate Valid()
      reads this
    {
      && StoreOK(View(), disk, issued, drawn)
      && |backlog| <= MAX_RECENT && (serving ==> loaded) && (!loaded ==> View() == NEW_MEM)
      && (serving ==> Tidy(Contents()))
    }

    /** Nothing is unsaved: a process that starts now has all that this one has. */
    ghost predicate AllSaved()
      reads this
    {
      InFile(View(), disk)
    }

    lemma IsLoaded()
      requires Valid() && serving
      ensures loaded
    {}

    lemma Counts()
      requires Valid()
      ensures sequence <= reservedThrough <= MAX_UINT64
    {
      StoreCounts(View(), disk, issued, drawn);
    }

    /** newStore: empty, over whatever file is there. */
    constructor (disk: R.Disk, drawn: string, ghost issued: Issued)
      requires ValidEpoch(drawn) && DiskSafe(disk, issued)
      requires forall id | id in issued :: id.epoch != drawn && id.epoch != ""
      requires disk.File? ==> disk.s.epoch != drawn
      ensures Valid() && View() == NEW_MEM && !serving && !loaded && backlog == [] && history == [] && faults == []
      ensures this.disk == disk && this.issued == issued && this.drawn == drawn
    {
      epoch, sequence, reservedThrough, revision, savedRevision := "", 0, SEQUENCE_RESERVE, 1, 0;
      needsBackup, recent, recipients, pending, closed, health := false, [], map[], map[], map[], map[];
      serving, loaded, backlog := false, false, [];
      this.disk, this.drawn, this.issued, this.history, this.faults := disk, drawn, issued, [], [];
    }

    // -------------------------------------------------------------- sections under mu

    method SetLists(c: Content)
      requires c.recipients == Contents().recipients && c.health == Contents().health
      modifies this`recent, this`closed, this`pending
      ensures Contents() == c
    {
      recent, closed, pending := c.recent, c.closed, c.pending;
    }

    /** pruneLocked: the revision moves if any of the three lists did. */
    method PruneLocked(at: int)
      requires Valid() && loaded
      modifies this`recent, this`closed, this`pending, this`revision
      ensures Valid() && View() == Prune(old(View()), at) && Tidy(Contents())
    {
      hide StoreOK, PruneContent, Contents, Tidy;
      ghost var m := View();
      var kept, changed := PruneLists(Contents(), at);
      if changed {
        revision := revision + 1;
      }
      SetLists(kept);
      PruneOK(m, at, disk, issued, drawn);
    }

    /** appendEventLocked. The caller has reserved the ID. */
    method AppendEventLocked(text: string, at: int) returns (id: EventID)
      requires Valid() && loaded && R.CanAppend(View())
      modifies this`sequence, this`recent, this`closed, this`pending, this`revision, this`issued, this`history
      ensures Valid() && View() == Append(old(View()), text, at)
      ensures id == EventID(epoch, sequence) && sequence == old(sequence) + 1
      ensures issued == old(issued)[id := Event(id, at, text)] && id !in old(issued)
      ensures history == old(history) + [Event(id, at, text)]
    {
      hide StoreOK, Append, Contents, Tidy;
      AppendOK(View(), text, at, disk, issued, drawn);
      AppendTidies(View(), text, at);
      var event := AppendQueues(text, at);
      issued, history := issued[event.id := event], history + [event];
      id := event.id;
    }

    method AppendQueues(text: string, at: int) returns (event: Event)
      modifies this`sequence, this`recent, this`closed, this`pending, this`revision
      ensures View() == Append(old(View()), text, at) && event == NextEvent(old(View()), text, at)
    {
      hide PruneContent, AppendContent, Append, Contents;
      ghost var m := View();
      var c := Contents();
      event := Event(EventID(epoch, sequence + 1), at, text);
      var queues := QueueEvent(c, event);
      var next := c.(recent := c.recent + [event], pending := queues);
      AppendIs(m, text, at, next);
      var kept, changed := PruneLists(next, at);
      sequence, revision := sequence + 1, revision + if changed then 2 else 1;
      SetLists(kept);
    }

    /** deferLocked: the newest texts wait, as many as there is room for. */
    method DeferLocked(text: string, at: int)
      requires |backlog| <= MAX_RECENT
      modifies this`backlog
      ensures backlog == LastOf(old(backlog) + [Text(text, at)], MAX_RECENT)
    {
      LastOfNext(backlog, Text(text, at), MAX_RECENT);
      if |backlog| == MAX_RECENT {
        backlog := backlog[1..] + [Text(text, at)];
      } else {
        backlog := backlog + [Text(text, at)];
      }
    }

    /** ensureEpoch: the draw of random bytes may fail. */
    method EnsureEpoch() returns (ok: bool)
      requires Valid() && loaded
      modifies this`epoch, this`revision, this`faults
      ensures Valid()
      ensures ok <==> epoch != ""
      ensures View() == Identified(old(View()), epoch)
      ensures faults == old(faults) + if ok then [] else [NoRandom]
    {
      hide StoreOK;
      if epoch != "" { return true; }
      var read: bool := *;
      if !read {
        faults := faults + [NoRandom];
        return false;
      }
      ghost var m := View();
      IdentifyOK(m, disk, issued, drawn);
      epoch := drawn;
      revision := revision + 1;
      assert epoch != "" by { DrawnIs(m, disk, issued, drawn); }
      return true;
    }

    /** Ack's section. */
    method AckSection(chat: int, id: EventID, at: int)
      requires Valid() && loaded
      modifies this`recent, this`closed, this`pending, this`revision
      ensures Valid() && View() == Events.Ack(old(View()), chat, id, at)
    {
      hide StoreOK, AckPending, AckClosed, Events.Ack, Prune, Contents, Tidy;
      ghost var m := View();
      AckOK(m, chat, id, at, disk, issued, drawn);
      PruneLocked(at);
      ghost var p := View();
      var c, changed := Settle(Contents(), chat, id);
      AckIs(m, p, at, c, chat, id);
      SetLists(c);
      if changed {
        revision := revision + 1;
      }
    }

    /** ReplaceRecipients' section. */
    method ReplaceSection(list: seq<Recipient>, at: int)
      requires Valid() && loaded
      modifies this`recent, this`closed, this`pending, this`recipients, this`revision
      ensures Valid() && View() == Replace(old(View()), list, at)
    {
      hide StoreOK, Replace, Prune, Earliest, ContentOK, NonEmpty, ReplacedQueues, Tidy;
      ghost var m := View();
      ReplaceOK(m, list, at, disk, issued, drawn);
      var next := L.EarliestOf(list);
      PruneLocked(at);
      assert ContentOK(Contents(), epoch, sequence, issued) by { StoreContent(View(), disk, issued, drawn); }
      EarliestChats(list);
      var queues := NewQueues(Contents(), next, at, epoch, sequence, issued);
      ReplaceIs(m, View(), list, at, queues);
      SetRecipients(next, queues);
      assert View() == Replace(m, list, at);
      hide View;
    }

    method SetRecipients(next: map<int, Recipient>, queues: map<int, seq<Event>>)
      modifies this`pending, this`recipients, this`revision
      ensures recipients == next && pending == queues
      ensures revision == old(revision) + if old(recipients) != next || old(pending) != queues then 1 else 0
    {
      var changed := recipients != next || pending != queues;
      recipients, pending := next, queues;
      if changed {
        revision := revision + 1;
      }
    }

    /** ObserveSubscriptions' last section: the whole batch has its IDs. */
    method BatchSection(current: set<string>, updates: seq<Update>, at: int)
      requires Valid() && loaded && epoch != ""
      requires EventCount(updates) <= reservedThrough - sequence
      modifies this`sequence, this`recent, this`closed, this`pending, this`health, this`revision, this`issued,
          this`history
      ensures Valid() && View() == HealthBatch(old(View()), current, updates, at)
      ensures sequence == old(sequence) + EventCount(updates)
      ensures history == old(history) + Given(Announced(updates, at), epoch, old(sequence))
    {
      hide StoreOK, ApplyUpdate, ApplyUpdates, EventCount, DropHealth, Announced, Given, Tidy;
      DropRecords(current);
      ghost var dropped := View();
      DropCounts(old(View()), current);
      BatchStarts(dropped, updates, at);
      NoneAnnounced(updates, at, epoch, sequence, history);
      for i := 0 to |updates|
        invariant Valid() && loaded && epoch != "" && reservedThrough == old(reservedThrough)
        invariant View() == ApplyUpdates(dropped, updates[..i], at)
        invariant EventCount(updates) <= reservedThrough - old(sequence)
        invariant sequence == old(sequence) + EventCount(updates[..i])
        invariant history == old(history) + Given(Announced(updates[..i], at), epoch, old(sequence))
      {
        BatchStep(dropped, updates, i, at);
        AnnouncedOne(updates, i, at, epoch, old(sequence), old(history));
        ApplyOne(updates[i], at);
      }
      assert updates[..|updates|] == updates;
    }

    /** One update: the record, and its event if it has one. */
    method ApplyOne(u: Update, at: int)
      requires Valid() && loaded && epoch != "" && (u.text != "" ==> sequence < reservedThrough)
      modifies this`sequence, this`recent, this`closed, this`pending, this`health, this`revision, this`issued,
          this`history
      ensures Valid() && View() == ApplyUpdate(old(View()), u, at)
      ensures sequence == old(sequence) + if u.text == "" then 0 else 1
      ensures history == old(history) + if u.text == "" then [] else [Event(EventID(epoch, sequence), at, u.text)]
    {
      hide StoreOK, Append, Tidy;
      ghost var before := View();
      health := health[u.id := Known(u.available)];
      revision := revision + 1;
      HealthOK(before, View(), disk, issued, drawn);
      if u.text != "" {
        var id := AppendEventLocked(u.text, at);
      }
    }

    method DropRecords(current: set<string>)
      requires Valid()  && loaded
      modifies this`health, this`revision
      ensures Valid() && View() == DropHealth(old(View()), current)
    {
      hide StoreOK, DropHealth, Tidy;
      ghost var m := View();
      var kept, gone := Dropped(health, current);
      health, revision := kept, revision + gone;
      DropIs(m, current);
      HealthOK(m, View(), disk, issued, drawn);
    }

    // -------------------------------------------------------------- saves

    /** saveLocked. The write may fail, or replace the file and report failure. */
    method SaveLocked(reserve: nat, at: int) returns (e: Error)
      requires Valid() && loaded
      modifies this`epoch, this`recent, this`closed, this`pending, this`revision, this`savedRevision,
               this`reservedThrough, this`needsBackup, this`disk, this`faults
      ensures Valid() && e in {NoError, IdentityError, SequenceError, WriteError}
      ensures faults == old(faults) + FaultOf(e)
      ensures e == IdentityError <==> epoch == ""
      ensures e == SequenceError <==> epoch != "" && reserve > MAX_UINT64 - sequence
      ensures e == NoError ==> AllSaved() && reserve <= reservedThrough - sequence
      ensures e == NoError && sequence < MAX_UINT64 ==> sequence < reservedThrough
      ensures Contents() == if epoch == "" then old(Contents()) else PruneContent(old(Contents()), at)
      ensures disk != old(disk) ==> disk == R.File(ToSave(Prune(Identified(old(View()), epoch), at), reserve))
      ensures Still(old(View()), View())
    {
      hide StoreOK, InFile, PruneContent, Snapshot, ToSave, Prune, Contents, Still, NothingToSave, SaveDone, Tidy;
      ghost var m := View();
      Unidentified(m);
      StillSame(m);
      var ok := EnsureEpoch();
      if !ok { return IdentityError; }
      PruneParts(View(), at);
      PruneLocked(at);
      ghost var p := View();
      StillSaved(m, p, at);
      if reserve > MAX_UINT64 - sequence { return SequenceError; }
      e := WriteState(reserve);
      StillCounts(m, p, View());
    }

    /** The part of saveLocked after the tests that refuse. */
    method WriteState(reserve: nat) returns (e: Error)
      requires Valid() && loaded && epoch != "" && reserve <= MAX_UINT64 - sequence
      modifies this`savedRevision, this`reservedThrough, this`needsBackup, this`disk, this`faults
      ensures Valid() && e in {NoError, WriteError}
      ensures faults == old(faults) + FaultOf(e)
      ensures e == NoError ==> AllSaved() && reserve <= reservedThrough - sequence
      ensures e == NoError && sequence < MAX_UINT64 ==> sequence < reservedThrough
      ensures disk == old(disk) || disk == R.File(ToSave(old(View()), reserve))
    {
      hide StoreOK, InFile, Snapshot, ToSave, Contents, SaveDone, Tidy;
      ghost var p := View();
      if NothingUnsaved(reserve) {
        SavedIs(p, reserve, disk, issued, drawn);
        return NoError;
      }
      var state := SnapshotLocked(reserve);
      e := WriteFile(state, reserve);
    }

    /** The write: it may fail, or replace the file and report failure. */
    method WriteFile(state: Saved, ghost reserve: nat) returns (e: Error)
      requires Valid() && loaded && epoch != "" && reserve <= MAX_UINT64 - sequence && state == ToSave(View(), reserve)
      modifies this`savedRevision, this`reservedThrough, this`needsBackup, this`disk, this`faults
      ensures Valid() && e in {NoError, WriteError}
      ensures faults == old(faults) + FaultOf(e)
      ensures e == NoError ==> AllSaved() && reserve <= reservedThrough - sequence
      ensures e == NoError && sequence < MAX_UINT64 ==> sequence < reservedThrough
      ensures disk == old(disk) || disk == R.File(state)
    {
      hide StoreOK, InFile, Snapshot, ToSave, Contents, SaveDone, Tidy;
      ghost var p := View();
      SaveOK(p, reserve, disk, issued, drawn);
      var outcome: R.Outcome := *;
      match outcome
      case Failed(backedUp) =>
        needsBackup, faults := needsBackup && !backedUp, faults + [NoWrite];
        SaveEnds(p, View(), disk, issued, drawn);
        return WriteError;
      case Half =>
        needsBackup, disk, faults := false, R.File(state), faults + [NoWrite];
        SaveEnds(p, View(), disk, issued, drawn);
        return WriteError;
      case Done =>
        needsBackup, disk := false, R.File(state);
        savedRevision, reservedThrough := revision, Max(reservedThrough, state.reserved);
        SaveIsDone(p, state);
        SaveEnds(SaveDone(p, state, p.revision), View(), disk, issued, drawn);
        return NoError;
    }

    predicate NothingUnsaved(reserve: nat)
      reads this
    {
      var reserveNeeded := sequence >= reservedThrough && sequence != MAX_UINT64;
      var leaseNeeded := reserve > 0 && (sequence >= reservedThrough || reserve > reservedThrough - sequence);
      revision == savedRevision && !(reserveNeeded || leaseNeeded) && !needsBackup
    }

    /** snapshotLocked, with at least `reserve` IDs ahead, and as many as a save is to
        leave room for while the counter has them. */
    method SnapshotLocked(reserve: nat) returns (s: Saved)
      ensures s == ToSave(View(), reserve)
      ensures s.epoch == epoch && s.sequence == sequence && s.c == Contents() && s.reserved >= sequence + reserve
      ensures sequence + SEQUENCE_RESERVE <= MAX_UINT64 ==> s.reserved >= sequence + SEQUENCE_RESERVE
      ensures sequence + SEQUENCE_RESERVE > MAX_UINT64 ==> s.reserved >= MAX_UINT64
    {
      var reserved := MAX_UINT64;
      if sequence <= MAX_UINT64 - SEQUENCE_RESERVE {
        reserved := Max(reservedThrough, sequence + SEQUENCE_RESERVE);
      }
      s := Saved(1, epoch, sequence, Max(reserved, sequence + reserve), Contents());
    }

    method TakeFrom(s: Saved)
      requires revision == 1 && !needsBackup
      modifies this`epoch, this`sequence, this`reservedThrough, this`savedRevision, this`revision,
               this`recent, this`recipients, this`pending, this`closed, this`health
      ensures View() == Restored(s)
    {
      epoch, sequence, reservedThrough, savedRevision := s.epoch, s.reserved, s.reserved, revision;
      recent, recipients, pending, closed, health := s.c.recent, s.c.recipients, s.c.pending, s.c.closed, s.c.health;
      if s.sequence != sequence {
        revision := revision + 1;
      }
    }

    /** restore: a file that does not read or is not valid is left for a backup. */
    method Restore() returns (ghost read: bool)
      requires Valid() && !loaded
      modifies this
      ensures Valid() && loaded && View() == R.Loaded(disk, read)
      ensures faults == old(faults) + if disk.File? && ValidSaved(disk.s) && !read then [NoRead] else []
      ensures serving == old(serving) && backlog == old(backlog) && disk == old(disk)
      ensures issued == old(issued) && history == old(history)
    {
      hide StoreOK, ValidSaved, Restored, Contents, Tidy;
      ghost var m := View();
      loaded, read := true, false;
      match disk {
        case Missing =>
        case Damaged => needsBackup := true;
        case File(s) =>
          LoadedIs(disk, s);
          var readable: bool := *;
          var valid := L.ValidSavedState(s);
          if readable && valid {
            TakeFrom(s);
            read := true;
          } else {
            needsBackup := true;
            if valid { faults := faults + [NoRead]; }
          }
      }
      LoadOK(m, disk, read, issued, drawn);
    }

    /** load: restore, then an identity if there is none, then prune. */
    method Load(at: int) returns (ghost from: nat)
      requires Valid() && !loaded
      modifies this
      ensures Valid() && loaded && sequence == from && Tidy(Contents()) && old(faults) <= faults
      ensures from == 0 || (disk.File? && from == disk.s.reserved)
      ensures faults == old(faults) ==> epoch != ""
      ensures faults == old(faults) && disk.File? && ValidSaved(disk.s) ==>
                from == disk.s.reserved && epoch == disk.s.epoch && Contents() == PruneContent(disk.s.c, at)
      ensures serving == old(serving) && backlog == old(backlog) && disk == old(disk)
      ensures issued == old(issued) && history == old(history)
    {
      hide StoreOK, ValidSaved, Restored, Prune, Contents, Tidy, PruneContent;
      ghost var read := Restore();
      if disk.File? && ValidSaved(disk.s) { ValidHasEpoch(disk.s); }
      from := sequence;
      var ok := EnsureEpoch();
      PruneParts(View(), at);
      PruneLocked(at);
    }

    // -------------------------------------------------------------- texts and their IDs

    /** The save of publishAt: a whole flush for Publish, a bare save for a drain. */
    method SaveVia(flush: bool) returns (e: Error, ghost saved: int)
      requires Valid() && loaded && (flush ==> serving && backlog == [])
      modifies this
      ensures Valid() && loaded && serving == old(serving) && backlog == old(backlog)
      ensures recipients == old(recipients) && health == old(health) && Still(old(View()), View())
      ensures sequence == old(sequence) && issued == old(issued) && history == old(history)
      ensures old(epoch) != "" ==> epoch == old(epoch)
      ensures Contents() == if epoch == "" then old(Contents()) else PruneContent(old(Contents()), saved)
      ensures e in {NoError, IdentityError, WriteError} && (e == IdentityError <==> epoch == "")
      ensures faults == old(faults) + FaultOf(e)
      ensures e == NoError ==> AllSaved() && (sequence < MAX_UINT64 ==> sequence < reservedThrough)
      decreases if flush then 2 else 0, if flush then 2 else 0
    {
      hide StoreOK, InFile, PruneContent, Gone, ToSave, Contents, Tidy;
      StoreCounts(View(), disk, issued, drawn);
      if flush {
        ghost var n;
        NothingGiven(history, backlog, epoch, sequence);
        e, n, saved := Flush();
      } else {
        var now: int := *;
        saved := now;
        e := SaveLocked(0, now);
      }
    }

    /** The loop of publishAt: until there is an ID left, a save leases more. With IDs
        left it answers at once; it fails only without an identity, at the end of the
        counter, or when the reserve is spent and the save that would lease more fails. */
    method Lease(at: int, flush: bool) returns (e: Error, ghost leased: int)
      requires Valid() && loaded && (flush ==> serving && backlog == [])
      modifies this
      ensures Valid() && loaded && serving == old(serving) && backlog == old(backlog)
      ensures recipients == old(recipients) && health == old(health) && Still(old(View()), View())
      ensures sequence == old(sequence) && issued == old(issued) && history == old(history)
      ensures if e == NoError then R.CanAppend(View()) else e in {IdentityError, SequenceError, ReserveUnsaved}
      ensures e == IdentityError <==> epoch == ""
      ensures e == SequenceError <==> epoch != "" && sequence == MAX_UINT64
      ensures e == ReserveUnsaved ==> old(sequence) >= old(reservedThrough)
      ensures faults == old(faults) + FaultOf(e)
      ensures old(epoch) != "" && old(sequence) < old(reservedThrough) ==>
                e == NoError && leased == at && disk == old(disk)
      ensures e == NoError && old(Tidy(Contents())) ==> OnlyAged(old(Contents()), Contents(), at, leased)
      decreases if flush then 3 else 0, 2
    {
      hide StoreOK, InFile, Prune, Contents, PruneContent, Still, OnlyAged, Tidy, Leasing, Valid;
      e, leased := NoError, at;
      Counts();
      LeaseStarts(Contents(), at);
      var ok := EnsureEpoch();
      StillIdentified(old(View()), View());
      if !ok { return IdentityError, at; }
      var done := false;
      ghost var retried := false;
      while !done
        invariant Valid() && loaded && epoch != "" && serving == old(serving) && backlog == old(backlog)
        invariant recipients == old(recipients) && health == old(health) && Still(old(View()), View())
        invariant sequence == old(sequence) <= MAX_UINT64 && issued == old(issued) && history == old(history)
        invariant faults == old(faults) + FaultOf(e)
        invariant if e == NoError then done ==> sequence < reservedThrough
                  else done && e in {SequenceError, ReserveUnsaved}
        invariant e == SequenceError ==> sequence == MAX_UINT64
        invariant e == ReserveUnsaved ==> sequence < MAX_UINT64
        invariant retried || e == ReserveUnsaved ==> old(sequence) >= old(reservedThrough)
        invariant !retried && (!done || e == NoError) ==>
                    leased == at && reservedThrough == old(reservedThrough) && disk == old(disk)
        invariant retried && sequence < MAX_UINT64 ==> sequence < reservedThrough
        invariant e == NoError ==> Leasing(old(Contents()), Contents(), at, leased, retried || done)
        decreases !done, !retried
      {
        ghost var m := View();
        ghost var when;
        e, done, when := LeaseOnce(at, flush);
        StillTwice(old(View()), m, View());
        if e == NoError { LeaseGoesOn(old(Contents()), m.c, Contents(), at, leased, when, retried); }
        if !done { retried, leased := true, when; }
      }
      Counts();
      if e == NoError && old(Tidy(Contents())) { LeaseEnds(old(Contents()), Contents(), at, leased); }
    }

    /** One round of that loop: an ID is left, or a save leases more. */
    method LeaseOnce(at: int, flush: bool) returns (e: Error, done: bool, ghost leased: int)
      requires Valid() && loaded && epoch != "" && (flush ==> serving && backlog == [])
      modifies this
      ensures Valid() && loaded && epoch == old(epoch) && serving == old(serving) && backlog == old(backlog)
      ensures recipients == old(recipients) && health == old(health) && Still(old(View()), View())
      ensures sequence == old(sequence) && issued == old(issued) && history == old(history)
      ensures faults == old(faults) + FaultOf(e) && e in {NoError, SequenceError, ReserveUnsaved}
      ensures e == SequenceError <==> sequence == MAX_UINT64
      ensures old(sequence) < old(reservedThrough) ==> e == NoError && done
      ensures done && e == NoError ==>
                && leased == at && disk == old(disk) && reservedThrough == old(reservedThrough)
                && sequence < reservedThrough
      ensures !done ==> e == NoError && old(sequence) >= old(reservedThrough) && sequence < reservedThrough
      ensures e == NoError && old(Tidy(Contents())) ==>
                Tidy(Contents()) && OnlyAged(old(Contents()), Contents(), at, leased)
      decreases if flush then 3 else 0, 1
    {
      hide StoreOK, InFile, Prune, Contents, PruneContent, Still, OnlyAged, Tidy, AllSaved;
      leased := at;
      ghost var m := View();
      PruneParts(m, at);
      StillSame(m);
      PruneLocked(at);
      StillPruned(m, m, at);
      Counts();
      if old(Tidy(Contents())) { PruneAges(m.c, at); }
      if sequence == MAX_UINT64 { return SequenceError, true, at; }
      if sequence < reservedThrough { return NoError, true, at; }
      ghost var p := View();
      e, leased := SaveVia(flush);
      StillTwice(m, p, View());
      StillHas(m, View());
      if e != NoError { return ReserveUnsaved, true, leased; }
      if old(Tidy(Contents())) {
        PruneAges(p.c, leased);
        PruneTidies(p.c, leased);
        AgesOn(old(Contents()), p.c, Contents(), at, leased);
      }
      done := false;
    }

    /** publishAt: lease an ID, append the text as an event and save. With
        `flush`, the saves also drain the backlog. */
    method PublishAt(text: string, at: int, flush: bool)
      returns (id: MaybeID, e: Error, ghost leased: int, ghost saved: int)
      requires Valid() && loaded && (flush ==> serving && backlog == [])
      modifies this
      ensures Valid() && loaded && serving == old(serving) && backlog == old(backlog)
      ensures recipients == old(recipients) && health == old(health) && Still(old(View()), View())
      ensures if id.NoID? then e in {IdentityError, SequenceError, ReserveUnsaved} else e in {NoError, WriteError}
      ensures e == IdentityError <==> epoch == ""
      ensures e == SequenceError <==> epoch != "" && old(sequence) == MAX_UINT64
      ensures e == ReserveUnsaved ==> old(sequence) >= old(reservedThrough)
      ensures faults == old(faults) + FaultOf(e)
      ensures old(epoch) != "" && old(sequence) < old(reservedThrough) ==> id.ID? && leased == at
      ensures id.NoID? ==> sequence == old(sequence) && issued == old(issued) && history == old(history)
      ensures id.ID? ==> sequence == old(sequence) + 1 && id.id == EventID(epoch, sequence) && id.id !in old(issued)
      ensures id.ID? ==> history == old(history) + [Event(id.id, at, text)]
      ensures id.ID? ==> issued == old(issued)[id.id := Event(id.id, at, text)]
      ensures id.ID? && old(Tidy(Contents())) ==>
                Joined(old(Contents()), Contents(), Event(id.id, at, text), leased, saved)
      ensures e == NoError ==> AllSaved() && (sequence < MAX_UINT64 ==> sequence < reservedThrough)
      decreases if flush then 3 else 0, 3
    {
      hide StoreOK, InFile, Append, Contents, Still, Tidy, OnlyAged, Joined, PruneContent;
      saved := at;
      e, leased := Lease(at, flush);
      if e != NoError { return NoID, e, leased, at; }
      ghost var m, leasedDisk := View(), disk;
      StillHas(old(View()), m);
      if old(Tidy(Contents())) { AppendTidies(m, text, at); }
      var got := AppendEventLocked(text, at);
      StillAppended(old(View()), m, text, at);
      ghost var p := View();
      e, saved := SaveVia(flush);
      StillTwice(old(View()), p, View());
      if old(Tidy(Contents())) {
        AppendSaved(old(View()), m, text, at, leased, saved, old(disk), leasedDisk, old(issued), drawn);
      }
      id := ID(got);
    }

    /** drainLocked: the waiting texts get IDs in their order, the first n of
        them before a save that fails; with an ID left at least one of them gets it. */
    method Drain() returns (e: Error, ghost n: nat)
      requires Valid() && loaded
      modifies this
      ensures Valid() && loaded && serving == old(serving)
      ensures recipients == old(recipients) && health == old(health) && Still(old(View()), View())
      ensures n <= |old(backlog)| && backlog == old(backlog)[n..] && sequence == old(sequence) + n
      ensures history == old(history) + Given(old(backlog)[..n], epoch, old(sequence))
      ensures n == 0 ==> issued == old(issued)
      ensures faults == old(faults) + FaultOf(e)
      ensures e in {NoError, IdentityError, SequenceError, WriteError, ReserveUnsaved}
      ensures e == NoError ==> backlog == []
      ensures old(backlog) == [] ==> e == NoError
      ensures old(backlog) != [] && old(epoch) != "" && old(sequence) < old(reservedThrough) ==> n >= 1
      ensures e == IdentityError ==> n == 0 && epoch == ""
      ensures e == SequenceError ==> epoch != "" && sequence == MAX_UINT64 && backlog != []
      ensures e == ReserveUnsaved ==> n == 0 && old(sequence) >= old(reservedThrough) && sequence < MAX_UINT64
      ensures e == WriteError ==> n >= 1
      ensures e == NoError && n == 0 ==> View() == old(View()) && disk == old(disk)
      ensures e == NoError && n > 0 ==> AllSaved() && (sequence < MAX_UINT64 ==> sequence < reservedThrough)
      decreases 1, 0
    {
      hide StoreOK, InFile, Contents, Still, Tidy, Valid;
      n, e := 0, NoError;
      StillSame(View());
      while |backlog| > 0
        invariant Valid() && loaded && serving == old(serving)
        invariant recipients == old(recipients) && health == old(health) && Still(old(View()), View())
        invariant n <= |old(backlog)| && backlog == old(backlog)[n..] && sequence == old(sequence) + n
        invariant history == old(history) + Given(old(backlog)[..n], epoch, old(sequence))
        invariant faults == old(faults) && e == NoError
        invariant n == 0 ==> issued == old(issued) && View() == old(View()) && disk == old(disk)
        invariant n > 0 ==> AllSaved() && (sequence < MAX_UINT64 ==> sequence < reservedThrough) && epoch != ""
        decreases |backlog|
      {
        ghost var m := View();
        GivenOneMore(old(backlog), n, epoch, old(sequence), old(history));
        Counts();
        ghost var k;
        e, k := DrainOne();
        StillTwice(old(View()), m, View());
        StillHas(m, View());
        SameEpoch(m, View(), n, old(backlog), old(sequence));
        GivenOneMore(old(backlog), n, epoch, old(sequence), old(history));
        n := n + k;
        if e != NoError { return e, n; }
      }
    }

    /** One round of drainLocked: the oldest waiting text leaves with an ID, or stays. */
    method DrainOne() returns (e: Error, ghost k: nat)
      requires Valid() && loaded && backlog != []
      modifies this
      ensures Valid() && loaded && serving == old(serving)
      ensures recipients == old(recipients) && health == old(health) && Still(old(View()), View())
      ensures k == (if e in {NoError, WriteError} then 1 else 0)
      ensures backlog == old(backlog)[k..] && sequence == old(sequence) + k
      ensures history == old(history) + if k == 0 then []
              else [Event(EventID(epoch, sequence), old(backlog)[0].at, old(backlog)[0].text)]
      ensures k == 0 ==> issued == old(issued)
      ensures faults == old(faults) + FaultOf(e)
      ensures e in {NoError, IdentityError, SequenceError, WriteError, ReserveUnsaved}
      ensures e == IdentityError <==> epoch == ""
      ensures e == SequenceError <==> epoch != "" && old(sequence) == MAX_UINT64
      ensures e == ReserveUnsaved ==> old(sequence) >= old(reservedThrough)
      ensures old(epoch) != "" && old(sequence) < old(reservedThrough) ==> k == 1
      ensures e == NoError ==> AllSaved() && (sequence < MAX_UINT64 ==> sequence < reservedThrough)
      decreases 0, 4
    {
      hide StoreOK, InFile, Contents, Still, Tidy, Joined;
      k := 0;
      var event := backlog[0];
      ghost var leased, saved;
      var id;
      Counts();
      id, e, leased, saved := PublishAt(event.text, event.at, false);
      if id.ID? {
        if |backlog| > 0 && backlog[0].text == event.text && backlog[0].at == event.at {
          backlog := backlog[1..];
        }
        k := 1;
      }
    }

    /** How a flush answers: an error is what the system refused, or the end of the
        counter, and then texts wait or IDs are asked for. */
    ghost predicate Answered(e: Error, reserve: nat, waiting: seq<Text>, faultsBefore: seq<Fault>)
      reads this
    {
      && e in {NoError, IdentityError, SequenceError, WriteError}
      && faults == faultsBefore + FaultOf(e)
      && (e == IdentityError <==> epoch == "")
      && (e == SequenceError ==>
            reserve > MAX_UINT64 - sequence || (sequence == MAX_UINT64 && waiting != [] && backlog != []))
    }

    /** What a flush leaves: n of the waiting texts have IDs, from `from` on. */
    ghost predicate Flushed(reserve: nat, n: nat, e: Error, m: Mem, from: nat, waiting: seq<Text>,
                            before: seq<Event>, issuedBefore: Issued)
      reads this
    {
      && Valid() && loaded && serving && Still(m, View())
      && n <= |waiting| && backlog == waiting[n..] && sequence == from + n
      && history == before + Given(waiting[..n], epoch, from)
      && (n == 0 ==> issued == issuedBefore)
      && (e == NoError ==> backlog == [] && AllSaved() && (sequence < MAX_UINT64 ==> sequence < reservedThrough))
      && (e == NoError && n == 0 ==> reserve <= reservedThrough - sequence)
    }

    method Flush() returns (e: Error, ghost n: nat, ghost now: int)
      requires Valid() && serving
      modifies this
      ensures Flushed(0, n, e, old(View()), old(sequence), old(backlog), old(history), old(issued))
      ensures Answered(e, 0, old(backlog), old(faults))
      ensures recipients == old(recipients) && health == old(health)
      ensures old(backlog) == [] ==> Contents() == if epoch == "" then old(Contents())
              else PruneContent(old(Contents()), now)
      decreases 2, 1
    {
      ghost var from;
      e, n, from, now := FlushForEvents(0);
    }

    /** flushForEvents: opens a store that is not open yet, saves, and gives the
        waiting texts their IDs. */
    method FlushForEvents(reserve: nat) returns (e: Error, ghost n: nat, ghost from: nat, ghost now: int)
      requires Valid() && (serving || !loaded)
      modifies this
      ensures old(serving) ==> from == old(sequence) && recipients == old(recipients) && health == old(health)
      ensures old(serving) ==> Flushed(reserve, n, e, old(View()), from, old(backlog), old(history), old(issued))
      ensures old(serving) ==> Answered(e, reserve, old(backlog), old(faults))
      ensures old(serving) && old(backlog) == [] ==>
                Contents() == if epoch == "" then old(Contents()) else PruneContent(old(Contents()), now)
      ensures !old(serving) ==> Opened(e, n, from, old(disk), old(backlog), old(history), old(faults))
      decreases 2, 0
    {
      hide StoreOK, InFile, Contents, Still, PruneContent, Tidy, Valid, Opened;
      now := 0;
      if !serving {
        e, n, from := OpenLocked();
        return;
      }
      e, n, now := FlushOpen(reserve);
      from := old(sequence);
    }

    /** The part for a store that is open. */
    method FlushOpen(reserve: nat) returns (e: Error, ghost n: nat, ghost now: int)
      requires Valid() && serving
      modifies this
      ensures recipients == old(recipients) && health == old(health)
      ensures Flushed(reserve, n, e, old(View()), old(sequence), old(backlog), old(history), old(issued))
      ensures Answered(e, reserve, old(backlog), old(faults))
      ensures old(backlog) == [] ==>
                Contents() == if epoch == "" then old(Contents()) else PruneContent(old(Contents()), now)
      decreases 1, 3
    {
      hide StoreOK, InFile, Contents, Still, PruneContent, Tidy, Valid;
      IsLoaded();
      n := 0;
      var at: int := *;
      now := at;
      e := SaveLocked(reserve, at);
      NothingGiven(history, backlog, epoch, sequence);
      Counts();
      if e != NoError { return; }
      ghost var m := View();
      e, n := Drain();
      StillTwice(old(View()), m, View());
      StillHas(m, View());
    }

    /** What an attempt to open leaves: the store unopened, its path refused, or open
        from the file or from nothing, with n of the waiting texts given IDs; if
        the system has refused nothing, from the file if it is valid. */
    ghost predicate Opened(e: Error, n: nat, from: nat, file: R.Disk, waiting: seq<Text>, before: seq<Event>,
                           faultsBefore: seq<Fault>)
      reads this
    {
      && Valid()
      && (!serving ==>
            && !loaded && e == Unavailable && backlog == waiting && history == before && disk == file
            && faults == faultsBefore + [NoPath])
      && (serving ==>
            && (from == 0 || (file.File? && from == file.s.reserved))
            && (faults == faultsBefore && file.File? && ValidSaved(file.s) ==>
                  from == file.s.reserved && epoch == file.s.epoch)
            && n <= |waiting| && backlog == waiting[n..] && sequence == from + n
            && history == before + Given(waiting[..n], epoch, from)
            && (e == NoError ==> backlog == [] && AllSaved())
            && (e != NoError && faults == faultsBefore ==>
                  e == SequenceError && sequence == MAX_UINT64 && backlog != []))
    }

    /** openLocked: the path is asked for until it is answered, then the store
        is open for the life of the process, whatever the saves say. */
    method OpenLocked() returns (e: Error, ghost n: nat, ghost from: nat)
      requires Valid() && !serving && !loaded
      modifies this
      ensures Opened(e, n, from, old(disk), old(backlog), old(history), old(faults))
      decreases 1, 2
    {
      hide StoreOK, InFile, Contents, Still, PruneContent, Tidy, ValidSaved;
      n, from := 0, 0;
      var answered: bool := *;
      if !answered {
        faults := faults + [NoPath];
        return Unavailable, 0, 0;
      }
      var at: int := *;
      from := Load(at);
      e, n := FirstDrain(at);
      serving := true;
      if e == NoError {
        NothingGiven(history, backlog, epoch, sequence);
        ghost var more;
        e, more := Drain();
      }
    }

    /** The first save of an opened store, and the drain after it. */
    method FirstDrain(at: int) returns (e: Error, ghost n: nat)
      requires Valid() && loaded && Tidy(Contents())
      modifies this
      ensures Valid() && loaded && serving == old(serving) && Tidy(Contents())
      ensures n <= |old(backlog)| && backlog == old(backlog)[n..] && sequence == old(sequence) + n
      ensures history == old(history) + Given(old(backlog)[..n], epoch, old(sequence))
      ensures old(epoch) != "" ==> epoch == old(epoch)
      ensures faults == old(faults) + FaultOf(e)
      ensures e in {NoError, IdentityError, SequenceError, WriteError}
      ensures e == SequenceError ==> sequence == MAX_UINT64 && backlog != []
      ensures e == NoError ==> backlog == [] && AllSaved()
      decreases 1, 1
    {
      hide StoreOK, InFile, Contents, Still, PruneContent, Tidy;
      n := 0;
      ghost var m := View();
      e := SaveLocked(0, at);
      NothingGiven(history, backlog, epoch, sequence);
      ghost var p := View();
      StoreCounts(p, disk, issued, drawn);
      if e == NoError {
        e, n := Drain();
        StillTwice(m, p, View());
      }
      StillHas(m, View());
    }

    /** Publish: a text waits behind those already waiting, or for the store to
        open; otherwise it gets its ID and joins the queues. Only where the reserve is
        spent and the save that would lease more has failed does it wait then. */
    method Publish(text: string, at: int) returns (id: MaybeID, e: Error, ghost leased: int, ghost saved: int)
      requires Valid() && (serving || !loaded)
      modifies this
      ensures Valid() && serving == old(serving)
      ensures !old(serving) || old(backlog) != [] ==>
                && e == Deferred && id == NoID && backlog == LastOf(old(backlog) + [Text(text, at)], MAX_RECENT)
                && View() == old(View()) && history == old(history) && disk == old(disk) && faults == old(faults)
      ensures old(serving) && old(backlog) == [] ==>
                && (if id.ID? then e in {NoError, WriteError} else e in {Deferred, IdentityError, SequenceError})
                && (e == IdentityError <==> epoch == "")
                && (e == SequenceError <==> epoch != "" && old(sequence) == MAX_UINT64)
                && (e == Deferred ==> old(sequence) >= old(reservedThrough))
                && faults == old(faults) + (if e == Deferred then [NoWrite] else FaultOf(e))
                && (old(epoch) != "" && old(sequence) < old(reservedThrough) ==> id.ID? && leased == at)
                && (e == NoError ==> AllSaved())
      ensures old(serving) && old(backlog) == [] && id.ID? ==>
                && backlog == [] && id.id !in old(issued) && sequence == old(sequence) + 1
                && history == old(history) + [Event(id.id, at, text)]
                && Joined(old(Contents()), Contents(), Event(id.id, at, text), leased, saved)
      ensures old(serving) && old(backlog) == [] && id.NoID? ==>
                && history == old(history) && sequence == old(sequence)
                && backlog == if e == Deferred then [Text(text, at)] else []
    {
      hide StoreOK, InFile, Contents, Still, Tidy, Joined;
      leased, saved := at, at;
      if !serving || |backlog| > 0 {
        DeferLocked(text, at);
        return NoID, Deferred, at, at;
      }
      id, e, leased, saved := PublishAt(text, at, true);
      if e == ReserveUnsaved {
        DeferLocked(text, at);
        return NoID, Deferred, leased, saved;
      }
    }

    // -------------------------------------------------------------- the other operations

    /** Ack. Accepted, the event is out of the chat's queue for good; with no
        error, the file says so too. With nothing waiting, all else stays where it
        was, but for what is too old at the ack or at the save. */
    method Ack(chat: int, id: EventID, at: int) returns (e: Error, ghost saved: int)
      requires Valid()
      modifies this
      ensures Valid() && serving == old(serving) && recipients == old(recipients) && health == old(health)
      ensures e == Unavailable <==> !old(serving)
      ensures e == BadEventID <==> old(serving) && !AckAllowed(old(View()), id)
      ensures e in {Unavailable, BadEventID} ==> View() == old(View()) && disk == old(disk) && backlog == old(backlog)
      ensures e !in {Unavailable, BadEventID} ==> Answered(e, 0, old(backlog), old(faults))
      ensures e !in {Unavailable, BadEventID} && old(epoch) != "" ==> Gone(Contents(), epoch, sequence, chat, id)
      ensures e !in {Unavailable, BadEventID} && old(backlog) == [] ==>
                forall chat' ::
                  Left(QueueOf(old(pending), chat'), QueueOf(pending, chat'), if chat' == chat then {id} else {}, at,
                       saved)
      ensures e == NoError ==> AllSaved() && backlog == []
    {
      hide StoreOK, InFile, Still, ValidEpoch, Events.Ack, Prune, PruneContent, Tidy, Left;
      saved := at;
      if !serving { return Unavailable, at; }
      if !ValidID(id) || (id.epoch == epoch && id.sequence > sequence) { return BadEventID, at; }
      ghost var m := View();
      AckMemTidies(m, chat, id, at);
      R.AckStamped(m, chat, id, at);
      AckSection(chat, id, at);
      ghost var acked := View();
      AckIsGone(m, chat, id, at);
      ghost var n;
      e, n, saved := Flush();
      if acked.epoch != "" { GoneStays(acked, View(), chat, id); }
      if old(backlog) == [] {
        EpochStays(acked, View());
        AckSaved(m, chat, id, at, saved, Contents(), old(disk), old(issued), drawn);
      }
    }

    /** ReplaceRecipients. With nothing waiting, each chat's queue is the last of what
        it may be given at the call, less what is too old when it is saved. */
    method ReplaceRecipients(list: seq<Recipient>, at: int) returns (e: Error, ghost saved: int)
      requires Valid()
      modifies this
      ensures Valid() && serving == old(serving) && health == old(health)
      ensures e == Unavailable <==> !old(serving)
      ensures !old(serving) ==> View() == old(View()) && disk == old(disk) && backlog == old(backlog)
      ensures old(serving) ==> recipients == Earliest(list) && Answered(e, 0, old(backlog), old(faults))
      ensures old(serving) && old(backlog) == [] ==>
                forall chat | chat in recipients ::
                  LastCandidates(old(Contents()), recipients[chat], QueueOf(pending, chat), at, saved)
      ensures old(serving) && e == NoError ==> AllSaved() && backlog == []
    {
      hide StoreOK, InFile, Still, Replace, Prune, PruneContent, Tidy, LastCandidates, Earliest;
      saved := at;
      if !serving { return Unavailable, at; }
      ghost var m := View();
      StoreContent(m, disk, issued, drawn);
      ReplaceMemTidies(m, list, at, issued);
      R.ReplaceStamped(m, list, at);
      ReplaceSection(list, at);
      ghost var replaced := View();
      ghost var n;
      e, n, saved := Flush();
      if old(backlog) == [] {
        EpochStays(replaced, View());
        ReplaceSaved(m, list, at, saved, Contents(), old(disk), old(issued), drawn);
      }
    }

    /** Pending: prunes, and answers one page. */
    method Pending(c: P.Cursor, at: int, sizes: P.Sizes)
      returns (open: bool, r: P.Result, ghost all: seq<P.Note>, ghost from: nat)
      requires Valid()
      modifies this`recent, this`closed, this`pending, this`revision
      ensures Valid() && open == serving
      ensures open ==> (r == P.BadCursor <==> !P.CursorOK(old(View()), c))
      ensures !open || r == P.BadCursor ==> View() == old(View())
      ensures open && r != P.BadCursor ==>
                && View() == Prune(old(View()), at) && OnlyAged(old(Contents()), Contents(), at, at)
                && P.AllOf(all, pending) && P.Begins(all, c, from)
                && (r.TooLarge? <==> from < |all| && !P.Fits(all, from, from, sizes))
                && (r.Ok? ==> P.PageFrom(all, from, epoch, sizes, r.page))
    {
      hide StoreOK, Prune, P.AllOf, P.Begins, P.PageFrom, P.Fits, P.Queued, Tidy, OnlyAged, PruneContent;
      all, from, open, r := [], 0, serving, P.BadCursor;
      if !serving { return; }
      match c {
        case Start =>
        case Malformed => return;
        case After(e, chat, s) =>
          if e != epoch || chat == 0 || s == 0 || s > sequence { return; }
      }
      QueuesArePaged(View(), at, disk, issued, drawn);
      PruneParts(View(), at);
      PruneAges(Contents(), at);
      PruneLocked(at);
      r, all, from := P.BuildPage(pending, epoch, c, sizes);
    }

    /** ObserveSubscriptions: leases the IDs of the whole batch, then changes the
        records and announces the changes in one section, then saves. The texts
        that wait get their IDs before or after it: the first `early` while IDs are
        leased, `more` of the others when it is saved. What is recorded and `heard`
        is what the first subscriptions of each ID, those at `from`, say. */
    method ObserveSubscriptions(subs: seq<Subscription>, stateOK: bool, at: int)
      returns (e: Error, ghost applied: bool, ghost heard: seq<Text>, ghost from: seq<nat>, ghost early: nat,
               ghost more: nat)
      requires Valid()
      modifies this
      ensures Valid() && serving == old(serving) && recipients == old(recipients)
      ensures e == Unavailable <==> !old(serving)
      ensures !old(serving) ==> !applied && View() == old(View()) && disk == old(disk)
      ensures applied ==> RecordsFrom(subs, stateOK, old(health), health)
      ensures !applied ==> health == old(health)
      ensures HeardFrom(subs, |subs|, stateOK, old(health), at, heard, from)
      ensures early + more <= |old(backlog)| && backlog == old(backlog)[early + more..]
      ensures history == old(history) + Given(Around(old(backlog), early, if applied then heard else [], more), epoch,
                                              old(sequence))
      ensures old(serving) ==> faults == old(faults) + FaultOf(e)
      ensures e in {NoError, Unavailable, IdentityError, SequenceError, WriteError}
      ensures e == IdentityError <==> old(serving) && epoch == ""
      ensures e == SequenceError ==>
                if applied then sequence == MAX_UINT64 && backlog != [] else |heard| > MAX_UINT64 - sequence
      ensures e == NoError ==> applied && AllSaved() && backlog == []
    {
      hide StoreOK, InFile, Still, Observations, Seen, UpdatesFor, HealthAfter, EventCount, HealthBatch, Retained,
        Given, Announced, Around, Contents, PruneContent, AllSaved, Tidy, HeardFrom, RecordsFrom;
      applied, early, more := false, 0, 0;
      from := Hears(subs, |subs|, stateOK, health, at);
      heard := Announced(UpdatesFor(health, Observations(subs, |subs|, stateOK)), at);
      RecordsAre(subs, stateOK, health);
      GivenEarly(history, backlog, 0, 0, epoch, sequence);
      NothingGiven(history, backlog, epoch, sequence);
      if !serving { return Unavailable, false, heard, from, 0, 0; }
      var ok := EnsureEpoch();
      var current, list := Observe(subs, stateOK);
      GivenEarly(history, backlog, 0, 0, epoch, sequence);
      NothingGiven(history, backlog, epoch, sequence);
      if !ok { return IdentityError, false, heard, from, 0, 0; }
      var updates;
      e, updates, early, more := LeasedUpdates(list);
      GivenEarly(old(history), old(backlog), early, more, epoch, old(sequence));
      if e != NoError { return e, false, heard, from, early, more; }
      applied := true;
      e, more := BatchAndFlush(current, updates, at);
      GivenAround(old(history), old(backlog), early, heard, more, epoch, old(sequence));
    }

    /** The loop of ObserveSubscriptions: until the IDs of the whole batch are leased. */
    method LeasedUpdates(list: seq<Observation>)
      returns (e: Error, updates: seq<Update>, ghost early: nat, ghost more: nat)
      requires Valid() && serving && epoch != ""
      modifies this
      ensures Valid() && serving && recipients == old(recipients) && health == old(health) && epoch == old(epoch)
      ensures early + more <= |old(backlog)| && backlog == old(backlog)[early + more..]
      ensures sequence == old(sequence) + early + more && (e == NoError ==> more == 0)
      ensures history == old(history) + Given(old(backlog)[..early + more], epoch, old(sequence))
      ensures e == NoError ==> updates == UpdatesFor(health, list) && EventCount(updates) <= reservedThrough - sequence
      ensures e in {NoError, SequenceError, WriteError} && faults == old(faults) + FaultOf(e)
      ensures e == SequenceError ==> EventCount(UpdatesFor(health, list)) > MAX_UINT64 - sequence
    {
      hide StoreOK, InFile, Still, UpdatesFor, EventCount, Given, Contents, AllSaved, Tidy;
      early, more, e := 0, 0, NoError;
      NothingGiven(history, backlog, epoch, sequence);
      while true
        invariant Valid() && serving && epoch == old(epoch) && recipients == old(recipients) && health == old(health)
        invariant early <= |old(backlog)| && backlog == old(backlog)[early..] && sequence == old(sequence) + early
        invariant faults == old(faults)
        invariant history == old(history) + Given(old(backlog)[..early], epoch, old(sequence))
        decreases |backlog|, EventCount(UpdatesFor(health, list)) > reservedThrough - sequence
      {
        var events;
        updates, events := Updates(health, list);
        if events > MAX_UINT64 - sequence { return SequenceError, updates, early, 0; }
        StoreCounts(View(), disk, issued, drawn);
        if !(events > 0 && (sequence >= reservedThrough || events > reservedThrough - sequence)) {
          return NoError, updates, early, 0;
        }
        ghost var n;
        e, n := LeaseBatch(events);
        GivenEarly(old(history), old(backlog), early, n, epoch, old(sequence));
        if e != NoError { return e, updates, early, n; }
        early := early + n;
      }
    }

    /** A flush that leases the IDs of a batch. */
    method LeaseBatch(events: nat) returns (e: Error, ghost n: nat)
      requires Valid() && serving && epoch != "" && 0 < events <= MAX_UINT64 - sequence
      modifies this
      ensures Valid() && serving && recipients == old(recipients) && health == old(health) && epoch == old(epoch)
      ensures n <= |old(backlog)| && backlog == old(backlog)[n..] && sequence == old(sequence) + n
      ensures history == old(history) + Given(old(backlog)[..n], epoch, old(sequence))
      ensures e == NoError ==> backlog == [] && (n == 0 ==> events <= reservedThrough - sequence)
      ensures e in {NoError, SequenceError, WriteError} && faults == old(faults) + FaultOf(e)
      ensures e == SequenceError ==> events > MAX_UINT64 - sequence
    {
      hide StoreOK, InFile, Given, Contents, PruneContent, Tidy, Gone;
      ghost var m := View();
      ghost var from, when;
      e, n, from, when := FlushForEvents(events);
      KeepsEpoch(m, View());
    }

    /** The last section of ObserveSubscriptions, and its save. */
    method BatchAndFlush(current: set<string>, updates: seq<Update>, at: int) returns (e: Error, ghost n: nat)
      requires Valid() && serving && epoch != "" && EventCount(updates) <= reservedThrough - sequence
      modifies this
      ensures Valid() && serving && recipients == old(recipients) && epoch == old(epoch)
      ensures health == HealthAfter(Retained(old(health), current), updates)
      ensures n <= |old(backlog)| && backlog == old(backlog)[n..]
      ensures history == old(history) + Given(Announced(updates, at), epoch, old(sequence))
                         + Given(old(backlog)[..n], epoch, old(sequence) + EventCount(updates))
      ensures e == NoError ==> AllSaved() && backlog == []
      ensures e in {NoError, SequenceError, WriteError} && faults == old(faults) + FaultOf(e)
      ensures e == SequenceError ==> sequence == MAX_UINT64 && backlog != []
    {
      hide StoreOK, InFile, HealthAfter, EventCount, HealthBatch, Retained, Given, Announced, Tidy, Gone;
      BatchHealth(View(), current, updates, at);
      BatchSection(current, updates, at);
      ghost var p := View();
      ghost var when;
      e, n, when := Flush();
      StoreCounts(View(), disk, issued, drawn);
      KeepsEpoch(p, View());
    }
  }
}
