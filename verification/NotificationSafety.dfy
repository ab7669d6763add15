/** What holds over every run of the notification store. */
module NotificationSafety {
  import opened Events
  import opened QueueLaws
  import opened NotificationRuns

  /** No event ID is issued twice over any run: not after a crash, a save that
      failed or only seemed to fail, a lost or damaged file, nor by a health batch. */
  lemma NoIDTwice(s: System, steps: seq<Step>)
    requires Init(s) && Allowed(s, steps)
    ensures var t := Final(s, steps);
            forall i, j | 0 <= i < j < |t.log| :: t.log[i] != t.log[j]
  {
    InitKeeps(s);
    RunKeeps(s, steps);
  }

  /** In every reachable state the counter is within the reserve, the reserve
      within 64 bits, and a file of the current epoch reserves at least as far,
      in use or still being written. */
  lemma ReserveCovers(s: System, steps: seq<Step>)
    requires Init(s) && Allowed(s, steps) && Final(s, steps).up
    ensures var t := Final(s, steps);
            && t.p.mem.sequence <= t.p.mem.reservedThrough <= MAX_UINT64
            && (t.disk.File? && t.disk.s.epoch == t.p.mem.epoch ==> t.p.mem.reservedThrough <= t.disk.s.reserved)
            && (t.p.inflight.Writing? ==>
                  t.p.inflight.s.epoch == t.p.mem.epoch && t.p.mem.reservedThrough <= t.p.inflight.s.reserved)
  {
    InitKeeps(s);
    RunKeeps(s, steps);
  }

  /** Every state a store reaches snapshots to a file restore accepts, and
      restoring it gives back the recent list, the recipients, the queues, the
      progress and the health, with the counter moved up to the reserve. */
  lemma ReachableRestores(s: System, steps: seq<Step>, reserve: nat)
    requires Init(s) && Allowed(s, steps)
    requires var m := Final(s, steps).p.mem;
             Final(s, steps).up && m.epoch != "" && reserve <= MAX_UINT64 - m.sequence
    ensures var m := Final(s, steps).p.mem;
            var file := ToSave(m, reserve);
            && ValidSaved(file)
            && Loaded(File(file), true).c == m.c && Loaded(File(file), true).epoch == m.epoch
            && Loaded(File(file), true).sequence == file.reserved >= m.sequence + reserve
  {
    InitKeeps(s);
    RunKeeps(s, steps);
    var t := Final(s, steps);
    SnapshotRestores(t.p.mem, reserve, t.issued);
  }

  /** Once an ack has returned nil, its event is in no later page of its chat:
      not after more publishes, recipients removed and added again, pruning,
      crashes and restarts, or the loss of the file. */
  lemma AckIsFinal(s: System, before: seq<Step>, after: seq<Step>, chat: int, id: EventID, at: int)
    requires Init(s) && Allowed(s, before) && Allowed(Final(s, before), after)
    requires (chat, id) in Final(s, before).settled
    requires Final(Final(s, before), after).up
    ensures var m := Prune(Final(Final(s, before), after).p.mem, at);
            forall e | e in QueueOf(m.c.pending, chat) :: e.id != id
  {
    InitKeeps(s);
    RunKeepsAcks(s, before);
    RunKeepsAcks(Final(s, before), after);
    var t := Final(Final(s, before), after);
    hide Inv, Prune;
    PruneMemGone(t.p.mem, at, chat, id);
    var m := Prune(t.p.mem, at);
    forall e | e in QueueOf(m.c.pending, chat) ensures e.id != id {
      assert e.id in IDs(QueueOf(m.c.pending, chat));
    }
  }
}
