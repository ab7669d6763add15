/** What every section keeps of the queue. */
module QueueLaws {
  // Its events are the ones issued, in order, and an event a chat is done with never
  // comes back to it.

  import opened Events

  type Issued = map<EventID, Event>

  // ---------------------------------------------------------------- well-formed content

  /** The event an ID was issued for, of the current epoch and not ahead of it. */
  ghost predicate IssuedAs(id: EventID, epoch: string, sequence: nat, issued: Issued) {
    id.epoch == epoch && 0 < id.sequence <= sequence && id in issued
  }

  ghost predicate ListOK(s: seq<Event>, epoch: string, sequence: nat, issued: Issued) {
    && Increasing(s)
    && forall e | e in s :: IssuedAs(e.id, epoch, sequence, issued) && issued[e.id] == e
  }

  ghost predicate QueuesOK(c: Content, epoch: string, sequence: nat, issued: Issued) {
    forall chat | chat in c.pending ::
      && chat in c.recipients
      && ListOK(c.pending[chat], epoch, sequence, issued)
      && forall e | e in c.pending[chat] :: e.id !in ClosedOf(c.closed, chat)
  }

  ghost predicate ClosedOK(c: Content, epoch: string, sequence: nat, issued: Issued) {
    forall chat, id | chat in c.closed && id in c.closed[chat] ::
      IssuedAs(id, epoch, sequence, issued) && c.closed[chat][id] == issued[id].at
  }

  ghost predicate ContentOK(c: Content, epoch: string, sequence: nat, issued: Issued) {
    && ListOK(c.recent, epoch, sequence, issued)
    && (forall chat | chat in c.recipients :: c.recipients[chat].chat == chat)
    && QueuesOK(c, epoch, sequence, issued)
    && ClosedOK(c, epoch, sequence, issued)
  }

  /** Issuing more IDs, or moving the counter up, keeps content well-formed. */
  lemma ContentGrows(c: Content, epoch: string, s0: nat, s1: nat, i0: Issued, i1: Issued)
    requires ContentOK(c, epoch, s0, i0)
    requires s0 <= s1 && forall id | id in i0 :: id in i1 && i1[id] == i0[id]
    ensures ContentOK(c, epoch, s1, i1)
  {
    forall chat, id | chat in c.closed && id in c.closed[chat]
      ensures IssuedAs(id, epoch, s1, i1) && c.closed[chat][id] == i1[id].at
    {
      assert IssuedAs(id, epoch, s0, i0);
    }
  }

  lemma ClosedIssued(c: Content, chat: int, id: EventID, epoch: string, sequence: nat, issued: Issued)
    requires ClosedOK(c, epoch, sequence, issued)
    ensures id in ClosedOf(c.closed, chat) ==> IssuedAs(id, epoch, sequence, issued)
  {}

  lemma FewerIDs(part: seq<Event>, whole: seq<Event>, id: EventID)
    requires forall e | e in part :: e in whole || e.id != id
    ensures id !in IDs(whole) ==> id !in IDs(part)
  {
    if id in IDs(part) {
      var e :| e in part && e.id == id;
      assert e.id in IDs(whole);
    }
  }

  lemma PrunedListOK(s: seq<Event>, limit: nat, keep: Keep, epoch: string, sequence: nat, issued: Issued)
    requires ListOK(s, epoch, sequence, issued)
    ensures ListOK(Bounded(s, limit, keep), epoch, sequence, issued)
  {
    BoundedIs(s, limit, keep);
  }

  lemma PruneKeeps(c: Content, at: int, epoch: string, sequence: nat, issued: Issued)
    requires ContentOK(c, epoch, sequence, issued)
    ensures ContentOK(PruneContent(c, at), epoch, sequence, issued)
  {
    var p := PruneContent(c, at);
    PrunedListOK(c.recent, MAX_RECENT, Fresh(at), epoch, sequence, issued);
    forall chat | chat in p.pending
      ensures ListOK(p.pending[chat], epoch, sequence, issued)
      ensures forall e | e in p.pending[chat] :: e.id !in ClosedOf(p.closed, chat)
    {
      BoundedIs(c.pending[chat], MAX_PER_CHAT,
                FreshOpen(at, ClosedOf(p.closed, chat), c.recipients[chat].firstSeen));
    }
  }

  /** Pruning twice at one time is pruning once: nothing is left to drop. */
  lemma PruneTwice(c: Content, at: int)
    ensures PruneContent(PruneContent(c, at), at) == PruneContent(c, at)
  {
    hide Bounded;
    var p := PruneContent(c, at);
    BoundedIs(c.recent, MAX_RECENT, Fresh(at));
    BoundedIs(p.recent, MAX_RECENT, Fresh(at));
    ClosedTwice(c.closed, IDs(p.recent));
    forall chat | chat in p.pending
      ensures PrunedQueue(p, p.closed, chat, at) == p.pending[chat]
    {
      var keep := FreshOpen(at, ClosedOf(p.closed, chat), c.recipients[chat].firstSeen);
      BoundedIs(c.pending[chat], MAX_PER_CHAT, keep);
      BoundedIs(p.pending[chat], MAX_PER_CHAT, keep);
    }
    SamePruned(p, at);
  }

  lemma ClosedTwice(closed: map<int, map<EventID, int>>, live: set<EventID>)
    ensures PruneClosed(PruneClosed(closed, live), live) == PruneClosed(closed, live)
  {
    var p := PruneClosed(closed, live);
    forall chat | chat in p
      ensures p[chat].Keys * live != {}
      ensures (map id | id in p[chat] && id in live :: p[chat][id]) == p[chat]
    {
      var id :| id in closed[chat].Keys * live;
      assert id in p[chat].Keys * live;
    }
  }

  /** One list with the event just issued at its end. */
  lemma ListAppend(s: seq<Event>, e: Event, epoch: string, sequence: nat, issued: Issued)
    requires ListOK(s, epoch, sequence, issued)
    requires e.id == EventID(epoch, sequence + 1) && e.id !in issued
    ensures ListOK(s + [e], epoch, sequence + 1, issued[e.id := e])
    ensures ListOK(s, epoch, sequence + 1, issued[e.id := e])
  {
    assert forall x | x in s + [e] :: x in s || x == e;
  }

  lemma AppendKeeps(c: Content, e: Event, epoch: string, sequence: nat, issued: Issued)
    requires ContentOK(c, epoch, sequence, issued)
    requires e.id == EventID(epoch, sequence + 1) && e.id !in issued
    ensures ContentOK(AppendContent(c, e), epoch, sequence + 1, issued[e.id := e])
  {
    hide ListOK;
    var a := AppendContent(c, e);
    ContentGrows(c, epoch, sequence, sequence + 1, issued, issued[e.id := e]);
    ListAppend(c.recent, e, epoch, sequence, issued);
    forall chat | chat in a.pending
      ensures ListOK(a.pending[chat], epoch, sequence + 1, issued[e.id := e])
      ensures forall x | x in a.pending[chat] :: x.id !in ClosedOf(a.closed, chat)
    {
      var q := QueueOf(c.pending, chat);
      EmptyListOK(epoch, sequence, issued);
      ListAppend(q, e, epoch, sequence, issued);
      assert forall x | x in q + [e] :: x in q || x == e;
      assert q + [] == q;
      ClosedIssued(c, chat, e.id, epoch, sequence, issued);
    }
  }

  lemma EmptyListOK(epoch: string, sequence: nat, issued: Issued)
    ensures ListOK([], epoch, sequence, issued)
  {}

  lemma WithoutIs(s: seq<Event>, id: EventID)
    ensures forall e :: e in Without(s, id) <==> e in s && e.id != id
    ensures Increasing(s) ==> Increasing(Without(s, id))
  {
    forall e ensures e in Without(s, id) <==> e in s && e.id != id { SelectMember(s, Except(id), e); }
    if Increasing(s) { SelectIncreasing(s, Except(id)); }
  }

  lemma WithoutListOK(s: seq<Event>, id: EventID, epoch: string, sequence: nat, issued: Issued)
    requires ListOK(s, epoch, sequence, issued)
    ensures ListOK(Without(s, id), epoch, sequence, issued)
    ensures forall e | e in Without(s, id) :: e in s && e.id != id
  {
    WithoutIs(s, id);
  }

  lemma AckKeeps(c: Content, chat: int, id: EventID, epoch: string, sequence: nat, issued: Issued)
    requires ContentOK(c, epoch, sequence, issued)
    ensures ContentOK(c.(pending := AckPending(c, chat, id), closed := AckClosed(c, chat, id)),
                      epoch, sequence, issued)
  {
    hide Select, Without, ListOK;
    var pending, closed := AckPending(c, chat, id), AckClosed(c, chat, id);
    assert ListOK(c.recent, epoch, sequence, issued);
    if chat in c.pending { WithoutListOK(c.pending[chat], id, epoch, sequence, issued); }
    forall ch | ch in pending
      ensures ch in c.recipients && ListOK(pending[ch], epoch, sequence, issued)
      ensures forall e | e in pending[ch] :: e in c.pending[ch] && !(ch == chat && e.id == id)
    {
      assert forall e | e in c.pending[ch] :: e.id in IDs(c.pending[ch]);
    }
    forall ch: int, e: Event | ch in pending && e in pending[ch] ensures e.id !in ClosedOf(closed, ch) {
      assert e.id !in ClosedOf(c.closed, ch);
    }
    AckClosedKeeps(c, chat, id, epoch, sequence, issued);
  }

  lemma AckClosedKeeps(c: Content, chat: int, id: EventID, epoch: string, sequence: nat, issued: Issued)
    requires ContentOK(c, epoch, sequence, issued)
    ensures ClosedOK(c.(closed := AckClosed(c, chat, id)), epoch, sequence, issued)
  {
    var closed := AckClosed(c, chat, id);
    forall ch, i | ch in closed && i in closed[ch]
      ensures IssuedAs(i, epoch, sequence, issued) && closed[ch][i] == issued[i].at
    {
      if ch in c.closed && i in c.closed[ch] {
        assert IssuedAs(i, epoch, sequence, issued);
      }
    }
  }

  lemma EarliestChats(list: seq<Recipient>)
    ensures forall chat | chat in Earliest(list) :: Earliest(list)[chat].chat == chat
  {}

  lemma {:induction false} MergeMember(a: seq<Event>, b: seq<Event>, e: Event, issued: Issued, epoch: string,
                                       sequence: nat)
    requires ListOK(a, epoch, sequence, issued) && ListOK(b, epoch, sequence, issued)
    ensures e in Merge(a, b) <==> e in a || e in b
    decreases |a| + |b|
  {
    if |a| > 0 && |b| > 0 {
      assert a == [a[0]] + a[1..] && b == [b[0]] + b[1..];
      if a[0].id.sequence < b[0].id.sequence {
        MergeMember(a[1..], b, e, issued, epoch, sequence);
      } else if b[0].id.sequence < a[0].id.sequence {
        MergeMember(a, b[1..], e, issued, epoch, sequence);
      } else {
        assert a[0].id == b[0].id;
        MergeMember(a[1..], b[1..], e, issued, epoch, sequence);
      }
    }
  }

  lemma {:induction false} MergeIncreasing(a: seq<Event>, b: seq<Event>, issued: Issued, epoch: string, sequence: nat)
    requires ListOK(a, epoch, sequence, issued) && ListOK(b, epoch, sequence, issued)
    ensures Increasing(Merge(a, b))
    decreases |a| + |b|
  {
    if |a| > 0 && |b| > 0 {
      var a', b' := a, b;
      if a[0].id.sequence <= b[0].id.sequence { a' := a[1..]; }
      if b[0].id.sequence <= a[0].id.sequence { b' := b[1..]; }
      MergeIncreasing(a', b', issued, epoch, sequence);
      var first := if a[0].id.sequence <= b[0].id.sequence then a[0] else b[0];
      var rest := Merge(a', b');
      assert Merge(a, b) == [first] + rest;
      forall i | 0 <= i < |rest| ensures first.id.sequence < rest[i].id.sequence {
        MergeMember(a', b', rest[i], issued, epoch, sequence);
      }
    }
  }

  lemma SelectListOK(s: seq<Event>, keep: Keep, epoch: string, sequence: nat, issued: Issued)
    requires ListOK(s, epoch, sequence, issued)
    ensures ListOK(Select(s, keep), epoch, sequence, issued)
  {
    SelectIncreasing(s, keep);
    forall e | e in Select(s, keep) ensures e in s { SelectMember(s, keep, e); }
  }

  /** The merged candidates of a chat: in order, and exactly the queued and
      recent events it is not done with and may see. */
  lemma CandidatesAre(c: Content, r: Recipient, epoch: string, sequence: nat, issued: Issued)
    requires ContentOK(c, epoch, sequence, issued)
    ensures var keep := Open(ClosedOf(c.closed, r.chat), r.firstSeen);
            var all := Merge(Select(QueueOf(c.pending, r.chat), keep), Select(c.recent, keep));
            && ListOK(all, epoch, sequence, issued)
            && forall e :: e in all <==> (e in QueueOf(c.pending, r.chat) || e in c.recent) && Kept(e, keep)
  {
    var keep := Open(ClosedOf(c.closed, r.chat), r.firstSeen);
    var queue := QueueOf(c.pending, r.chat);
    assert ListOK(queue, epoch, sequence, issued);
    SelectListOK(queue, keep, epoch, sequence, issued);
    SelectListOK(c.recent, keep, epoch, sequence, issued);
    var a, b := Select(queue, keep), Select(c.recent, keep);
    MergeIncreasing(a, b, issued, epoch, sequence);
    forall e
      ensures e in Merge(a, b) <==> (e in queue || e in c.recent) && Kept(e, keep)
    {
      MergeMember(a, b, e, issued, epoch, sequence);
      SelectMember(queue, keep, e);
      SelectMember(c.recent, keep, e);
    }
  }

  lemma ReplaceKeeps(c: Content, list: seq<Recipient>, at: int, epoch: string, sequence: nat, issued: Issued)
    requires ContentOK(c, epoch, sequence, issued)
    ensures ContentOK(ReplaceContent(c, Earliest(list), at), epoch, sequence, issued)
  {
    var next := Earliest(list);
    EarliestChats(list);
    var p := ReplaceContent(c, next, at);
    forall chat | chat in p.pending
      ensures ListOK(p.pending[chat], epoch, sequence, issued)
      ensures forall e | e in p.pending[chat] :: e.id !in ClosedOf(p.closed, chat)
    {
      var keep := Open(ClosedOf(c.closed, chat), next[chat].firstSeen);
      CandidatesAre(c, next[chat], epoch, sequence, issued);
      var all := Merge(Select(QueueOf(c.pending, chat), keep), Select(c.recent, keep));
      PrunedListOK(all, MAX_PER_CHAT, Fresh(at), epoch, sequence, issued);
      BoundedIs(all, MAX_PER_CHAT, Fresh(at));
    }
  }

  // ---------------------------------------------------------------- tidy content

  /** What pruning leaves at any time: bounded lists, queues of recipients only, and
      in them no event from before the recipient or that the chat is done with. */
  ghost predicate Tidy(c: Content) {
    && |c.recent| <= MAX_RECENT
    && forall chat | chat in c.pending ::
         && chat in c.recipients && |c.pending[chat]| <= MAX_PER_CHAT
         && forall e | e in c.pending[chat] ::
              c.recipients[chat].firstSeen <= e.at && e.id !in ClosedOf(c.closed, chat)
  }

  /** What is left of a list: all but the events named and those too old at one of two times. */
  ghost predicate Left(s: seq<Event>, p: seq<Event>, gone: set<EventID>, a: int, b: int) {
    forall e :: e in p <==> e in s && e.id !in gone && a - e.at <= MAX_AGE && b - e.at <= MAX_AGE
  }

  /** Nothing has left the queues and the recent list but events that were too old. */
  ghost predicate OnlyAged(c: Content, p: Content, a: int, b: int) {
    && p.recipients == c.recipients
    && Left(c.recent, p.recent, {}, a, b)
    && forall chat :: Left(QueueOf(c.pending, chat), QueueOf(p.pending, chat), {}, a, b)
  }

  lemma PruneTidies(c: Content, at: int)
    ensures Tidy(PruneContent(c, at))
  {
    hide Bounded;
    BoundedIs(c.recent, MAX_RECENT, Fresh(at));
    var p := PruneContent(c, at);
    forall chat | chat in p.pending
      ensures |p.pending[chat]| <= MAX_PER_CHAT
      ensures forall e | e in p.pending[chat] ::
                c.recipients[chat].firstSeen <= e.at && e.id !in ClosedOf(p.closed, chat)
    {
      BoundedIs(c.pending[chat], MAX_PER_CHAT, FreshOpen(at, ClosedOf(p.closed, chat), c.recipients[chat].firstSeen));
    }
  }

  /** Tidy content only ages. */
  lemma PruneAges(c: Content, at: int)
    requires Tidy(c)
    ensures OnlyAged(c, PruneContent(c, at), at, at)
  {
    hide Left, Tidy, PrunePending, PruneClosed, Bounded;
    RecentAges(c, at);
    forall chat ensures Left(QueueOf(c.pending, chat), QueueOf(PruneContent(c, at).pending, chat), {}, at, at) {
      QueueAges(c, at, chat);
    }
  }

  lemma RecentAges(c: Content, at: int)
    requires Tidy(c)
    ensures Left(c.recent, PruneContent(c, at).recent, {}, at, at)
  {
    hide Bounded;
    forall e ensures e in PruneContent(c, at).recent <==> e in c.recent && at - e.at <= MAX_AGE {
      BoundedShort(c.recent, MAX_RECENT, Fresh(at), e);
    }
  }

  lemma QueueAges(c: Content, at: int, chat: int)
    requires Tidy(c)
    ensures Left(QueueOf(c.pending, chat), QueueOf(PruneContent(c, at).pending, chat), {}, at, at)
  {
    hide Bounded;
    var p := PruneContent(c, at);
    if chat in c.pending {
      ClosedShrinks(c.closed, IDs(p.recent), chat);
      forall e ensures e in QueueOf(p.pending, chat) <==> e in QueueOf(c.pending, chat) && at - e.at <= MAX_AGE {
        BoundedShort(c.pending[chat], MAX_PER_CHAT,
                     FreshOpen(at, ClosedOf(p.closed, chat), c.recipients[chat].firstSeen), e);
      }
    }
  }

  lemma AgesOn(c: Content, p: Content, q: Content, a: int, b: int)
    requires OnlyAged(c, p, a, a) && OnlyAged(p, q, b, b)
    ensures OnlyAged(c, q, a, b)
  {
    forall chat ensures Left(QueueOf(c.pending, chat), QueueOf(q.pending, chat), {}, a, b) {
      assert Left(QueueOf(c.pending, chat), QueueOf(p.pending, chat), {}, a, a);
      assert Left(QueueOf(p.pending, chat), QueueOf(q.pending, chat), {}, b, b);
    }
  }

  lemma AgesAgain(c: Content, p: Content, q: Content, a: int, b: int)
    requires OnlyAged(c, p, a, b) && OnlyAged(p, q, a, a)
    ensures OnlyAged(c, q, a, b)
  {
    forall chat ensures Left(QueueOf(c.pending, chat), QueueOf(q.pending, chat), {}, a, b) {
      assert Left(QueueOf(c.pending, chat), QueueOf(p.pending, chat), {}, a, b);
      assert Left(QueueOf(p.pending, chat), QueueOf(q.pending, chat), {}, a, a);
    }
  }

  lemma BoundedShort(s: seq<Event>, limit: nat, keep: Keep, e: Event)
    requires |s| <= limit
    ensures e in Bounded(s, limit, keep) <==> e in s && Kept(e, keep)
  {
    SelectLength(s, keep);
    SelectMember(s, keep, e);
  }

  lemma ClosedShrinks(closed: map<int, map<EventID, int>>, live: set<EventID>, chat: int)
    ensures ClosedOf(PruneClosed(closed, live), chat).Keys <= ClosedOf(closed, chat).Keys
  {
    forall id | id in ClosedOf(PruneClosed(closed, live), chat) ensures id in ClosedOf(closed, chat) {}
  }

  lemma AckTidies(c: Content, chat: int, id: EventID)
    requires Tidy(c)
    ensures Tidy(c.(pending := AckPending(c, chat, id), closed := AckClosed(c, chat, id)))
  {
    hide Without;
    var a := c.(pending := AckPending(c, chat, id), closed := AckClosed(c, chat, id));
    AckQueues(c, chat, id);
    forall chat', e | chat' in a.pending && e in a.pending[chat']
      ensures e.id !in ClosedOf(a.closed, chat')
    {
      assert e in QueueOf(a.pending, chat');
      AckCloses(c, chat, id, chat', e.id);
    }
  }

  /** Pruned, acked and pruned again, a tidy queue has lost that one event and what was too old. */
  lemma AckLeaves(m: Mem, chat: int, id: EventID, at: int, saved: int, chat': int)
    requires Tidy(m.c)
    ensures var after := PruneContent(Ack(m, chat, id, at).c, saved);
            Left(QueueOf(m.c.pending, chat'), QueueOf(after.pending, chat'), if chat' == chat then {id} else {}, at,
                 saved)
  {
    hide PruneContent, Tidy, AckPending, AckClosed;
    var p := PruneContent(m.c, at);
    var a := Ack(m, chat, id, at).c;
    assert a == p.(pending := AckPending(p, chat, id), closed := AckClosed(p, chat, id));
    PruneTidies(m.c, at);
    AckTidies(p, chat, id);
    AckQueues(p, chat, id);
    QueueAges(m.c, at, chat');
    QueueAges(a, saved, chat');
  }

  lemma AckCloses(c: Content, chat: int, id: EventID, chat': int, id': EventID)
    ensures id' in ClosedOf(AckClosed(c, chat, id), chat') ==>
              id' in ClosedOf(c.closed, chat') || (chat' == chat && id' == id)
  {}

  lemma AckQueues(c: Content, chat: int, id: EventID)
    ensures var pending := AckPending(c, chat, id);
            && pending.Keys <= c.pending.Keys
            && (forall chat' | chat' in pending :: |pending[chat']| <= |c.pending[chat']|)
            && forall chat', e ::
                 e in QueueOf(pending, chat') <==> e in QueueOf(c.pending, chat') && (chat' != chat || e.id != id)
  {
    hide Without;
    var queue := QueueOf(c.pending, chat);
    WithoutIs(queue, id);
    WithoutShorter(queue, id);
    forall e | e in queue ensures e.id in IDs(queue) {}
  }

  lemma WithoutShorter(s: seq<Event>, id: EventID)
    ensures |Without(s, id)| <= |s|
  {
    SelectLength(s, Except(id));
  }

  lemma ReplaceTidies(c: Content, list: seq<Recipient>, at: int, epoch: string, sequence: nat, issued: Issued)
    requires ContentOK(c, epoch, sequence, issued) && Tidy(c)
    ensures Tidy(ReplaceContent(c, Earliest(list), at))
  {
    hide ReplacedQueue, ContentOK, Earliest;
    var next := Earliest(list);
    EarliestChats(list);
    var p := ReplaceContent(c, next, at);
    forall chat | chat in p.pending
      ensures |p.pending[chat]| <= MAX_PER_CHAT
      ensures forall e | e in p.pending[chat] ::
                next[chat].firstSeen <= e.at && e.id !in ClosedOf(p.closed, chat)
    {
      ReplacedQueueIsTheLast(c, next[chat], at, epoch, sequence, issued);
    }
  }

  /** A list has taken new events, and is bounded: the new ones are in it unless they
      were too old when saved, and nothing else has left but what was too old at one
      of the times, and the oldest of a full list. */
  ghost predicate Taken(s: seq<Event>, more: seq<Event>, p: seq<Event>, limit: nat, a: int, b: int, saved: int) {
    && (forall x | x in p :: (x in s || x in more) && a - x.at <= MAX_AGE && saved - x.at <= MAX_AGE)
    && (forall x | x in more :: saved - x.at <= MAX_AGE ==> x in p)
    && forall x | x in LastOf(s + more, limit) && x in s ::
         a - x.at <= MAX_AGE && b - x.at <= MAX_AGE && saved - x.at <= MAX_AGE ==> x in p
  }

  /** A new event has joined the queue of each recipient that was there before it, and
      the recent list. */
  ghost predicate Joined(c: Content, p: Content, e: Event, b: int, saved: int) {
    && Taken(c.recent, [e], p.recent, MAX_RECENT, e.at, b, saved)
    && forall chat ::
         Taken(QueueOf(c.pending, chat),
               if chat in c.recipients && c.recipients[chat].firstSeen <= e.at then [e] else [],
               QueueOf(p.pending, chat), MAX_PER_CHAT, e.at, b, saved)
  }

  /** The steps of a list that takes new events: what is left of it takes them, is
      bounded, and ages until it is saved. */
  lemma TakesNew(s: seq<Event>, q: seq<Event>, more: seq<Event>, p: seq<Event>, limit: nat, keep: Keep,
                 a: int, b: int, saved: int)
    requires |s| <= limit && |more| <= 1 && limit > 0 && Increasing(s) && Increasing(q) && Left(s, q, {}, a, b)
    requires forall x | x in more :: x.at == a
    requires forall x | x in q + more :: Kept(x, keep) <==> a - x.at <= MAX_AGE
    requires Left(Bounded(q + more, limit, keep), p, {}, saved, saved)
    ensures Taken(s, more, p, limit, a, b, saved)
  {
    LeftShorter(s, q, a, b);
    hide Bounded, LastOf, Kept, Increasing;
    var r := Bounded(q + more, limit, keep);
    BoundedIs(q + more, limit, keep);
    forall x | x in more ensures x in r { LastStays(q, more, limit, keep, x); }
    forall x | x in LastOf(s + more, limit) && x in s && a - x.at <= MAX_AGE && b - x.at <= MAX_AGE
      ensures x in r
    {
      OldStays(s, q, more, limit, keep, a, b, x);
    }
  }

  lemma LastStays(q: seq<Event>, more: seq<Event>, limit: nat, keep: Keep, x: Event)
    requires |q| <= limit && |more| == 1 && x in more && limit > 0 && Kept(x, keep)
    ensures x in Bounded(q + more, limit, keep)
  {
    hide Bounded, Kept;
    var t := q + more;
    assert x == t[|t| - 1];
    BoundedOver(t, limit, keep, x);
  }

  lemma OldStays(s: seq<Event>, q: seq<Event>, more: seq<Event>, limit: nat, keep: Keep, a: int, b: int, x: Event)
    requires |q| <= |s| <= limit && |more| <= 1 && (|q| == |s| ==> q == s) && Left(s, q, {}, a, b)
    requires x in LastOf(s + more, limit) && x in s && a - x.at <= MAX_AGE && b - x.at <= MAX_AGE && Kept(x, keep)
    ensures x in Bounded(q + more, limit, keep)
  {
    hide Bounded, LastOf, Kept;
    var t := q + more;
    assert x in q && x in t;
    if |t| <= limit {
      BoundedShort(t, limit, keep, x);
    } else {
      LastIsTail(t, limit);
      BoundedOver(t, limit, keep, x);
    }
  }

  lemma LastIsTail(t: seq<Event>, limit: nat)
    requires |t| == limit + 1
    ensures LastOf(t, limit) == t[1..]
  {}

  lemma LeftShorter(s: seq<Event>, q: seq<Event>, a: int, b: int)
    requires Increasing(s) && Increasing(q) && Left(s, q, {}, a, b)
    ensures |q| <= |s| && (|q| == |s| ==> q == s)
  {
    SizeOf(s);
    SizeOf(q);
    assert SetOf(q) <= SetOf(s);
    SubsetSize(SetOf(q), SetOf(s));
    if |q| == |s| {
      SubsetSame(SetOf(q), SetOf(s));
      SameOrder(q, s);
    }
  }

  /** Of one event more than the limit only the first can be lost. */
  lemma BoundedOver(t: seq<Event>, limit: nat, keep: Keep, x: Event)
    requires |t| <= limit + 1 && Kept(x, keep) && x in (if |t| <= limit then t else t[1..])
    ensures x in Bounded(t, limit, keep)
  {
    hide Select, Kept;
    SelectLength(t, keep);
    assert |t| > limit ==> t == [t[0]] + t[1..];
    SelectMember(t, keep, x);
  }

  /** Aged, appended to, pruned and pruned again, tidy content has taken the event. */
  lemma AppendJoins(m: Mem, l: Mem, e: Event, b: int, saved: int, issued: Issued)
    requires Tidy(m.c) && Tidy(l.c) && OnlyAged(m.c, l.c, e.at, b) && e.id !in issued
    requires ContentOK(m.c, m.epoch, m.sequence, issued) && ContentOK(l.c, l.epoch, l.sequence, issued)
    ensures Joined(m.c, PruneContent(PruneContent(AppendContent(l.c, e), e.at), saved), e, b, saved)
  {
    hide PruneContent, AppendContent, Taken, Tidy, ContentOK, OnlyAged;
    RecentTakes(m, l, e, b, saved, issued);
    forall chat
      ensures Taken(QueueOf(m.c.pending, chat),
                    if chat in m.c.recipients && m.c.recipients[chat].firstSeen <= e.at then [e] else [],
                    QueueOf(PruneContent(PruneContent(AppendContent(l.c, e), e.at), saved).pending, chat),
                    MAX_PER_CHAT, e.at, b, saved)
    {
      QueueTakes(m, l, e, b, saved, chat, issued);
    }
  }

  lemma RecentTakes(m: Mem, l: Mem, e: Event, b: int, saved: int, issued: Issued)
    requires Tidy(m.c) && OnlyAged(m.c, l.c, e.at, b)
    requires ContentOK(m.c, m.epoch, m.sequence, issued) && ContentOK(l.c, l.epoch, l.sequence, issued)
    ensures Taken(m.c.recent, [e], PruneContent(PruneContent(AppendContent(l.c, e), e.at), saved).recent, MAX_RECENT,
                  e.at, b, saved)
  {
    hide Taken, Bounded, Left;
    var r := PruneContent(AppendContent(l.c, e), e.at);
    PruneTidies(AppendContent(l.c, e), e.at);
    RecentAges(r, saved);
    TakesNew(m.c.recent, l.c.recent, [e], PruneContent(r, saved).recent, MAX_RECENT, Fresh(e.at), e.at, b, saved);
  }

  lemma QueueTakes(m: Mem, l: Mem, e: Event, b: int, saved: int, chat: int, issued: Issued)
    requires Tidy(m.c) && Tidy(l.c) && OnlyAged(m.c, l.c, e.at, b) && e.id !in issued
    requires ContentOK(m.c, m.epoch, m.sequence, issued) && ContentOK(l.c, l.epoch, l.sequence, issued)
    ensures Taken(QueueOf(m.c.pending, chat),
                  if chat in m.c.recipients && m.c.recipients[chat].firstSeen <= e.at then [e] else [],
                  QueueOf(PruneContent(PruneContent(AppendContent(l.c, e), e.at), saved).pending, chat),
                  MAX_PER_CHAT, e.at, b, saved)
  {
    hide Taken, Bounded, Left, AppendContent, PruneContent, Kept;
    var c, q := m.c, l.c;
    var r := PruneContent(AppendContent(q, e), e.at);
    PruneTidies(AppendContent(q, e), e.at);
    QueueAges(r, saved, chat);
    AppendedQueue(q, e, chat);
    QueuePruned(AppendContent(q, e), e.at, chat);
    var more := if chat in c.recipients && c.recipients[chat].firstSeen <= e.at then [e] else [];
    var p := QueueOf(PruneContent(r, saved).pending, chat);
    if chat in c.recipients {
      var keep := FreshOpen(e.at, ClosedOf(r.closed, chat), c.recipients[chat].firstSeen);
      NewIsOpen(q, e, chat, l.epoch, l.sequence, issued);
      TakesNew(QueueOf(c.pending, chat), QueueOf(q.pending, chat), more, p, MAX_PER_CHAT, keep, e.at, b, saved);
    } else {
      TakesNothing(p, e.at, b, saved);
    }
  }

  lemma AppendedQueue(c: Content, e: Event, chat: int)
    ensures AppendContent(c, e).recipients == c.recipients
    ensures QueueOf(AppendContent(c, e).pending, chat) == QueueOf(c.pending, chat) +
              if chat in c.recipients && c.recipients[chat].firstSeen <= e.at then [e] else []
  {}

  lemma QueuePruned(c: Content, at: int, chat: int)
    ensures var p := PruneContent(c, at);
            QueueOf(p.pending, chat) ==
              if chat !in c.recipients then []
              else Bounded(QueueOf(c.pending, chat), MAX_PER_CHAT,
                           FreshOpen(at, ClosedOf(p.closed, chat), c.recipients[chat].firstSeen))
  {
    hide PruneClosed;
    if chat !in c.pending && chat in c.recipients {
      var keep := FreshOpen(at, ClosedOf(PruneContent(c, at).closed, chat), c.recipients[chat].firstSeen);
      assert Bounded([], MAX_PER_CHAT, keep) == [];
    }
  }

  /** What a tidy queue and a new event are tested for is their age alone. */
  lemma NewIsOpen(q: Content, e: Event, chat: int, epoch: string, sequence: nat, issued: Issued)
    requires Tidy(q) && ContentOK(q, epoch, sequence, issued) && e.id !in issued && chat in q.recipients
    ensures var closed := ClosedOf(PruneContent(AppendContent(q, e), e.at).closed, chat);
            var keep := FreshOpen(e.at, closed, q.recipients[chat].firstSeen);
            && (forall x | x in QueueOf(q.pending, chat) :: Kept(x, keep) <==> e.at - x.at <= MAX_AGE)
            && (q.recipients[chat].firstSeen <= e.at ==> Kept(e, keep))
  {
    var r := PruneContent(AppendContent(q, e), e.at);
    ClosedShrinks(q.closed, IDs(r.recent), chat);
    assert e.id in ClosedOf(q.closed, chat) ==> IssuedAs(e.id, epoch, sequence, issued);
  }

  lemma TakesNothing(p: seq<Event>, a: int, b: int, saved: int)
    requires Left([], p, {}, saved, saved)
    ensures Taken([], [], p, MAX_PER_CHAT, a, b, saved)
  {}

  // ---------------------------------------------------------------- closed for good

  /** The event can never be queued for the chat again: it is not queued, and
      where it could be queued from it is closed. */
  ghost predicate Gone(c: Content, epoch: string, sequence: nat, chat: int, id: EventID) {
    && id !in IDs(QueueOf(c.pending, chat))
    && (id in IDs(c.recent) ==> id in ClosedOf(c.closed, chat))
    && (id.epoch == epoch ==> id.sequence <= sequence)
  }

  lemma PruneStaysGone(c: Content, at: int, epoch: string, sequence: nat, chat: int, id: EventID)
    requires Gone(c, epoch, sequence, chat, id)
    ensures Gone(PruneContent(c, at), epoch, sequence, chat, id)
  {
    var p := PruneContent(c, at);
    BoundedIs(c.recent, MAX_RECENT, Fresh(at));
    FewerIDs(p.recent, c.recent, id);
    if id in IDs(p.recent) {
      assert id in c.closed[chat].Keys * IDs(p.recent);
    }
    if chat in p.pending {
      BoundedIs(c.pending[chat], MAX_PER_CHAT,
                FreshOpen(at, ClosedOf(p.closed, chat), c.recipients[chat].firstSeen));
      FewerIDs(p.pending[chat], c.pending[chat], id);
    }
  }

  lemma AppendStaysGone(c: Content, e: Event, epoch: string, sequence: nat, chat: int, id: EventID)
    requires Gone(c, epoch, sequence, chat, id)
    requires e.id == EventID(epoch, sequence + 1)
    ensures Gone(AppendContent(c, e), epoch, sequence + 1, chat, id)
  {
    var a := AppendContent(c, e);
    assert e.id != id;
    FewerIDs(a.recent, c.recent, id);
    FewerIDs(QueueOf(a.pending, chat), QueueOf(c.pending, chat), id);
  }

  lemma AckMakesGone(c: Content, chat: int, id: EventID, epoch: string, sequence: nat)
    requires id.epoch == epoch ==> id.sequence <= sequence
    ensures Gone(c.(pending := AckPending(c, chat, id), closed := AckClosed(c, chat, id)),
                 epoch, sequence, chat, id)
  {
    WithoutIs(QueueOf(c.pending, chat), id);
  }

  lemma AckStaysGone(c: Content, chat: int, id: EventID, epoch: string, sequence: nat, chat': int, id': EventID)
    requires Gone(c, epoch, sequence, chat', id')
    ensures Gone(c.(pending := AckPending(c, chat, id), closed := AckClosed(c, chat, id)),
                 epoch, sequence, chat', id')
  {
    WithoutIs(QueueOf(c.pending, chat), id);
    var a := c.(pending := AckPending(c, chat, id), closed := AckClosed(c, chat, id));
    FewerIDs(QueueOf(a.pending, chat'), QueueOf(c.pending, chat'), id');
  }

  lemma ReplaceStaysGone(c: Content, list: seq<Recipient>, at: int, epoch: string, sequence: nat, issued: Issued,
                         chat: int, id: EventID)
    requires ContentOK(c, epoch, sequence, issued)
    requires Gone(c, epoch, sequence, chat, id)
    ensures Gone(ReplaceContent(c, Earliest(list), at), epoch, sequence, chat, id)
  {
    var next := Earliest(list);
    EarliestChats(list);
    var p := ReplaceContent(c, next, at);
    if chat in p.pending {
      var keep := Open(ClosedOf(c.closed, chat), next[chat].firstSeen);
      CandidatesAre(c, next[chat], epoch, sequence, issued);
      var all := Merge(Select(QueueOf(c.pending, chat), keep), Select(c.recent, keep));
      BoundedIs(all, MAX_PER_CHAT, Fresh(at));
      forall e | e in p.pending[chat] ensures e.id != id {
        assert e in all;
        if e in QueueOf(c.pending, chat) { assert e.id in IDs(QueueOf(c.pending, chat)); }
        else { assert e.id in IDs(c.recent); }
      }
    }
  }

  // ---------------------------------------------------------------- recipients

  /** The events a chat may be given, whatever their order. */
  ghost function Candidates(c: Content, r: Recipient, at: int): set<Event> {
    set e | e in QueueOf(c.pending, r.chat) + c.recent
            && at - e.at <= MAX_AGE && r.firstSeen <= e.at && e.id !in ClosedOf(c.closed, r.chat)
  }

  ghost function SetOf(s: seq<Event>): set<Event> {
    set e | e in s
  }

  /** ReplaceRecipients gives each chat exactly the last MAX_PER_CHAT, by
      sequence, of the queued and recent events it is not done with, that are
      not before its FirstSeen and not too old: the queue is in order, holds
      only such events, as many of them as there are up to the limit, and every
      one it leaves out is older than every one it holds. */
  lemma ReplacedQueueIsTheLast(c: Content, r: Recipient, at: int, epoch: string, sequence: nat, issued: Issued)
    requires ContentOK(c, epoch, sequence, issued)
    ensures var q := ReplacedQueue(c, r, at);
            var eligible := Candidates(c, r, at);
            && Increasing(q)
            && (forall e | e in q :: e in eligible)
            && |q| == (if |eligible| < MAX_PER_CHAT then |eligible| else MAX_PER_CHAT)
            && (forall e, x | e in q && x in eligible && x !in q :: x.id.sequence < e.id.sequence)
  {
    hide Merge, Select, Candidates;
    var keep := Open(ClosedOf(c.closed, r.chat), r.firstSeen);
    var all := Merge(Select(QueueOf(c.pending, r.chat), keep), Select(c.recent, keep));
    CandidatesAre(c, r, epoch, sequence, issued);
    var young := Select(all, Fresh(at));
    SelectIncreasing(all, Fresh(at));
    YoungCandidates(c, r, at, all);
    SizeOf(young);
    LastOfIs(young, MAX_PER_CHAT);
  }

  /** The list is the last MAX_PER_CHAT of those a chat may be given, less what was
      too old when it was saved. */
  ghost predicate LastCandidates(c: Content, r: Recipient, p: seq<Event>, at: int, saved: int) {
    forall e :: e in p <==>
      && e in Candidates(c, r, at) && saved - e.at <= MAX_AGE
      && |Newer(Candidates(c, r, at), e)| < MAX_PER_CHAT
  }

  ghost function Newer(events: set<Event>, e: Event): set<Event> {
    set x | x in events && e.id.sequence < x.id.sequence
  }

  /** Pruned, given new recipients and pruned again, tidy content has these queues. */
  lemma ReplaceGives(m: Mem, list: seq<Recipient>, at: int, saved: int, chat: int, issued: Issued)
    requires Tidy(m.c) && ContentOK(m.c, m.epoch, m.sequence, issued) && chat in Earliest(list)
    ensures LastCandidates(m.c, Earliest(list)[chat],
                           QueueOf(PruneContent(Replace(m, list, at).c, saved).pending, chat), at, saved)
  {
    hide PruneContent, Tidy, ContentOK, Candidates, ReplacedQueue, Earliest, Left;
    var c, r := PruneContent(m.c, at), Earliest(list)[chat];
    PruneTidies(m.c, at);
    PruneKeeps(m.c, at, m.epoch, m.sequence, issued);
    EarliestChats(list);
    ReplaceTidies(c, list, at, m.epoch, m.sequence, issued);
    var after := Replace(m, list, at).c;
    assert after == ReplaceContent(c, Earliest(list), at);
    QueueAges(after, saved, chat);
    var q := ReplacedQueue(c, r, at);
    assert QueueOf(after.pending, chat) == q;
    ReplacedQueueIsTheLast(c, r, at, m.epoch, m.sequence, issued);
    SameCandidates(m, r, at, issued);
    LastIff(q, Candidates(m.c, r, at));
    LeavesCandidates(m.c, r, q, QueueOf(PruneContent(after, saved).pending, chat), at, saved);
  }

  lemma LeavesCandidates(c: Content, r: Recipient, q: seq<Event>, p: seq<Event>, at: int, saved: int)
    requires Left(q, p, {}, saved, saved)
    requires forall e :: e in q <==> e in Candidates(c, r, at) && |Newer(Candidates(c, r, at), e)| < MAX_PER_CHAT
    ensures LastCandidates(c, r, p, at, saved)
  {
    hide Candidates, Newer;
  }

  lemma SameCandidates(m: Mem, r: Recipient, at: int, issued: Issued)
    requires Tidy(m.c) && ContentOK(m.c, m.epoch, m.sequence, issued)
    ensures Candidates(PruneContent(m.c, at), r, at) == Candidates(m.c, r, at)
  {
    hide PruneContent;
    var c, p := m.c, PruneContent(m.c, at);
    RecentAges(c, at);
    QueueAges(c, at, r.chat);
    forall e
      ensures e in Candidates(p, r, at) <==> e in Candidates(c, r, at)
    {
      OpenStays(c, at, r.chat, e);
    }
  }

  /** Progress of what is still there is kept. */
  lemma OpenStays(c: Content, at: int, chat: int, e: Event)
    requires Tidy(c)
    ensures var p := PruneContent(c, at);
            e in QueueOf(p.pending, chat) + p.recent ==>
              (e.id in ClosedOf(p.closed, chat) <==> e.id in ClosedOf(c.closed, chat))
  {
    hide Bounded;
    var p := PruneContent(c, at);
    QueueAges(c, at, chat);
    ClosedShrinks(c.closed, IDs(p.recent), chat);
    if e in p.recent && e.id in ClosedOf(c.closed, chat) {
      assert e.id in c.closed[chat].Keys * IDs(p.recent);
    }
  }

  /** The last of a set, said of each of its members. */
  lemma LastIff(q: seq<Event>, all: set<Event>)
    requires Increasing(q) && forall e | e in q :: e in all
    requires |q| == (if |all| < MAX_PER_CHAT then |all| else MAX_PER_CHAT)
    requires forall e, x | e in q && x in all && x !in q :: x.id.sequence < e.id.sequence
    ensures forall e :: e in q <==> e in all && |Newer(all, e)| < MAX_PER_CHAT
  {
    SizeOf(q);
    assert SetOf(q) <= all;
    forall e ensures e in q <==> e in all && |Newer(all, e)| < MAX_PER_CHAT {
      if e in q {
        assert Newer(all, e) <= SetOf(q) - {e};
        SubsetSize(Newer(all, e), SetOf(q) - {e});
      } else if e in all {
        SubsetSize(SetOf(q) + {e}, all);
        assert SetOf(q) <= Newer(all, e);
        SubsetSize(SetOf(q), Newer(all, e));
      }
    }
  }

  lemma YoungCandidates(c: Content, r: Recipient, at: int, all: seq<Event>)
    requires var keep := Open(ClosedOf(c.closed, r.chat), r.firstSeen);
             forall e :: e in all <==> (e in QueueOf(c.pending, r.chat) || e in c.recent) && Kept(e, keep)
    ensures SetOf(Select(all, Fresh(at))) == Candidates(c, r, at)
  {
    var young := Select(all, Fresh(at));
    forall e ensures e in young <==> e in Candidates(c, r, at) { SelectMember(all, Fresh(at), e); }
  }

  lemma LastOfIs(s: seq<Event>, limit: nat)
    requires Increasing(s)
    ensures var q := LastOf(s, limit);
            && Increasing(q) && (forall e | e in q :: e in s)
            && |q| == (if |s| < limit then |s| else limit)
            && (forall e, x | e in q && x in s && x !in q :: x.id.sequence < e.id.sequence)
  {
    var q := LastOf(s, limit);
    forall e, x | e in q && x in s && x !in q
      ensures x.id.sequence < e.id.sequence
    {
      LastOfOlder(s, limit, e, x);
    }
  }

  lemma LastOfOlder(s: seq<Event>, limit: nat, e: Event, x: Event)
    requires Increasing(s) && e in LastOf(s, limit) && x in s && x !in LastOf(s, limit)
    ensures x.id.sequence < e.id.sequence
  {
    var d := |s| - |LastOf(s, limit)|;
    var i :| 0 <= i < |s| && s[i] == x;
    var j :| d <= j < |s| && s[j] == e;
  }

  /** The earliest FirstSeen given for a chat is the one that counts. */
  lemma {:induction false} EarliestIs(list: seq<Recipient>, chat: int)
    ensures chat in Earliest(list) <==> exists r :: r in list && r.chat == chat
    ensures chat in Earliest(list) ==>
              && Earliest(list)[chat] in list
              && Earliest(list)[chat].chat == chat
              && forall r | r in list && r.chat == chat :: Earliest(list)[chat].firstSeen <= r.firstSeen
  {
    if |list| > 0 {
      var n := |list| - 1;
      EarliestIs(list[..n], chat);
      assert list == list[..n] + [list[n]];
      assert forall r :: r in list <==> r in list[..n] || r == list[n];
    }
  }

  /** Repeating ReplaceRecipients at one time with one list changes nothing,
      the revision included. */
  lemma ReplaceTwice(m: Mem, list: seq<Recipient>, at: int, issued: Issued)
    requires ContentOK(m.c, m.epoch, m.sequence, issued)
    ensures var once := Replace(m, list, at); Replace(once, list, at) == once
  {
    var c := PruneContent(m.c, at);
    PruneKeeps(m.c, at, m.epoch, m.sequence, issued);
    PruneTwice(m.c, at);
    ReplaceContentTwice(c, list, at, m.epoch, m.sequence, issued);
  }

  lemma ReplaceContentTwice(c: Content, list: seq<Recipient>, at: int, epoch: string, sequence: nat, issued: Issued)
    requires ContentOK(c, epoch, sequence, issued) && PruneContent(c, at) == c
    ensures var r := ReplaceContent(c, Earliest(list), at);
            PruneContent(r, at) == r && ReplaceContent(r, Earliest(list), at) == r
  {
    var next := Earliest(list);
    EarliestChats(list);
    ReplaceKeeps(c, list, at, epoch, sequence, issued);
    forall chat | chat in next
      ensures ReplacedQueue(ReplaceContent(c, next, at), next[chat], at) == ReplacedQueue(c, next[chat], at)
    {
      ReplacedAgain(c, next, chat, at, epoch, sequence, issued);
    }
    SameReplaced(c, next, at);
    forall chat | chat in ReplaceContent(c, next, at).pending
      ensures PrunedQueue(ReplaceContent(c, next, at), c.closed, chat, at) == ReplaceContent(c, next, at).pending[chat]
    {
      ReplacedAgain(c, next, chat, at, epoch, sequence, issued);
    }
    SamePruned(ReplaceContent(c, next, at), at);
  }

  lemma SameReplaced(c: Content, next: map<int, Recipient>, at: int)
    requires forall chat | chat in next ::
               ReplacedQueue(ReplaceContent(c, next, at), next[chat], at) == ReplacedQueue(c, next[chat], at)
    ensures ReplaceContent(ReplaceContent(c, next, at), next, at) == ReplaceContent(c, next, at)
  {
    var r := ReplaceContent(c, next, at);
    var x, y := ReplacedQueues(r, next, at), ReplacedQueues(c, next, at);
    assert x.Keys == y.Keys;
    forall chat | chat in next ensures x[chat] == y[chat] {}
    assert x == y;
  }

  lemma SamePruned(c: Content, at: int)
    requires Bounded(c.recent, MAX_RECENT, Fresh(at)) == c.recent
    requires PruneClosed(c.closed, IDs(c.recent)) == c.closed
    requires forall chat | chat in c.pending :: chat in c.recipients && c.pending[chat] != []
    requires forall chat | chat in c.pending :: PrunedQueue(c, c.closed, chat, at) == c.pending[chat]
    ensures PruneContent(c, at) == c
  {
    var p := map chat | chat in c.pending && chat in c.recipients :: PrunedQueue(c, c.closed, chat, at);
    forall chat ensures chat in c.pending <==> chat in p {}
    forall chat | chat in c.pending ensures p[chat] == c.pending[chat] {}
    assert p == c.pending;
    assert NonEmpty(c.pending) == c.pending;
  }

  lemma ReplacedAgain(c: Content, next: map<int, Recipient>, chat: int, at: int,
                      epoch: string, sequence: nat, issued: Issued)
    requires ContentOK(c, epoch, sequence, issued)
    requires chat in next && forall ch | ch in next :: next[ch].chat == ch
    requires ContentOK(ReplaceContent(c, next, at), epoch, sequence, issued)
    ensures var r := ReplaceContent(c, next, at);
            && ReplacedQueue(r, next[chat], at) == ReplacedQueue(c, next[chat], at)
            && (chat in r.pending ==> PrunedQueue(r, c.closed, chat, at) == r.pending[chat])
  {
    hide ReplacedQueue, ContentOK, Bounded, Candidates;
    var r := ReplaceContent(c, next, at);
    var q := ReplacedQueue(c, next[chat], at);
    var q' := ReplacedQueue(r, next[chat], at);
    ReplacedQueueIsTheLast(c, next[chat], at, epoch, sequence, issued);
    ReplacedQueueIsTheLast(r, next[chat], at, epoch, sequence, issued);
    var eligible, eligible' := Candidates(c, next[chat], at), Candidates(r, next[chat], at);
    assert QueueOf(r.pending, chat) == q;
    StillCandidates(c, r, next[chat], at, q);
    LastOfSmaller(q, q', eligible, eligible');
    if chat in r.pending {
      forall e | e in q ensures Kept(e, FreshOpen(at, ClosedOf(c.closed, chat), next[chat].firstSeen)) {
        assert e in Candidates(c, next[chat], at) by { assert e in eligible; }
        CandidateIs(c, next[chat], at, e);
      }
      BoundedIs(q, MAX_PER_CHAT, FreshOpen(at, ClosedOf(c.closed, chat), next[chat].firstSeen));
    }
  }

  lemma CandidateIs(c: Content, r: Recipient, at: int, e: Event)
    requires e in Candidates(c, r, at)
    ensures Kept(e, FreshOpen(at, ClosedOf(c.closed, r.chat), r.firstSeen))
  {}

  lemma StillCandidates(c: Content, c': Content, r: Recipient, at: int, q: seq<Event>)
    requires c'.recent == c.recent && c'.closed == c.closed && QueueOf(c'.pending, r.chat) == q
    requires forall e | e in q :: e in Candidates(c, r, at)
    ensures Candidates(c', r, at) <= Candidates(c, r, at)
    ensures forall e | e in q :: e in Candidates(c', r, at)
  {}

  /** The last of a set, taken again from what is left of the set, is the same. */
  lemma LastOfSmaller(q: seq<Event>, q': seq<Event>, all: set<Event>, all': set<Event>)
    requires Increasing(q) && Increasing(q')
    requires all' <= all
    requires (forall e | e in q :: e in all') && (forall e | e in q' :: e in all')
    requires |q| == (if |all| < MAX_PER_CHAT then |all| else MAX_PER_CHAT)
    requires |q'| == (if |all'| < MAX_PER_CHAT then |all'| else MAX_PER_CHAT)
    requires forall e, x | e in q && x in all && x !in q :: x.id.sequence < e.id.sequence
    requires forall e, x | e in q' && x in all' && x !in q' :: x.id.sequence < e.id.sequence
    ensures q' == q
  {
    SizeOf(q);
    SizeOf(q');
    var s, s' := SetOf(q), SetOf(q');
    SubsetSize(all', all);
    SubsetSize(s, all');
    if s != s' {
      var e := Extra(s', s);
      var x := Extra(s, s');
    }
    SameOrder(q, q');
  }

  lemma {:induction false} SizeOf(q: seq<Event>)
    requires Increasing(q)
    ensures |SetOf(q)| == |q|
  {
    if |q| > 0 {
      var n := |q| - 1;
      SizeOf(q[..n]);
      assert q == q[..n] + [q[n]];
      assert SetOf(q) == SetOf(q[..n]) + {q[n]};
      assert q[n] !in q[..n];
    }
  }

  lemma SubsetSize<T>(a: set<T>, b: set<T>)
    requires a <= b
    ensures |a| <= |b|
  {
    assert b == a + (b - a);
  }

  lemma SubsetSame<T>(a: set<T>, b: set<T>)
    requires a <= b && |a| == |b|
    ensures a == b
  {
    assert b == a + (b - a);
    assert |b - a| == 0;
  }

  /** Of two different sets of one size, each has something the other has not. */
  lemma Extra<T>(a: set<T>, b: set<T>) returns (x: T)
    requires |a| == |b| && a != b
    ensures x in b && x !in a
  {
    if b <= a { SubsetSame(b, a); }
    x :| x in b && x !in a;
  }

  /** Two lists in order with the same events are one list. */
  lemma {:induction false} SameOrder(a: seq<Event>, b: seq<Event>)
    requires Increasing(a) && Increasing(b)
    requires SetOf(a) == SetOf(b)
    ensures a == b
  {
    SizeOf(a);
    SizeOf(b);
    if |a| > 0 {
      var n := |a| - 1;
      assert a[n] in SetOf(b) && b[n] in SetOf(a);
      ButLast(a);
      ButLast(b);
      SameOrder(a[..n], b[..n]);
      assert a == a[..n] + [a[n]] && b == b[..n] + [b[n]];
    }
  }

  lemma ButLast(a: seq<Event>)
    requires |a| > 0 && Increasing(a)
    ensures SetOf(a[..|a| - 1]) == SetOf(a) - {a[|a| - 1]}
  {
    var n := |a| - 1;
    assert a == a[..n] + [a[n]];
    assert a[n] !in a[..n];
  }
}
