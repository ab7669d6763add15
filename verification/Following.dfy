/** Whether the cursors of a store lead to the last page. */
module Following {
  // A receiver asks for page after page of a store that stays as it is. It comes
  // to the last page exactly if no note is too large for a page of its own and no
  // page that has a successor ends in chat 0, whose cursor the store refuses.

  import opened Events
  import opened QueueLaws
  import opened Paging
  import R = NotificationRuns

  /** Where a page that began at `from` and has come to `to` ends. */
  function PageTo(all: seq<Note>, from: nat, to: nat, sizes: Sizes): (end: nat)
    requires from <= to <= |all|
    ensures to <= end <= |all|
    decreases |all| - to
  {
    if to == |all| || to - from == PAGE_SIZE || !Fits(all, from, to, sizes) then to
        else PageTo(all, from, to + 1, sizes)
  }

  predicate EachFits(all: seq<Note>, from: nat, sizes: Sizes) {
    forall i | from <= i < |all| :: Fits(all, i, i, sizes)
  }

  /** None of the pages from `from` on ends in chat 0, but the last one may. */
  predicate NoneEndsInZero(all: seq<Note>, from: nat, sizes: Sizes)
    requires from <= |all|
    decreases |all| - from
  {
    var to := PageTo(all, from, from, sizes);
    from < to < |all| ==> all[to - 1].chat != 0 && NoneEndsInZero(all, to, sizes)
  }

  /** The visits get every page from cursor c on of a store that has memory m
      throughout, and each cursor is accepted. */
  ghost predicate FollowsOn(visits: seq<Visit>, all: seq<Note>, c: Cursor, m: Mem, sizes: Sizes) {
    && Followed(visits, c, m.epoch, sizes)
    && forall v | v in visits :: v.all == all && CursorOK(m, v.page.next)
  }

  /** all is what a store with memory m has pending. */
  ghost predicate PendingIn(all: seq<Note>, m: Mem, issued: Issued) {
    && ContentOK(m.c, m.epoch, m.sequence, issued) && Ordered(all)
    && forall n | n in all :: n.chat in m.c.pending && n.e in m.c.pending[n.chat]
  }

  // ---------------------------------------------------------------- pages

  lemma BytesOfLast(notes: seq<Note>, sizes: Sizes)
    requires |notes| > 0
    ensures Bytes([notes[|notes| - 1]], sizes) <= Bytes(notes, sizes)
  {
    var last := notes[|notes| - 1];
    assert [last][..0] == [];
    BytesGrow(notes[..|notes| - 1], sizes);
  }

  lemma {:induction false} BytesGrow(notes: seq<Note>, sizes: Sizes)
    ensures Bytes(notes, sizes) >= sizes.envelope
  {
    if |notes| > 0 { BytesGrow(notes[..|notes| - 1], sizes); }
  }

  /** A note that fits with others before it fits alone. */
  lemma FitsAlone(all: seq<Note>, from: nat, i: nat, sizes: Sizes)
    requires from <= i < |all| && Fits(all, from, i, sizes)
    ensures Fits(all, i, i, sizes)
  {
    assert all[i..i + 1] == [all[i]];
    BytesOfLast(all[from..i + 1], sizes);
  }

  lemma {:induction false} PageToIs(all: seq<Note>, from: nat, k: nat, to: nat, sizes: Sizes)
    requires from <= k <= to <= |all| && to - from <= PAGE_SIZE
    requires forall i | from <= i < to :: Fits(all, from, i, sizes)
    requires to < |all| ==> to - from == PAGE_SIZE || !Fits(all, from, to, sizes)
    ensures PageTo(all, from, k, sizes) == to
    decreases |all| - k
  {
    hide Fits;
    if k < to { PageToIs(all, from, k + 1, to, sizes); }
  }

  lemma {:induction false} PageToFits(all: seq<Note>, from: nat, k: nat, sizes: Sizes)
    requires from <= k <= |all| && k - from <= PAGE_SIZE
    requires forall i | from <= i < k :: Fits(all, from, i, sizes)
    ensures var to := PageTo(all, from, k, sizes);
            && to - from <= PAGE_SIZE && (forall i | from <= i < to :: Fits(all, from, i, sizes))
            && (to < |all| ==> to - from == PAGE_SIZE || !Fits(all, from, to, sizes))
    decreases |all| - k
  {
    hide Fits;
    if k < |all| && k - from < PAGE_SIZE && Fits(all, from, k, sizes) { PageToFits(all, from, k + 1, sizes); }
  }

  // ---------------------------------------------------------------- the last page

  /** The page there is from index `from` on, which ends at `to`. */
  lemma PageAt(m: Mem, all: seq<Note>, c: Cursor, from: nat, sizes: Sizes, issued: Issued) returns (v: Visit, to: nat)
    requires PendingIn(all, m, issued) && Begins(all, c, from) && from <= |all|
    requires EachFits(all, from, sizes) && NoneEndsInZero(all, from, sizes)
    ensures v.all == all && Visited(v, c, m.epoch, sizes) && CursorOK(m, v.page.next) && from <= to <= |all|
    ensures v.page.next == Start <==> to == |all|
    ensures to < |all| ==> from < to && NoneEndsInZero(all, to, sizes) && Begins(all, v.page.next, to)
  {
    hide Fits, Begins, Bytes, ContentOK;
    PageToFits(all, from, from, sizes);
    to := PageTo(all, from, from, sizes);
    if from < |all| { assert Fits(all, from, from, sizes); }
    var page := Page(all[from..to], if to == |all| then Start else Key(all[to - 1], m.epoch));
    assert PageFrom(all, from, m.epoch, sizes, page);
    v := Visit(all, page);
    NextCursorAcceptedIff(m, m, all, from, sizes, page, issued);
    if to < |all| { NextBegins(all, to, m.epoch); }
  }

  /** The pages there are, one after another. */
  lemma {:induction false} Follow(m: Mem, all: seq<Note>, c: Cursor, from: nat, sizes: Sizes, issued: Issued)
    returns (visits: seq<Visit>)
    requires PendingIn(all, m, issued) && Begins(all, c, from) && from <= |all|
    requires EachFits(all, from, sizes) && NoneEndsInZero(all, from, sizes)
    ensures FollowsOn(visits, all, c, m, sizes)
    decreases |all| - from
  {
    hide Fits, Begins, PendingIn, PageTo, NoneEndsInZero, Visited, CursorOK;
    var first, to := PageAt(m, all, c, from, sizes, issued);
    if to == |all| {
      visits := [first];
    } else {
      var more := Follow(m, all, first.page.next, to, sizes, issued);
      visits := [first] + more;
      assert visits[1..] == more;
    }
  }

  lemma PageOf(v: Visit, c: Cursor, epoch: string, sizes: Sizes) returns (from: nat)
    requires Visited(v, c, epoch, sizes)
    ensures from <= |v.all| && Begins(v.all, c, from) && PageFrom(v.all, from, epoch, sizes, v.page)
  {
    hide Fits, Bytes;
    from :| Begins(v.all, c, from) && PageFrom(v.all, from, epoch, sizes, v.page);
  }

  /** What the pages of a completed following show. */
  lemma {:induction false} Followable(visits: seq<Visit>, m: Mem, all: seq<Note>, c: Cursor, from: nat, sizes: Sizes,
                                      issued: Issued)
    requires PendingIn(all, m, issued) && Begins(all, c, from) && from <= |all|
    requires FollowsOn(visits, all, c, m, sizes)
    ensures EachFits(all, from, sizes) && NoneEndsInZero(all, from, sizes)
    decreases |visits|
  {
    hide Fits, Begins, Bytes, ContentOK, CursorOK;
    var page := visits[0].page;
    assert visits[0] in visits;
    assert Visited(visits[0], c, m.epoch, sizes);
    var f := PageOf(visits[0], c, m.epoch, sizes);
    SameBeginning(all, c, f, from);
    var to := from + |page.notes|;
    PageToIs(all, from, from, to, sizes);
    forall i | from <= i < to ensures Fits(all, i, i, sizes) { FitsAlone(all, from, i, sizes); }
    if to < |all| {
      NextCursorAcceptedIff(m, m, all, from, sizes, page, issued);
      NextBegins(all, to, m.epoch);
      assert forall v | v in visits[1..] :: v in visits;
      Followable(visits[1..], m, all, page.next, to, sizes, issued);
    }
  }

  /** A following of the cursors from c on comes to its end, with every cursor
      accepted, if and only if each note fits a page alone and no page that has a
      successor ends in chat 0. */
  lemma CompletesIff(m: Mem, all: seq<Note>, c: Cursor, from: nat, sizes: Sizes, issued: Issued)
    requires PendingIn(all, m, issued) && Begins(all, c, from) && from <= |all|
    ensures (exists visits :: FollowsOn(visits, all, c, m, sizes)) <==>
              EachFits(all, from, sizes) && NoneEndsInZero(all, from, sizes)
  {
    hide *;
    if visits :| FollowsOn(visits, all, c, m, sizes) { Followable(visits, m, all, c, from, sizes, issued); }
    if EachFits(all, from, sizes) && NoneEndsInZero(all, from, sizes) {
      var visits := Follow(m, all, c, from, sizes, issued);
      assert FollowsOn(visits, all, c, m, sizes);
    }
  }

  /** With no chat 0 a receiver gets every pending note once, in order, within as
      many pages as there are notes, if each note fits a page. */
  lemma AllDelivered(m: Mem, all: seq<Note>, sizes: Sizes, issued: Issued) returns (visits: seq<Visit>)
    requires PendingIn(all, m, issued) && EachFits(all, 0, sizes) && forall n | n in all :: n.chat != 0
    ensures FollowsOn(visits, all, Start, m, sizes) && AllNotes(visits) == all
    ensures |visits| <= |all| + 1 && (all != [] ==> |visits| <= |all|)
  {
    hide Fits, ContentOK, PageTo, Followed;
    NoZero(all, 0, sizes);
    assert Begins(all, Start, 0);
    visits := Follow(m, all, Start, 0, sizes, issued);
    FixedStore(visits, all, Start, 0, m.epoch, sizes);
    assert all[0..] == all;
  }

  lemma {:induction false} NoZero(all: seq<Note>, from: nat, sizes: Sizes)
    requires from <= |all| && forall n | n in all :: n.chat != 0
    ensures NoneEndsInZero(all, from, sizes)
    decreases |all| - from
  {
    var to := PageTo(all, from, from, sizes);
    if from < to < |all| { NoZero(all, to, sizes); }
  }

  // ---------------------------------------------------------------- chat 0

  const EPOCH: string := "00000000000000000000000000000000"
  const CHATS: seq<int> := [-4, -3, -2, -1, 0, 1]
  const SENT: nat := 20

  /** Every note is at most n bytes, and a page of such notes holds PAGE_SIZE. */
  ghost predicate Small(sizes: Sizes, n: nat, c: nat) {
    && (forall note :: sizes.note(note) <= n) && (forall chat, sequence :: sizes.cursor(chat, sequence) <= c)
    && sizes.envelope + PAGE_SIZE * (n + 1) + c < MAX_PAGE_BYTES
  }

  lemma {:induction false} BytesBound(notes: seq<Note>, sizes: Sizes, n: nat)
    requires forall note :: sizes.note(note) <= n
    ensures Bytes(notes, sizes) <= sizes.envelope + |notes| * (n + 1)
  {
    if |notes| > 0 { BytesBound(notes[..|notes| - 1], sizes, n); }
  }

  lemma SmallFits(all: seq<Note>, from: nat, i: nat, sizes: Sizes, n: nat, c: nat)
    requires from <= i < |all| && i - from < PAGE_SIZE && Small(sizes, n, c)
    ensures Fits(all, from, i, sizes)
  {
    BytesBound(all[from..i + 1], sizes, n);
    assert (i + 1 - from) * (n + 1) <= PAGE_SIZE * (n + 1) by { Times(i + 1 - from, PAGE_SIZE, n + 1); }
  }

  lemma Times(a: nat, b: nat, x: nat)
    requires a <= b
    ensures a * x <= b * x
  {}

  /** The first k events. */
  function FirstEvents(k: nat): seq<Event> {
    seq(k, i requires 0 <= i < k => Event(EventID(EPOCH, i + 1), 0, "x"))
  }

  /** Six chats receive, and each has the first k events. */
  predicate Reached(c: Content, k: nat) {
    && c.recent == FirstEvents(k) && c.closed == map[] && c.recipients.Keys == (set chat | chat in CHATS)
    && (forall chat | chat in c.recipients :: c.recipients[chat].firstSeen == 0)
    && c.pending == if k == 0 then map[] else map chat | chat in CHATS :: FirstEvents(k)
  }

  lemma AllKept(k: nat, keep: Keep)
    requires k <= SENT && forall e | e in FirstEvents(k) :: Kept(e, keep)
    ensures Bounded(FirstEvents(k), SENT, keep) == FirstEvents(k)
  {
    BoundedIs(FirstEvents(k), SENT, keep);
  }

  lemma PruneLeaves(c: Content, k: nat)
    requires k <= SENT && Reached(c, k)
    ensures PruneContent(c, 0) == c
  {
    hide Bounded;
    AllKept(k, Fresh(0));
    AllKept(k, FreshOpen(0, map[], 0));
    assert PruneClosed(c.closed, IDs(FirstEvents(k))) == map[];
    forall chat | chat in c.pending ensures PrunedQueue(c, map[], chat, 0) == c.pending[chat] {}
    assert k > 0 ==> |FirstEvents(k)| > 0;
    assert PrunePending(c, map[], 0) == c.pending;
  }

  lemma NextReached(c: Content, k: nat)
    requires Reached(c, k)
    ensures Reached(AppendContent(c, Event(EventID(EPOCH, k + 1), 0, "x")), k + 1)
  {
    var e := Event(EventID(EPOCH, k + 1), 0, "x");
    var d := AppendContent(c, e);
    assert FirstEvents(k) + [e] == FirstEvents(k + 1);
    assert k == 0 ==> [] + [e] == FirstEvents(1);
    assert d.pending.Keys == (set chat | chat in CHATS);
    forall chat | chat in CHATS ensures d.pending[chat] == FirstEvents(k + 1) {
      assert chat in c.recipients && Receives(c, chat, 0);
    }
    assert d.pending == map chat | chat in CHATS :: FirstEvents(k + 1);
  }

  /** A store that serves, has no backlog and has sent k texts to the six chats. */
  predicate Sent(s: R.System, k: nat) {
    && s.up && s.p.serving && s.p.loaded && s.p.publisher == R.Idle && s.p.backlog == []
    && s.p.mem.epoch == EPOCH && s.p.mem.sequence == k && s.p.mem.reservedThrough == SEQUENCE_RESERVE
    && Reached(s.p.mem.c, k)
  }

  lemma Opened(s: R.System) returns (s1: R.System, s2: R.System)
    requires R.Init(s)
    ensures R.Goes(s, R.Start(true, true), s1) && R.Goes(s1, R.Identify(EPOCH), s2)
    ensures s2.up && s2.p.serving && s2.p.loaded && s2.p.publisher == R.Idle && s2.p.backlog == []
    ensures s2.p.mem.epoch == EPOCH && s2.p.mem.sequence == 0 && s2.p.mem.reservedThrough == SEQUENCE_RESERVE
    ensures s2.p.mem.c == EMPTY
  {
    hide ValidSaved;
    s1 := R.Do(s, R.Start(true, true));
    s2 := R.Do(s1, R.Identify(EPOCH));
  }

  function List(chats: seq<int>): seq<Recipient> {
    seq(|chats|, i requires 0 <= i < |chats| => Recipient(chats[i], 0))
  }

  lemma {:induction false} EarliestOfList(chats: seq<int>)
    ensures Earliest(List(chats)).Keys == set chat | chat in chats
    ensures forall chat | chat in chats :: Earliest(List(chats))[chat].firstSeen == 0
  {
    if |chats| > 0 {
      var n := |chats| - 1;
      EarliestOfList(chats[..n]);
      assert List(chats)[..n] == List(chats[..n]);
      assert chats == chats[..n] + [chats[n]];
    }
  }

  lemma Taken(m: Mem)
    requires m.c == EMPTY
    ensures var t := Replace(m, List(CHATS), 0);
            && Reached(t.c, 0)
            && t.epoch == m.epoch && t.sequence == m.sequence && t.reservedThrough == m.reservedThrough
  {
    EarliestOfList(CHATS);
    hide Earliest, List;
    var next := Earliest(List(CHATS));
    assert PruneContent(m.c, 0) == m.c;
    assert forall chat | chat in next :: ReplacedQueue(m.c, next[chat], 0) == [];
    assert NonEmpty(ReplacedQueues(m.c, next, 0)) == map[];
    assert FirstEvents(0) == [];
  }

  /** Six chats are made recipients of an empty store. */
  lemma Prepared(s: R.System) returns (steps: seq<R.Step>, t: R.System)
    requires R.Init(s)
    ensures R.Allowed(s, steps) && t == R.Final(s, steps) && Sent(t, 0)
  {
    hide R.Goes, R.Init;
    var s1, s2 := Opened(s);
    Taken(s2.p.mem);
    t := ListTaken(s2);
    steps := [R.Start(true, true), R.Identify(EPOCH), R.ReplaceStep(List(CHATS), 0)];
    hide Sent;
    R.Chained([s, s1, s2, t], steps);
  }

  lemma ListTaken(s: R.System) returns (t: R.System)
    requires s.up && s.p.serving && s.p.loaded && s.p.publisher == R.Idle && s.p.backlog == []
    requires s.p.mem.epoch == EPOCH && s.p.mem.sequence == 0 && s.p.mem.reservedThrough == SEQUENCE_RESERVE
    requires Reached(Replace(s.p.mem, List(CHATS), 0).c, 0)
    ensures R.Goes(s, R.ReplaceStep(List(CHATS), 0), t) && Sent(t, 0)
  {
    hide ReplaceContent, PruneContent, Reached, List;
    t := R.Do(s, R.ReplaceStep(List(CHATS), 0));
  }

  /** One more text. */
  lemma SendsOne(s: R.System, k: nat) returns (s1: R.System, t: R.System)
    requires Sent(s, k) && k < SENT
    ensures R.Goes(s, R.PubCall("x", 0), s1) && R.Goes(s1, R.PubAppend, t) && Sent(t, k + 1)
  {
    s1 := R.Do(s, R.PubCall("x", 0));
    t := R.Do(s1, R.PubAppend);
    PruneLeaves(s.p.mem.c, k);
    NextReached(s.p.mem.c, k);
    PruneLeaves(AppendContent(s.p.mem.c, Event(EventID(EPOCH, k + 1), 0, "x")), k + 1);
    hide PruneContent, AppendContent, Reached;
  }

  lemma {:induction false} SendsAll(s: R.System, k: nat) returns (steps: seq<R.Step>, t: R.System)
    requires Sent(s, k) && k <= SENT
    ensures R.Allowed(s, steps) && t == R.Final(s, steps) && Sent(t, SENT)
    decreases SENT - k
  {
    hide R.Goes, Sent;
    if k == SENT {
      steps, t := [], s;
    } else {
      var s1, s2 := SendsOne(s, k);
      var one := [R.PubCall("x", 0), R.PubAppend];
      R.Chained([s, s1, s2], one);
      var more;
      more, t := SendsAll(s2, k + 1);
      R.Then(s, one, more);
      steps := one + more;
    }
  }

  /** What is pending then. */
  function AllSent(): seq<Note> {
    seq(|CHATS| * SENT, i requires 0 <= i < |CHATS| * SENT => Note(CHATS[i / SENT], FirstEvents(SENT)[i % SENT]))
  }

  lemma AllSentIs(c: Content)
    requires Reached(c, SENT)
    ensures AllOf(AllSent(), c.pending)
  {
    var all := AllSent();
    assert forall i, j | 0 <= i < j < |CHATS| :: CHATS[i] < CHATS[j];
    forall i, j | 0 <= i < j < |all| ensures Before(all[i], all[j]) {
      assert i / SENT < j / SENT || (i / SENT == j / SENT && i % SENT < j % SENT);
    }
    forall n ensures n in all <==> n.chat in c.pending && n.e in c.pending[n.chat] {
      if n in all {
        var i :| 0 <= i < |all| && all[i] == n;
        assert CHATS[i / SENT] in CHATS && FirstEvents(SENT)[i % SENT] in FirstEvents(SENT);
      }
      if n.chat in c.pending && n.e in c.pending[n.chat] {
        var a :| 0 <= a < |CHATS| && CHATS[a] == n.chat;
        var b :| 0 <= b < SENT && FirstEvents(SENT)[b] == n.e;
        var i := a * SENT + b;
        assert i / SENT == a && i % SENT == b;
        assert all[i] == n;
      }
    }
  }

  /** A run to a store of which a receiver never gets the second page: five chats
      with 20 notes each fill the first one, and the fifth is chat 0. Any notes will
      do of which a page holds so many. */
  lemma StuckAtZero(s: R.System) returns (steps: seq<R.Step>)
    requires R.Init(s)
    ensures R.Allowed(s, steps)
    ensures var m := R.Final(s, steps).p.mem;
            && Prune(m, 0) == m && AllOf(AllSent(), m.c.pending) && PendingIn(AllSent(), m, R.Final(s, steps).issued)
            && (forall sizes | EachFits(AllSent(), 0, sizes) && FirstPageFits(sizes) :: !Completes(AllSent(), m, sizes))
            && (forall sizes, n, c | Small(sizes, n, c) :: !Completes(AllSent(), m, sizes))
  {
    hide R.Inv, ContentOK, FollowsOn, AllSent, Sent, Small, EachFits, FirstPageFits, Completes;
    var before, t0 := Prepared(s);
    var after, t := SendsAll(t0, 0);
    R.Then(s, before, after);
    steps := before + after;
    R.InitKeeps(s);
    R.RunKeeps(s, steps);
    SentFacts(t);
    AllSentIs(t.p.mem.c);
    AllPending(t);
    forall sizes | EachFits(AllSent(), 0, sizes) && FirstPageFits(sizes) ensures !Completes(AllSent(), t.p.mem, sizes) {
      NeverCompletes(t.p.mem, sizes, t.issued);
    }
    forall sizes, n, c | Small(sizes, n, c) ensures !Completes(AllSent(), t.p.mem, sizes) {
      SmallPage(sizes, n, c);
    }
  }

  predicate FirstPageFits(sizes: Sizes) {
    forall i | 0 <= i < PAGE_SIZE :: Fits(AllSent(), 0, i, sizes)
  }

  /** A following of the cursors from the first page comes to the last. */
  ghost predicate Completes(all: seq<Note>, m: Mem, sizes: Sizes) {
    exists visits :: FollowsOn(visits, all, Start, m, sizes)
  }

  lemma SentFacts(t: R.System)
    requires Sent(t, SENT) && R.Inv(t)
    ensures Reached(t.p.mem.c, SENT) && Prune(t.p.mem, 0) == t.p.mem
    ensures ContentOK(t.p.mem.c, t.p.mem.epoch, t.p.mem.sequence, t.issued)
  {
    PruneLeaves(t.p.mem.c, SENT);
    hide PruneContent, Reached;
  }

  lemma AllPending(t: R.System)
    requires AllOf(AllSent(), t.p.mem.c.pending)
    requires ContentOK(t.p.mem.c, t.p.mem.epoch, t.p.mem.sequence, t.issued)
    ensures PendingIn(AllSent(), t.p.mem, t.issued)
  {
    hide ContentOK, AllSent;
  }

  lemma SmallPage(sizes: Sizes, n: nat, c: nat)
    requires Small(sizes, n, c)
    ensures EachFits(AllSent(), 0, sizes) && FirstPageFits(sizes)
  {
    hide Small, Fits;
    forall i | 0 <= i < |AllSent()| ensures Fits(AllSent(), i, i, sizes) { SmallFits(AllSent(), i, i, sizes, n, c); }
    forall i | 0 <= i < PAGE_SIZE ensures Fits(AllSent(), 0, i, sizes) { SmallFits(AllSent(), 0, i, sizes, n, c); }
  }

  lemma NeverCompletes(m: Mem, sizes: Sizes, issued: Issued)
    requires PendingIn(AllSent(), m, issued) && EachFits(AllSent(), 0, sizes) && FirstPageFits(sizes)
    ensures !Completes(AllSent(), m, sizes)
  {
    hide Fits, ContentOK, FollowsOn;
    var all := AllSent();
    PageToIs(all, 0, 0, PAGE_SIZE, sizes);
    assert all[PAGE_SIZE - 1].chat == 0;
    assert Begins(all, Start, 0);
    hide AllSent;
    CompletesIff(m, all, Start, 0, sizes, issued);
  }
}
