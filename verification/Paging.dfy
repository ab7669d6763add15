/** Cursor paging over the pending queues. */
module Paging {
  // The loop of Store.Pending, and what following its cursors gives, on a fixed
  // store and on one that changes.

  import opened Events
  import opened QueueLaws
  import opened Sets

  const PAGE_SIZE: nat := 100
  const MAX_PAGE_BYTES: nat := 0x100_0000

  datatype Note = Note(chat: int, e: Event)

  /** A cursor as Pending reads it: none, one that does not parse, or a place. */
  datatype Cursor = Start | Malformed | After(epoch: string, chat: int, sequence: nat)

  datatype Page = Page(notes: seq<Note>, next: Cursor)   // next is Start when there is no more
  datatype Result = Ok(page: Page) | BadCursor | TooLarge

  /** The lengths of the encoded page without messages, of a message, and of a cursor. */
  datatype Sizes = Sizes(envelope: nat, note: Note -> nat, cursor: (int, nat) -> nat)

  // ---------------------------------------------------------------- the whole list

  predicate Before(a: Note, b: Note) {
    a.chat < b.chat || (a.chat == b.chat && a.e.id.sequence < b.e.id.sequence)
  }

  ghost predicate Ordered(notes: seq<Note>) {
    forall i, j | 0 <= i < j < |notes| :: Before(notes[i], notes[j])
  }

  predicate Past(n: Note, c: Cursor) {
    c.After? ==> n.chat > c.chat || (n.chat == c.chat && n.e.id.sequence > c.sequence)
  }

  ghost predicate Rising(chats: seq<int>) {
    forall i, j | 0 <= i < j < |chats| :: chats[i] < chats[j]
  }

  function NotesOf(chat: int, queue: seq<Event>): seq<Note> {
    seq(|queue|, i requires 0 <= i < |queue| => Note(chat, queue[i]))
  }

  /** The queues of the first k chats, one after another. */
  function Listed(chats: seq<int>, k: nat, pending: map<int, seq<Event>>): seq<Note>
    requires k <= |chats|
  {
    if k == 0 then []
    else Listed(chats, k - 1, pending) + NotesOf(chats[k - 1], QueueOf(pending, chats[k - 1]))
  }

  /** Queues as pruning leaves them: each in order and none empty. */
  ghost predicate Queued(pending: map<int, seq<Event>>) {
    forall chat | chat in pending :: Increasing(pending[chat]) && pending[chat] != []
  }

  /** all is every pending note once, in (chat, sequence) order. */
  ghost predicate AllOf(all: seq<Note>, pending: map<int, seq<Event>>) {
    && Ordered(all)
    && forall n :: n in all <==> n.chat in pending && n.e in pending[n.chat]
  }

  lemma {:induction false} ListedMember(chats: seq<int>, k: nat, pending: map<int, seq<Event>>, n: Note)
    requires k <= |chats|
    ensures n in Listed(chats, k, pending) <==>
              n.e in QueueOf(pending, n.chat) && exists i :: 0 <= i < k && chats[i] == n.chat
  {
    if k > 0 {
      ListedMember(chats, k - 1, pending, n);
      NotesMember(chats[k - 1], QueueOf(pending, chats[k - 1]), n);
    }
  }

  lemma NotesMember(chat: int, queue: seq<Event>, n: Note)
    ensures n in NotesOf(chat, queue) <==> n.chat == chat && n.e in queue
  {
    if n.chat == chat && n.e in queue {
      var i :| 0 <= i < |queue| && queue[i] == n.e;
      assert NotesOf(chat, queue)[i] == n;
    }
  }

  lemma {:induction false} ListedOrdered(chats: seq<int>, k: nat, pending: map<int, seq<Event>>)
    requires k <= |chats| && Rising(chats) && Queued(pending)
    ensures Ordered(Listed(chats, k, pending))
  {
    if k > 0 {
      ListedOrdered(chats, k - 1, pending);
      var a, b := Listed(chats, k - 1, pending), NotesOf(chats[k - 1], QueueOf(pending, chats[k - 1]));
      forall i | 0 <= i < |a| ensures a[i].chat < chats[k - 1] {
        ListedMember(chats, k - 1, pending, a[i]);
      }
    }
  }

  lemma ListedIsAll(chats: seq<int>, pending: map<int, seq<Event>>)
    requires ChatsOf(chats, pending) && Queued(pending)
    ensures AllOf(Listed(chats, |chats|, pending), pending)
  {
    ListedOrdered(chats, |chats|, pending);
    forall n ensures n in Listed(chats, |chats|, pending) <==> n.chat in pending && n.e in pending[n.chat] {
      ListedMember(chats, |chats|, pending, n);
    }
  }

  // ---------------------------------------------------------------- what a page is

  function Bytes(notes: seq<Note>, sizes: Sizes): nat {
    if |notes| == 0 then sizes.envelope
    else Bytes(notes[..|notes| - 1], sizes) + sizes.note(notes[|notes| - 1]) + if |notes| == 1 then 0 else 1
  }

  function Key(n: Note, epoch: string): Cursor {
    After(epoch, n.chat, n.e.id.sequence)
  }

  /** The notes of all up to index i, with the cursor they would need, fit a page. */
  predicate Fits(all: seq<Note>, from: nat, i: nat, sizes: Sizes)
    requires from <= i < |all|
  {
    Bytes(all[from..i + 1], sizes) +
    (if i + 1 < |all| then sizes.cursor(all[i].chat, all[i].e.id.sequence) else 0) < MAX_PAGE_BYTES
  }

  /** The page from index `from` of all: as many notes as the limits allow, in
      order, and a cursor at its last note exactly when more follow. */
  ghost predicate PageFrom(all: seq<Note>, from: nat, epoch: string, sizes: Sizes, page: Page)
    requires from <= |all|
  {
    var to := from + |page.notes|;
    && to <= |all| && page.notes == all[from..to]
    && |page.notes| <= PAGE_SIZE
    && (forall i | from <= i < to :: Fits(all, from, i, sizes))
    && (to < |all| ==> |page.notes| == PAGE_SIZE || !Fits(all, from, to, sizes))
    && (to < |all| ==> |page.notes| > 0)
    && page.next == if to == |all| then Start else Key(all[to - 1], epoch)
  }

  /** The first note of all past the cursor. */
  ghost predicate Begins(all: seq<Note>, c: Cursor, from: nat) {
    && from <= |all|
    && (forall i | 0 <= i < from :: !Past(all[i], c))
    && (forall i | from <= i < |all| :: Past(all[i], c))
  }

  // ---------------------------------------------------------------- the loop

  ghost predicate ChatsOf(chats: seq<int>, pending: map<int, seq<Event>>) {
    Rising(chats) && forall chat :: chat in chats <==> chat in pending
  }

  /** The chats with a queue, in order. */
  method SortedChats(pending: map<int, seq<Event>>) returns (chats: seq<int>)
    ensures ChatsOf(chats, pending)
  {
    chats := [];
    var left: set<int> := pending.Keys;
    while left != {}
      invariant left <= pending.Keys && Rising(chats)
      invariant forall chat :: chat in chats <==> chat in pending && chat !in left
      decreases |left|
    {
      InhabitedInts(left);
      var chat :| chat in left;
      chats := InsertChat(chats, chat);
      left := left - {chat};
    }
  }

  method InsertChat(chats: seq<int>, chat: int) returns (r: seq<int>)
    requires Rising(chats) && chat !in chats
    ensures Rising(r) && forall c :: c in r <==> c == chat || c in chats
  {
    var i := 0;
    while i < |chats| && chats[i] < chat
      invariant 0 <= i <= |chats|
      invariant forall j | 0 <= j < i :: chats[j] < chat
    {
      i := i + 1;
    }
    r := chats[..i] + [chat] + chats[i..];
    Inserted(chats, chat, i);
  }

  lemma Inserted(chats: seq<int>, chat: int, i: nat)
    requires Rising(chats) && i <= |chats| && chat !in chats
    requires (forall j | 0 <= j < i :: chats[j] < chat) && (i < |chats| ==> chat < chats[i])
    ensures var r := chats[..i] + [chat] + chats[i..];
            Rising(r) && forall c :: c in r <==> c == chat || c in chats
  {
    var r := chats[..i] + [chat] + chats[i..];
    forall j | 0 <= j < |r|
      ensures r[j] == if j < i then chats[j] else if j == i then chat else chats[j - 1]
    {}
    forall c ensures c in r <==> c == chat || c in chats {
      if c in chats {
        var j :| 0 <= j < |chats| && chats[j] == c;
        assert r[if j < i then j else j + 1] == c;
      }
    }
    forall j, k | 0 <= j < k < |r| ensures r[j] < r[k] {}
  }

  /** The loop of Pending over queues already pruned: the page past the cursor,
      or the refusal of a first note that fits no page. */
  method BuildPage(pending: map<int, seq<Event>>, epoch: string, c: Cursor, sizes: Sizes)
    returns (r: Result, ghost all: seq<Note>, ghost from: nat)
    requires Queued(pending) && !c.Malformed?
    ensures AllOf(all, pending) && Begins(all, c, from)
    ensures !r.BadCursor?
    ensures r.TooLarge? <==> from < |all| && !Fits(all, from, from, sizes)
    ensures r.Ok? ==> PageFrom(all, from, epoch, sizes, r.page)
  {
    hide *;
    var chats := SortedChats(pending);
    all := Listed(chats, |chats|, pending);
    ListedIsAll(chats, pending);
    from := FirstPast(all, c, pending);
    var notes: seq<Note> := [];
    var size: nat := sizes.envelope;
    ScanStarts(chats, pending, from, sizes);
    for ci := 0 to |chats|
      invariant ChatsScanned(chats, ci, pending, from, notes, size, sizes)
    {
      ghost var base := EnterQueue(chats, ci, pending, from, notes, size, sizes);
      var scan := PageQueue(chats[ci], pending[chats[ci]], ci + 1 == |chats|, epoch, c, sizes, notes, size, all,
                            base, from);
      if scan.Stop? { return scan.result, all, from; }
      LeaveQueue(chats, ci, pending, from, scan.notes, scan.size, sizes, base);
      notes, size := scan.notes, scan.size;
    }
    ScanEnds(chats, pending, from, notes, size, sizes, epoch);
    r := Ok(Page(notes, Start));
  }

  /** The outer loop: the queues of the first ci chats are scanned. */
  ghost predicate ChatsScanned(chats: seq<int>, ci: nat, pending: map<int, seq<Event>>,
                               from: nat, notes: seq<Note>, size: nat, sizes: Sizes)
  {
    ci <= |chats| && Scanned(Listed(chats, |chats|, pending), |Listed(chats, ci, pending)|, from, notes, size, sizes)
  }

  /** A chat's queue is the part of all from index base on. */
  ghost predicate PartAt(all: seq<Note>, base: nat, chat: int, queue: seq<Event>) {
    && base + |queue| <= |all|
    && forall i | 0 <= i < |queue| :: all[base + i] == Note(chat, queue[i])
  }

  lemma EnterQueue(chats: seq<int>, ci: nat, pending: map<int, seq<Event>>,
                   from: nat, notes: seq<Note>, size: nat, sizes: Sizes) returns (base: nat)
    requires ci < |chats| && Queued(pending) && ChatsOf(chats, pending)
    requires ChatsScanned(chats, ci, pending, from, notes, size, sizes)
    ensures chats[ci] in pending && base == |Listed(chats, ci, pending)|
    ensures var all, queue := Listed(chats, |chats|, pending), pending[chats[ci]];
            && PartAt(all, base, chats[ci], queue) && (ci + 1 == |chats| <==> base + |queue| == |all|)
            && Scanned(all, base, from, notes, size, sizes)
  {
    hide Scanned, Listed, NotesOf;
    assert chats[ci] in chats;
    base := |Listed(chats, ci, pending)|;
    Split(chats, ci, pending);
    if ci + 1 < |chats| {
      assert chats[ci + 1] in chats;
      Split(chats, ci + 1, pending);
      hide PartAt;
      NextQueue(chats, ci + 1, pending);
    }
  }

  lemma NextQueue(chats: seq<int>, ci: nat, pending: map<int, seq<Event>>)
    requires ci < |chats| && chats[ci] in pending && Queued(pending)
    requires PartAt(Listed(chats, |chats|, pending), |Listed(chats, ci, pending)|, chats[ci],
                    QueueOf(pending, chats[ci]))
    ensures |Listed(chats, ci, pending)| < |Listed(chats, |chats|, pending)|
  {
    hide Listed, Increasing;
  }

  lemma LeaveQueue(chats: seq<int>, ci: nat, pending: map<int, seq<Event>>,
                   from: nat, notes: seq<Note>, size: nat, sizes: Sizes, base: nat)
    requires ci < |chats| && chats[ci] in pending && base == |Listed(chats, ci, pending)|
    requires Scanned(Listed(chats, |chats|, pending), base + |pending[chats[ci]]|, from, notes, size, sizes)
    ensures ChatsScanned(chats, ci + 1, pending, from, notes, size, sizes)
  {
    hide Scanned;
  }

  datatype Scan = More(notes: seq<Note>, size: nat) | Stop(result: Result)

  /** The inner loop: one chat's queue, which starts at `base` of all. */
  method PageQueue(chat: int, queue: seq<Event>, last: bool, epoch: string, c: Cursor, sizes: Sizes,
                   notes: seq<Note>, size: nat, ghost all: seq<Note>, ghost base: nat, ghost from: nat)
    returns (r: Scan)
    requires PartAt(all, base, chat, queue) && (last <==> base + |queue| == |all|)
    requires Begins(all, c, from) && Scanned(all, base, from, notes, size, sizes)
    ensures r.More? ==> Scanned(all, base + |queue|, from, r.notes, r.size, sizes)
    ensures r.Stop? ==> !r.result.BadCursor? && (r.result.TooLarge? <==> from < |all| && !Fits(all, from, from, sizes))
    ensures r.Stop? && r.result.Ok? ==> from <= |all| && PageFrom(all, from, epoch, sizes, r.result.page)
  {
    hide *;
    var notes, size: nat := notes, size;
    for ei := 0 to |queue|
      invariant Scanned(all, base + ei, from, notes, size, sizes)
    {
      ghost var at := base + ei;
      var note := Note(chat, queue[ei]);
      PartHas(all, base, chat, queue, ei);
      ScanFacts(all, at, c, from, notes, size, sizes);
      if !Past(note, c) {
        ScanSkips(all, at, c, from, notes, size, sizes);
        continue;
      }
      if |notes| == PAGE_SIZE {
        ScanStops(all, at, c, from, notes, size, sizes, epoch);
        return Stop(Ok(Page(notes, Key(notes[|notes| - 1], epoch))));
      }
      var delta := sizes.note(note) + if |notes| > 0 then 1 else 0;
      var nextCursor := if ei + 1 < |queue| || !last then sizes.cursor(note.chat, note.e.id.sequence) else 0;
      NextFits(all, at, c, from, notes, size, sizes);
      assert at + 1 < |all| <==> ei + 1 < |queue| || !last;
      if size + delta + nextCursor >= MAX_PAGE_BYTES {
        if |notes| == 0 {
          ScanRefuses(all, at, c, from, notes, size, sizes);
          return Stop(TooLarge);
        }
        ScanStops(all, at, c, from, notes, size, sizes, epoch);
        return Stop(Ok(Page(notes, Key(notes[|notes| - 1], epoch))));
      }
      ScanTakes(all, at, c, from, notes, size, sizes);
      notes, size := notes + [note], size + delta;
    }
    r := More(notes, size);
  }

  lemma PartHas(all: seq<Note>, base: nat, chat: int, queue: seq<Event>, i: nat)
    requires PartAt(all, base, chat, queue) && i < |queue|
    ensures base + |queue| <= |all| && all[base + i] == Note(chat, queue[i])
  {}

  /** What the loop has done when it has passed the first `at` notes of all. */
  ghost predicate Scanned(all: seq<Note>, at: nat, from: nat, notes: seq<Note>, size: nat, sizes: Sizes) {
    && at <= |all| && from <= |all|
    && (if at <= from then notes == [] else notes == all[from..at])
    && |notes| <= PAGE_SIZE
    && size == Bytes(notes, sizes)
    && forall i | from <= i < at :: Fits(all, from, i, sizes)
  }

  lemma ScanStarts(chats: seq<int>, pending: map<int, seq<Event>>, from: nat, sizes: Sizes)
    requires from <= |Listed(chats, |chats|, pending)|
    ensures ChatsScanned(chats, 0, pending, from, [], sizes.envelope, sizes)
  {}

  lemma ScanFacts(all: seq<Note>, at: nat, c: Cursor, from: nat, notes: seq<Note>, size: nat, sizes: Sizes)
    requires Scanned(all, at, from, notes, size, sizes) && Begins(all, c, from) && at < |all|
    ensures |notes| <= PAGE_SIZE && (Past(all[at], c) <==> from <= at)
    ensures |notes| == PAGE_SIZE ==> |notes| > 0
  {}

  lemma ScanSkips(all: seq<Note>, at: nat, c: Cursor, from: nat, notes: seq<Note>, size: nat, sizes: Sizes)
    requires Scanned(all, at, from, notes, size, sizes) && Begins(all, c, from) && at < |all| && !Past(all[at], c)
    ensures Scanned(all, at + 1, from, notes, size, sizes)
  {
    assert all[from..from] == [];
  }

  /** The loop's own count of bytes says whether the next note fits. */
  lemma NextFits(all: seq<Note>, at: nat, c: Cursor, from: nat, notes: seq<Note>, size: nat, sizes: Sizes)
    requires Scanned(all, at, from, notes, size, sizes) && from <= at < |all|
    ensures Fits(all, from, at, sizes) <==>
              size + (sizes.note(all[at]) + if |notes| > 0 then 1 else 0) +
              (if at + 1 < |all| then sizes.cursor(all[at].chat, all[at].e.id.sequence) else 0) < MAX_PAGE_BYTES
  {
    OneMoreNote(all, from, at, sizes);
    assert all[from..from] == [];
  }

  lemma ScanTakes(all: seq<Note>, at: nat, c: Cursor, from: nat, notes: seq<Note>, size: nat, sizes: Sizes)
    requires Scanned(all, at, from, notes, size, sizes) && from <= at < |all| && |notes| < PAGE_SIZE
    requires Fits(all, from, at, sizes)
    ensures Scanned(all, at + 1, from, notes + [all[at]],
                    size + (sizes.note(all[at]) + if |notes| > 0 then 1 else 0), sizes)
  {
    hide Fits;
    OneMoreNote(all, from, at, sizes);
    assert all[from..from] == [];
  }

  lemma ScanStops(all: seq<Note>, at: nat, c: Cursor, from: nat, notes: seq<Note>, size: nat, sizes: Sizes,
                  epoch: string)
    requires Scanned(all, at, from, notes, size, sizes) && from <= at < |all| && |notes| > 0
    requires |notes| == PAGE_SIZE || !Fits(all, from, at, sizes)
    ensures PageFrom(all, from, epoch, sizes, Page(notes, Key(notes[|notes| - 1], epoch)))
    ensures from < |all| && Fits(all, from, from, sizes)
  {
    hide Fits;
    assert at > from;
  }

  lemma ScanRefuses(all: seq<Note>, at: nat, c: Cursor, from: nat, notes: seq<Note>, size: nat, sizes: Sizes)
    requires Scanned(all, at, from, notes, size, sizes) && from <= at < |all| && |notes| == 0
    requires !Fits(all, from, at, sizes)
    ensures from < |all| && !Fits(all, from, from, sizes)
  {
    hide Fits;
    assert at == from;
  }

  lemma ScanEnds(chats: seq<int>, pending: map<int, seq<Event>>, from: nat, notes: seq<Note>, size: nat,
                 sizes: Sizes, epoch: string)
    requires ChatsScanned(chats, |chats|, pending, from, notes, size, sizes)
    ensures var all := Listed(chats, |chats|, pending);
            from <= |all| && PageFrom(all, from, epoch, sizes, Page(notes, Start))
                && (from < |all| ==> Fits(all, from, from, sizes))
  {
    hide Fits;
    assert Listed(chats, |chats|, pending)[from..from] == [];
  }

  lemma OneMoreNote(all: seq<Note>, from: nat, at: nat, sizes: Sizes)
    requires from <= at < |all|
    ensures all[from..at + 1] == all[from..at] + [all[at]]
    ensures Bytes(all[from..at + 1], sizes) ==
              Bytes(all[from..at], sizes) + sizes.note(all[at]) + if at == from then 0 else 1
  {
    assert all[from..at + 1][..at - from] == all[from..at];
  }

  ghost method FirstPast(all: seq<Note>, c: Cursor, pending: map<int, seq<Event>>) returns (from: nat)
    requires AllOf(all, pending)
    ensures Begins(all, c, from) && from <= |all|
  {
    from := 0;
    while from < |all| && !Past(all[from], c)
      invariant from <= |all| && forall i | 0 <= i < from :: !Past(all[i], c)
    {
      from := from + 1;
    }
  }

  lemma {:induction false} ListedPrefix(chats: seq<int>, j: nat, k: nat, pending: map<int, seq<Event>>)
    requires j <= k <= |chats|
    ensures Listed(chats, j, pending) <= Listed(chats, k, pending)
  {
    if j < k { ListedPrefix(chats, j, k - 1, pending); }
  }

  lemma ListedStep(chats: seq<int>, ci: nat, pending: map<int, seq<Event>>)
    requires ci < |chats|
    ensures Listed(chats, ci + 1, pending)
            == Listed(chats, ci, pending) + NotesOf(chats[ci], QueueOf(pending, chats[ci]))
  {}

  /** Where the queue of chat number ci is in the list of all. */
  lemma Split(chats: seq<int>, ci: nat, pending: map<int, seq<Event>>)
    requires ci < |chats|
    ensures var base := |Listed(chats, ci, pending)|;
            && base + |QueueOf(pending, chats[ci])| == |Listed(chats, ci + 1, pending)|
            && PartAt(Listed(chats, |chats|, pending), base, chats[ci], QueueOf(pending, chats[ci]))
  {
    hide *;
    ListedPrefix(chats, ci + 1, |chats|, pending);
    ListedStep(chats, ci, pending);
    PrefixAt(Listed(chats, |chats|, pending), Listed(chats, ci, pending), chats[ci], QueueOf(pending, chats[ci]));
  }

  lemma PrefixAt(all: seq<Note>, part: seq<Note>, chat: int, queue: seq<Event>)
    requires part + NotesOf(chat, queue) <= all
    ensures |part + NotesOf(chat, queue)| == |part| + |queue| && PartAt(all, |part|, chat, queue)
  {
    forall i | 0 <= i < |queue| ensures all[|part| + i] == Note(chat, queue[i]) {
      assert (part + NotesOf(chat, queue))[|part| + i] == NotesOf(chat, queue)[i];
    }
  }

  // ---------------------------------------------------------------- following cursors

  /** One request of a receiver: every note pending then, and the page it got. */
  datatype Visit = Visit(all: seq<Note>, page: Page)

  /** A page past cursor c of what was pending at that visit. */
  ghost predicate Visited(v: Visit, c: Cursor, epoch: string, sizes: Sizes) {
    Ordered(v.all) && exists from: nat :: Begins(v.all, c, from) && PageFrom(v.all, from, epoch, sizes, v.page)
  }

  /** Visits that follow each other's cursors from c to a page without one. */
  ghost predicate Followed(visits: seq<Visit>, c: Cursor, epoch: string, sizes: Sizes)
    decreases |visits|
  {
    && |visits| > 0
    && Visited(visits[0], c, epoch, sizes)
    && (if visits[0].page.next == Start then |visits| == 1
        else Followed(visits[1..], visits[0].page.next, epoch, sizes))
  }

  /** How often the pages hold note n. */
  ghost function Times(visits: seq<Visit>, n: Note): nat {
    if |visits| == 0 then 0
    else multiset(visits[0].page.notes)[n] + Times(visits[1..], n)
  }

  /** A page holds exactly the notes past its cursor that its own next cursor
      is not before, each once. */
  lemma PageHolds(v: Visit, c: Cursor, epoch: string, sizes: Sizes, n: Note)
    requires Visited(v, c, epoch, sizes)
    ensures n in v.page.notes <==> n in v.all && Past(n, c) && (v.page.next == Start || !Past(n, v.page.next))
    ensures multiset(v.page.notes)[n] <= 1
  {
    hide Fits, Begins, Bytes;
    var from := PageBegins(v, c, epoch, sizes);
    var to := from + |v.page.notes|;
    if n in v.all {
      var i :| 0 <= i < |v.all| && v.all[i] == n;
      InSlice(v.all, from, to, i);
      BeginsAt(v.all, c, from, i);
      if v.page.next != Start { BeginsAt(v.all, v.page.next, to, i); }
    }
    Once(v.page.notes, n);
  }

  lemma BeginsAt(all: seq<Note>, c: Cursor, from: nat, i: nat)
    requires Begins(all, c, from) && i < |all|
    ensures Past(all[i], c) <==> from <= i
  {}

  lemma PageBegins(v: Visit, c: Cursor, epoch: string, sizes: Sizes) returns (from: nat)
    requires Visited(v, c, epoch, sizes)
    ensures var to := from + |v.page.notes|;
            && to <= |v.all| && v.page.notes == v.all[from..to] && Begins(v.all, c, from)
            && (v.page.next == Start ==> to == |v.all|)
            && (v.page.next != Start ==> |v.page.notes| > 0 && Begins(v.all, v.page.next, to) && to < |v.all|)
  {
    hide Fits;
    from :| Begins(v.all, c, from) && PageFrom(v.all, from, epoch, sizes, v.page);
    var to := from + |v.page.notes|;
    if to < |v.all| { NextBegins(v.all, to, epoch); }
  }

  lemma InSlice(all: seq<Note>, from: nat, to: nat, i: nat)
    requires Ordered(all) && from <= to <= |all| && i < |all|
    ensures all[i] in all[from..to] <==> from <= i < to
  {
    if from <= i < to { assert all[from..to][i - from] == all[i]; }
  }

  lemma {:induction false} Once(notes: seq<Note>, n: Note)
    requires Ordered(notes)
    ensures multiset(notes)[n] <= 1
  {
    if |notes| > 0 {
      var k := |notes| - 1;
      Once(notes[..k], n);
      assert notes == notes[..k] + [notes[k]];
    }
  }

  /** With acks, publishes and recipient changes between the pages, a note that
      is pending at every visit is on exactly one page, once; and nothing that
      the cursor is past comes again. */
  lemma {:induction false} SeenOnce(visits: seq<Visit>, c: Cursor, epoch: string, sizes: Sizes, n: Note)
    requires Followed(visits, c, epoch, sizes)
    requires forall v | v in visits :: n in v.all
    ensures Times(visits, n) == if Past(n, c) then 1 else 0
    decreases |visits|
  {
    var page := visits[0].page;
    PageHolds(visits[0], c, epoch, sizes, n);
    assert n in visits[0].all;
    if page.next != Start {
      SeenOnce(visits[1..], page.next, epoch, sizes, n);
      NextIsPast(visits[0], c, epoch, sizes, n);
    } else {
      assert visits[1..] == [];
    }
  }

  lemma NextIsPast(v: Visit, c: Cursor, epoch: string, sizes: Sizes, n: Note)
    requires Visited(v, c, epoch, sizes) && v.page.next != Start
    ensures Past(n, v.page.next) ==> Past(n, c)
  {
    var from: nat :| Begins(v.all, c, from) && PageFrom(v.all, from, epoch, sizes, v.page);
    assert Past(v.all[from + |v.page.notes| - 1], c);
  }

  ghost function AllNotes(visits: seq<Visit>): seq<Note> {
    if |visits| == 0 then [] else visits[0].page.notes + AllNotes(visits[1..])
  }

  /** On a store that does not change, following the cursors from the first
      page gives every pending note exactly once, in (chat, sequence) order,
      within as many pages as there are notes, or in one empty page. */
  lemma {:induction false} FixedStore(visits: seq<Visit>, all: seq<Note>, c: Cursor, from: nat, epoch: string,
                                      sizes: Sizes)
    requires Followed(visits, c, epoch, sizes)
    requires Begins(all, c, from) && forall v | v in visits :: v.all == all
    ensures AllNotes(visits) == all[from..]
    ensures |visits| <= |all| - from + 1
    ensures from < |all| ==> |visits| <= |all| - from
    decreases |visits|
  {
    hide Visited, Begins;
    var page := visits[0].page;
    assert visits[0].all == all;
    var f := PageBegins(visits[0], c, epoch, sizes);
    SameBeginning(all, c, f, from);
    var to := from + |page.notes|;
    if page.next == Start {
      assert visits[1..] == [];
      assert all[from..to] == all[from..];
    } else {
      assert forall v | v in visits[1..] :: v in visits;
      FixedStore(visits[1..], all, page.next, to, epoch, sizes);
      assert all[from..to] + all[to..] == all[from..];
    }
  }

  lemma SameBeginning(all: seq<Note>, c: Cursor, f: nat, g: nat)
    requires Begins(all, c, f) && Begins(all, c, g)
    ensures f == g
  {
    var a := f < |all| && Past(all[f], c);
    var b := g < |all| && Past(all[g], c);
  }

  lemma NextBegins(all: seq<Note>, to: nat, epoch: string)
    requires Ordered(all) && 0 < to <= |all|
    ensures Begins(all, Key(all[to - 1], epoch), to)
  {}

  // ---------------------------------------------------------------- cursors accepted

  /** Pending's checks of a cursor against memory m. */
  predicate CursorOK(m: Mem, c: Cursor) {
    match c
    case Start => true
    case Malformed => false
    case After(epoch, chat, sequence) =>
      epoch == m.epoch && chat != 0 && 0 < sequence <= m.sequence
  }

  /** The cursor of a page is accepted by the store that made it, and by every
      later state of it, exactly if the page does not end in chat 0. */
  lemma NextCursorAcceptedIff(m: Mem, later: Mem, all: seq<Note>, from: nat, sizes: Sizes, page: Page, issued: Issued)
    requires ContentOK(m.c, m.epoch, m.sequence, issued)
    requires later.epoch == m.epoch && m.sequence <= later.sequence
    requires from <= |all| && (forall n | n in all :: n.chat in m.c.pending && n.e in m.c.pending[n.chat])
    requires PageFrom(all, from, m.epoch, sizes, page)
    ensures CursorOK(later, page.next) <==> page.next == Start || page.notes[|page.notes| - 1].chat != 0
  {
    if page.next != Start {
      var last := all[from + |page.notes| - 1];
      assert last in all;
      assert IssuedAs(last.e.id, m.epoch, m.sequence, issued);
    }
  }

  /** Pruned queues are as the paging loop needs them. */
  lemma PrunedQueued(c: Content, at: int, epoch: string, sequence: nat, issued: Issued)
    requires ContentOK(c, epoch, sequence, issued)
    ensures Queued(PruneContent(c, at).pending)
  {
    PruneKeeps(c, at, epoch, sequence, issued);
  }
}
