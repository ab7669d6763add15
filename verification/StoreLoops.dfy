/** The loops of server/internal/notifications over lists and maps. */
module StoreLoops {
  // They read without changing the store; each is proved against the function that
  // specifies it.

  import opened Events
  import opened QueueLaws
  import opened Sets

  // ---------------------------------------------------------------- lists

  /** boundedEvents: a window of the last `limit` kept events slides over the list. */
  method BoundedEvents(events: seq<Event>, limit: nat, keep: Keep) returns (kept: seq<Event>)
    requires limit > 0
    ensures kept == Bounded(events, limit, keep)
  {
    hide *;
    kept := [];
    WindowStarts(events, limit, keep);
    for i := 0 to |events|
      invariant kept == Bounded(events[..i], limit, keep)
    {
      WindowSlides(events, i, limit, keep);
      if Kept(events[i], keep) {
        if |kept| == limit {
          kept := kept[1..] + [events[i]];
        } else {
          kept := kept + [events[i]];
        }
      }
    }
    assert events[..|events|] == events;
  }

  lemma WindowStarts(events: seq<Event>, limit: nat, keep: Keep)
    ensures Bounded(events[..0], limit, keep) == []
  {}

  lemma WindowSlides(events: seq<Event>, i: nat, limit: nat, keep: Keep)
    requires i < |events| && limit > 0
    ensures var kept := Bounded(events[..i], limit, keep);
            && |kept| <= limit
            && Bounded(events[..i + 1], limit, keep) ==
                 if !Kept(events[i], keep) then kept
                 else if |kept| == limit then kept[1..] + [events[i]] else kept + [events[i]]
  {
    hide Kept, Select, LastOf;
    SelectNext(events, i, keep);
    LastOfNext(Select(events[..i], keep), events[i], limit);
  }

  lemma SelectNext(events: seq<Event>, i: nat, keep: Keep)
    requires i < |events|
    ensures Select(events[..i + 1], keep) ==
              if Kept(events[i], keep) then Select(events[..i], keep) + [events[i]] else Select(events[..i], keep)
  {
    hide Kept;
    assert events[..i + 1][..i] == events[..i];
  }

  lemma LastOfNext(s: seq<Event>, e: Event, limit: nat)
    requires limit > 0
    ensures |LastOf(s, limit)| <= limit
    ensures LastOf(s + [e], limit) ==
              if |LastOf(s, limit)| == limit then LastOf(s, limit)[1..] + [e] else LastOf(s, limit) + [e]
  {}

  method SameEvents(a: seq<Event>, b: seq<Event>) returns (same: bool)
    ensures same <==> a == b
  {
    if |a| != |b| { return false; }
    for i := 0 to |a|
      invariant forall j | 0 <= j < i :: a[j] == b[j]
    {
      if a[i].id != b[i].id || a[i].at != b[i].at || a[i].text != b[i].text { return false; }
    }
    return true;
  }

  method LiveIDs(events: seq<Event>) returns (live: set<EventID>)
    ensures live == IDs(events)
  {
    live := {};
    for i := 0 to |events|
      invariant live == set j | 0 <= j < i :: events[j].id
    {
      live := live + {events[i].id};
    }
  }

  /** The part of Ack that takes an event out of a queue. */
  method Remove(queue: seq<Event>, id: EventID) returns (kept: seq<Event>, changed: bool)
    ensures kept == Without(queue, id)
    ensures changed <==> id in IDs(queue)
  {
    kept, changed := [], false;
    for i := 0 to |queue|
      invariant kept == Without(queue[..i], id)
      invariant changed <==> exists j | 0 <= j < i :: queue[j].id == id
    {
      assert queue[..i + 1][..i] == queue[..i];
      if queue[i].id == id {
        changed := true;
      } else {
        kept := kept + [queue[i]];
      }
    }
    assert queue[..|queue|] == queue;
  }

  // ---------------------------------------------------------------- recipients

  method EarliestOf(list: seq<Recipient>) returns (next: map<int, Recipient>)
    ensures next == Earliest(list)
  {
    next := map[];
    for i := 0 to |list|
      invariant next == Earliest(list[..i])
    {
      assert list[..i + 1][..i] == list[..i];
      var r := list[i];
      if r.chat !in next || r.firstSeen < next[r.chat].firstSeen {
        next := next[r.chat := r];
      }
    }
    assert list[..|list|] == list;
  }

  /** What the loops over a chat's queue and the recent list have merged:
      events open to the chat, no ID twice. */
  ghost predicate Merged(merged: seq<Event>, seen: set<EventID>, from: set<Event>, keep: Keep) {
    && (forall e :: e in merged <==> e in from && Kept(e, keep))
    && (forall i, j | 0 <= i < j < |merged| :: merged[i].id != merged[j].id)
    && seen == IDs(merged)
  }

  /** No two events of the set share an ID. */
  ghost predicate OneEach(events: set<Event>) {
    forall a, b | a in events && b in events && a.id == b.id :: a == b
  }

  method MergeList(events: seq<Event>, closed: map<EventID, int>, since: int,
                   merged: seq<Event>, seen: set<EventID>, ghost from: set<Event>)
    returns (merged': seq<Event>, seen': set<EventID>)
    requires Merged(merged, seen, from, Open(closed, since)) && OneEach(from + SetOf(events))
    ensures Merged(merged', seen', from + SetOf(events), Open(closed, since))
  {
    hide Merged, OneEach, IDs;
    merged', seen' := merged, seen;
    MergeStarts(events, merged, seen, from, Open(closed, since));
    for i := 0 to |events|
      invariant Merged(merged', seen', from + SetOf(events[..i]), Open(closed, since))
    {
      var event := events[i];
      MergeStep(events, i, merged', seen', from, Open(closed, since));
      if event.id in seen' || event.id in closed || event.at < since {
        continue;
      }
      seen' := seen' + {event.id};
      merged' := merged' + [event];
    }
    assert events[..|events|] == events;
  }

  lemma MergeStarts(events: seq<Event>, merged: seq<Event>, seen: set<EventID>, from: set<Event>, keep: Keep)
    requires Merged(merged, seen, from, keep)
    ensures Merged(merged, seen, from + SetOf(events[..0]), keep)
  {
    assert from + SetOf(events[..0]) == from;
  }

  lemma MergeStep(events: seq<Event>, i: nat, merged: seq<Event>, seen: set<EventID>, from: set<Event>, keep: Keep)
    requires i < |events| && Merged(merged, seen, from + SetOf(events[..i]), keep)
    requires OneEach(from + SetOf(events))
    ensures var e, next := events[i], from + SetOf(events[..i + 1]);
            if e.id in seen || !Kept(e, keep) then Merged(merged, seen, next, keep)
            else Merged(merged + [e], seen + {e.id}, next, keep)
  {
    hide Kept;
    var e, done, next := events[i], from + SetOf(events[..i]), from + SetOf(events[..i + 1]);
    assert next == done + {e} by { NextSet(events, i, from); }
    if e.id in seen {
      var x :| x in merged && x.id == e.id;
      assert x in from + SetOf(events) && e in from + SetOf(events);
    }
  }

  lemma NextSet(events: seq<Event>, i: nat, from: set<Event>)
    requires i < |events|
    ensures from + SetOf(events[..i + 1]) == from + SetOf(events[..i]) + {events[i]}
  {
    assert events[..i + 1] == events[..i] + [events[i]];
  }

  ghost predicate Sorted(s: seq<Event>) {
    forall i, j | 0 <= i < j < |s| :: s[i].id.sequence <= s[j].id.sequence
  }

  /** The library sort: any order of equal keys would do, and none occur. */
  method SortBySequence(s: seq<Event>) returns (r: seq<Event>)
    ensures Sorted(r) && multiset(r) == multiset(s)
  {
    r := [];
    for i := 0 to |s|
      invariant Sorted(r) && multiset(r) == multiset(s[..i])
    {
      hide Sorted;
      assert s[..i + 1] == s[..i] + [s[i]];
      r := Insert(r, s[i]);
    }
    assert s[..|s|] == s;
  }

  method Insert(s: seq<Event>, e: Event) returns (r: seq<Event>)
    requires Sorted(s)
    ensures Sorted(r) && multiset(r) == multiset(s + [e])
  {
    hide Sorted;
    var k: nat := |s|;
    while k > 0 && e.id.sequence < s[k - 1].id.sequence
      invariant k <= |s| && forall j | k <= j < |s| :: e.id.sequence < s[j].id.sequence
    {
      k := k - 1;
    }
    r := s[..k] + [e] + s[k..];
    InsertSorts(s, e, k);
    InsertKeeps(s, e, k);
  }

  lemma InsertSorts(s: seq<Event>, e: Event, k: nat)
    requires Sorted(s) && k <= |s| && (forall j | k <= j < |s| :: e.id.sequence < s[j].id.sequence)
    requires k > 0 ==> s[k - 1].id.sequence <= e.id.sequence
    ensures Sorted(s[..k] + [e] + s[k..])
  {
    var r := s[..k] + [e] + s[k..];
    forall i | 0 <= i < |r| ensures r[i] == if i < k then s[i] else if i == k then e else s[i - 1] {}
  }

  lemma InsertKeeps(s: seq<Event>, e: Event, k: nat)
    requires k <= |s|
    ensures multiset(s[..k] + [e] + s[k..]) == multiset(s + [e])
  {
    assert s == s[..k] + s[k..];
  }

  /** A sorted list of the merged events is the merge of the two lists. */
  lemma SortedIsMerge(sorted: seq<Event>, merged: seq<Event>, seen: set<EventID>, a: seq<Event>, b: seq<Event>,
                      keep: Keep, epoch: string, sequence: nat, issued: Issued)
    requires ListOK(a, epoch, sequence, issued) && ListOK(b, epoch, sequence, issued)
    requires Merged(merged, seen, SetOf(a) + SetOf(b), keep)
    requires Sorted(sorted) && multiset(sorted) == multiset(merged)
    ensures sorted == Merge(Select(a, keep), Select(b, keep))
  {
    hide Select, Merge, Kept, ListOK, Merged;
    var sa, sb := Select(a, keep), Select(b, keep);
    SelectListOK(a, keep, epoch, sequence, issued);
    SelectListOK(b, keep, epoch, sequence, issued);
    MergeIncreasing(sa, sb, issued, epoch, sequence);
    SortedIncreasing(sorted, merged, seen, a, b, keep, epoch, sequence, issued);
    forall e ensures e in sorted <==> e in Merge(sa, sb) {
      MergeMember(sa, sb, e, issued, epoch, sequence);
      SelectMember(a, keep, e);
      SelectMember(b, keep, e);
      assert e in sorted <==> e in multiset(sorted);
      assert e in merged <==> e in multiset(merged);
      MergedMember(merged, seen, a, b, keep, e);
    }
    assert SetOf(sorted) == SetOf(Merge(sa, sb));
    SameOrder(sorted, Merge(sa, sb));
  }

  lemma MergedMember(merged: seq<Event>, seen: set<EventID>, a: seq<Event>, b: seq<Event>, keep: Keep, e: Event)
    requires Merged(merged, seen, SetOf(a) + SetOf(b), keep)
    ensures e in merged <==> (e in a || e in b) && Kept(e, keep)
  {}

  /** Distinct IDs of one epoch have distinct sequences. */
  lemma SortedIncreasing(sorted: seq<Event>, merged: seq<Event>, seen: set<EventID>, a: seq<Event>, b: seq<Event>,
                         keep: Keep, epoch: string, sequence: nat, issued: Issued)
    requires ListOK(a, epoch, sequence, issued) && ListOK(b, epoch, sequence, issued)
    requires Merged(merged, seen, SetOf(a) + SetOf(b), keep)
    requires Sorted(sorted) && multiset(sorted) == multiset(merged)
    ensures Increasing(sorted)
  {
    hide Kept;
    forall i, j | 0 <= i < j < |sorted| ensures sorted[i].id.sequence < sorted[j].id.sequence {
      var x, y := sorted[i], sorted[j];
      assert x in multiset(sorted) && y in multiset(sorted);
      assert x in merged && y in merged;
      assert (x in a || x in b) && (y in a || y in b);
      assert x.id.epoch == epoch == y.id.epoch;
      if x.id.sequence == y.id.sequence {
        assert x == y by {
          var p :| 0 <= p < |merged| && merged[p] == x;
          var q :| 0 <= q < |merged| && merged[q] == y;
        }
        TwicePresent(sorted, i, j);
        OncePresent(merged, x);
      }
    }
  }

  lemma TwicePresent(s: seq<Event>, i: nat, j: nat)
    requires i < j < |s| && s[i] == s[j]
    ensures multiset(s)[s[i]] >= 2
  {
    assert s == s[..j] + s[j..];
    assert s[i] in s[..j] && s[j..][0] == s[i];
  }

  lemma {:induction false} OncePresent(s: seq<Event>, e: Event)
    requires forall i, j | 0 <= i < j < |s| :: s[i].id != s[j].id
    ensures multiset(s)[e] <= 1
  {
    if |s| > 0 {
      var k := |s| - 1;
      assert s == s[..k] + [s[k]];
      OncePresent(s[..k], e);
      if e == s[k] { assert e !in s[..k]; }
    }
  }

  // ---------------------------------------------------------------- valid files

  /** The events checked so far: each in order, of the epoch, and one to an ID. */
  ghost predicate KnownAre(known: map<EventID, Event>, events: set<Event>) {
    && (forall e | e in events :: e.id in known && known[e.id] == e)
    && (forall id | id in known :: known[id] in events && known[id].id == id)
  }

  ghost predicate ValidPrefix(s: Saved, list: seq<Event>, previous: nat) {
    && ValidList(s, list)
    && previous == if list == [] then 0 else list[|list| - 1].id.sequence
  }

  /** validEvents: a list in order, of the file's epoch, that agrees with the
      events already known. */
  method ValidEvents(s: Saved, list: seq<Event>, known: map<EventID, Event>, ghost before: set<Event>)
    returns (ok: bool, known': map<EventID, Event>)
    requires KnownAre(known, before)
    ensures ok <==> ValidList(s, list) && OneEach(before + SetOf(list))
    ensures ok ==> KnownAre(known', before + SetOf(list))
  {
    var previous := 0;
    known' := known;
    hide KnownAre, OneEach, ValidPrefix, ValidList;
    KnownOnce(known, before);
    ValidStarts(s, list, before);
    for i := 0 to |list|
      invariant ValidPrefix(s, list[..i], previous)
      invariant KnownAre(known', before + SetOf(list[..i])) && OneEach(before + SetOf(list[..i]))
    {
      var event := list[i];
      ValidStep(s, list, i, previous, known', before);
      if !ValidID(event.id) || event.id.epoch != s.epoch || event.id.sequence > s.sequence
          || event.id.sequence <= previous {
        return false, known';
      }
      if event.id in known' && (known'[event.id].at != event.at || known'[event.id].text != event.text) {
        return false, known';
      }
      previous := event.id.sequence;
      known' := known'[event.id := event];
    }
    assert list[..|list|] == list;
    ok := true;
    PrefixValid(s, list, previous);
  }

  lemma PrefixValid(s: Saved, list: seq<Event>, previous: nat)
    ensures ValidPrefix(s, list, previous) ==> ValidList(s, list)
  {}

  lemma KnownOnce(known: map<EventID, Event>, events: set<Event>)
    requires KnownAre(known, events)
    ensures OneEach(events)
  {}

  lemma ValidStarts(s: Saved, list: seq<Event>, before: set<Event>)
    ensures ValidPrefix(s, list[..0], 0) && before + SetOf(list[..0]) == before
  {}

  /** One event either fails a test, and then no list that holds it is valid,
      or joins the known ones. */
  lemma ValidStep(s: Saved, list: seq<Event>, i: nat, previous: nat, known: map<EventID, Event>, before: set<Event>)
    requires i < |list| && ValidPrefix(s, list[..i], previous) && KnownAre(known, before + SetOf(list[..i]))
    ensures var e := list[i];
            var inOrder := ValidID(e.id) && e.id.epoch == s.epoch && e.id.sequence <= s.sequence
                && e.id.sequence > previous;
            var agrees := e.id in known ==> known[e.id].at == e.at && known[e.id].text == e.text;
            && (!inOrder ==> !ValidList(s, list))
            && (!agrees ==> !OneEach(before + SetOf(list)))
            && (inOrder ==> ValidPrefix(s, list[..i + 1], e.id.sequence))
            && (agrees ==>
                  && KnownAre(known[e.id := e], before + SetOf(list[..i + 1]))
                  && OneEach(before + SetOf(list[..i + 1])))
  {
    hide ValidID, ValidPrefix, ValidList, KnownAre, OneEach;
    NextSet(list, i, before);
    OrderStep(s, list, i, previous);
    KnownStep(known, before + SetOf(list[..i]), list[i]);
    if list[i].id in known && known[list[i].id] != list[i] {
      var rest := SetOf(list);
      assert SetOf(list[..i + 1]) <= rest;
      FewerOneEach(before + SetOf(list[..i + 1]), before + rest);
    }
  }

  lemma FewerOneEach(part: set<Event>, whole: set<Event>)
    ensures part <= whole && OneEach(whole) ==> OneEach(part)
  {}

  lemma OrderStep(s: Saved, list: seq<Event>, i: nat, previous: nat)
    requires i < |list| && ValidPrefix(s, list[..i], previous)
    ensures var e := list[i];
            if ValidID(e.id) && e.id.epoch == s.epoch && e.id.sequence <= s.sequence && e.id.sequence > previous
            then ValidPrefix(s, list[..i + 1], e.id.sequence)
            else !ValidList(s, list)
  {
    hide ValidEpoch;
    var e, part := list[i], list[..i];
    assert list[..i + 1] == part + [e];
    if i > 0 {
      assert part[i - 1] == list[i - 1];
      assert previous == list[i - 1].id.sequence;
    }
    if ValidList(s, list) { assert e in list; }
  }

  lemma KnownStep(known: map<EventID, Event>, done: set<Event>, e: Event)
    requires KnownAre(known, done)
    ensures e.id in known ==> known[e.id].id == e.id
    ensures e.id in known && known[e.id] != e ==> !OneEach(done + {e})
    ensures e.id in known ==> known[e.id] == e ==> KnownAre(known[e.id := e], done + {e}) && OneEach(done + {e})
    ensures e.id !in known ==> KnownAre(known[e.id := e], done + {e}) && OneEach(done + {e})
  {
    if e.id !in known || known[e.id] == e {
      KnownOnce(known[e.id := e], done + {e});
    } else {
      assert known[e.id] in done + {e} && e in done + {e};
    }
  }

  method ValidRecipients(recipients: map<int, Recipient>) returns (ok: bool)
    ensures ok <==> forall chat | chat in recipients :: recipients[chat].chat == chat
  {
    var left: set<int> := recipients.Keys;
    while left != {}
      invariant left <= recipients.Keys
      invariant forall chat | chat in recipients && chat !in left :: recipients[chat].chat == chat
      decreases |left|
    {
      InhabitedInts(left);
      var chat :| chat in left;
      if recipients[chat].chat != chat { return false; }
      left := left - {chat};
    }
    return true;
  }

  lemma InhabitedIDs(s: set<EventID>)
    ensures s == {} || exists x :: x in s
  {
    if !(exists x :: x in s) { assert s == {}; }
  }

  // The chats' queues.

  ghost predicate QueueValid(s: Saved, chat: int)
    requires chat in s.c.pending
  {
    && chat in s.c.recipients && ValidList(s, s.c.pending[chat])
    && forall e | e in s.c.pending[chat] :: e.id !in ClosedOf(s.c.closed, chat)
  }

  /** The events of the recent list and of the queues of these chats. */
  ghost function ListedOf(s: Saved, chats: set<int>): set<Event> {
    SetOf(s.c.recent) + set chat, e | chat in chats && chat in s.c.pending && e in s.c.pending[chat] :: e
  }

  method ValidQueues(s: Saved, known: map<EventID, Event>) returns (ok: bool, known': map<EventID, Event>)
    requires KnownAre(known, ListedOf(s, {}))
    ensures ok <==> (forall chat | chat in s.c.pending :: QueueValid(s, chat)) && OneEach(ListedOf(s, s.c.pending.Keys))
    ensures ok ==> KnownAre(known', ListedOf(s, s.c.pending.Keys))
  {
    hide KnownAre, OneEach, QueueValid, ListedOf;
    var left: set<int> := s.c.pending.Keys;
    known' := known;
    KnownOnce(known, ListedOf(s, {}));
    ghost var done: set<int> := {};
    assert s.c.pending.Keys - left == {};
    while left != {}
      invariant left <= s.c.pending.Keys && done == s.c.pending.Keys - left
      invariant forall chat | chat in done :: chat in s.c.pending && QueueValid(s, chat)
      invariant KnownAre(known', ListedOf(s, done)) && OneEach(ListedOf(s, done))
      decreases |left|
    {
      InhabitedInts(left);
      var chat :| chat in left;
      MoreListed(s, done, chat);
      FewerOneEach(ListedOf(s, done + {chat}), ListedOf(s, s.c.pending.Keys));
      if chat !in s.c.recipients {
        QueueValidIs(s, chat);
        return false, known';
      }
      var valid, more := ValidEvents(s, s.c.pending[chat], known', ListedOf(s, done));
      QueueValidIs(s, chat);
      if !valid { return false, known'; }
      var open := NoneClosed(s.c.pending[chat], ClosedOf(s.c.closed, chat));
      if !open { return false, known'; }
      KnownOnce(more, ListedOf(s, done + {chat}));
      known' := more;
      left := left - {chat};
      done := done + {chat};
    }
    assert done == s.c.pending.Keys;
    ok := true;
  }

  lemma QueueValidIs(s: Saved, chat: int)
    requires chat in s.c.pending
    ensures QueueValid(s, chat) <==>
              && chat in s.c.recipients && ValidList(s, s.c.pending[chat])
              && forall e | e in s.c.pending[chat] :: e.id !in ClosedOf(s.c.closed, chat)
  {}

  lemma MoreListed(s: Saved, done: set<int>, chat: int)
    requires chat in s.c.pending
    ensures ListedOf(s, done + {chat}) == ListedOf(s, done) + SetOf(s.c.pending[chat])
    ensures done <= s.c.pending.Keys ==> ListedOf(s, done + {chat}) <= ListedOf(s, s.c.pending.Keys)
  {}

  method NoneClosed(queue: seq<Event>, closed: map<EventID, int>) returns (open: bool)
    ensures open <==> forall e | e in queue :: e.id !in closed
  {
    for i := 0 to |queue|
      invariant forall j | 0 <= j < i :: queue[j].id !in closed
    {
      if queue[i].id in closed { return false; }
    }
    return true;
  }

  // The chats' progress.

  ghost predicate ProgressValid(s: Saved, known: map<EventID, Event>, chat: int, id: EventID)
    requires chat in s.c.closed && id in s.c.closed[chat]
  {
    && ValidID(id) && id.epoch == s.epoch && id.sequence <= s.sequence
    && (id in known ==> known[id].at == s.c.closed[chat][id])
  }

  method ValidClosed(s: Saved, known: map<EventID, Event>) returns (ok: bool)
    ensures ok <==> forall chat, id | chat in s.c.closed && id in s.c.closed[chat] :: ProgressValid(s, known, chat, id)
  {
    hide ProgressValid;
    var left: set<int> := s.c.closed.Keys;
    while left != {}
      invariant left <= s.c.closed.Keys
      invariant forall chat, id | chat in s.c.closed && chat !in left
                && id in s.c.closed[chat] :: ProgressValid(s, known, chat, id)
      decreases |left|
    {
      InhabitedInts(left);
      var chat :| chat in left;
      var valid := ValidProgress(s, known, chat);
      if !valid { return false; }
      left := left - {chat};
    }
    return true;
  }

  method ValidProgress(s: Saved, known: map<EventID, Event>, chat: int) returns (ok: bool)
    requires chat in s.c.closed
    ensures ok <==> forall id | id in s.c.closed[chat] :: ProgressValid(s, known, chat, id)
  {
    hide ValidID;
    var ids: set<EventID> := s.c.closed[chat].Keys;
    while ids != {}
      invariant ids <= s.c.closed[chat].Keys
      invariant forall id | id in s.c.closed[chat] && id !in ids :: ProgressValid(s, known, chat, id)
      decreases |ids|
    {
      InhabitedIDs(ids);
      var id :| id in ids;
      if !ValidID(id) || id.epoch != s.epoch || id.sequence > s.sequence { return false; }
      if id in known && known[id].at != s.c.closed[chat][id] { return false; }
      ids := ids - {id};
    }
    return true;
  }

  /** The check of a decoded file accepts exactly the files that are valid. */
  method ValidSavedState(s: Saved) returns (ok: bool)
    ensures ok <==> ValidSaved(s)
  {
    hide *;
    if s.version != 1 || !ValidEpoch(s.epoch) || s.reserved < s.sequence {
      NotValid(s);
      return false;
    }
    NothingKnown(s);
    ValidIs(s);
    var recentOK, known := ValidEvents(s, s.c.recent, map[], {});
    if !recentOK { return false; }
    var recipientsOK := ValidRecipients(s.c.recipients);
    if !recipientsOK { return false; }
    var queuesOK, all := ValidQueues(s, known);
    if !queuesOK { return false; }
    var closedOK := ValidClosed(s, all);
    ClosedIs(s, all);
    ok := closedOK;
  }

  lemma NotValid(s: Saved)
    requires s.version != 1 || !ValidEpoch(s.epoch) || s.reserved < s.sequence
    ensures !ValidSaved(s)
  {}

  lemma NothingKnown(s: Saved)
    ensures KnownAre(map[], {}) && {} + SetOf(s.c.recent) == SetOf(s.c.recent) == ListedOf(s, {})
    ensures OneEach(ListedOf(s, s.c.pending.Keys)) ==> OneEach(ListedOf(s, {}))
  {}

  ghost predicate ClosedValid(s: Saved) {
    && (forall chat, id | chat in s.c.closed && id in s.c.closed[chat] ::
          ValidID(id) && id.epoch == s.epoch && id.sequence <= s.sequence)
    && forall chat, e | chat in s.c.closed && ListedIn(s, e)
        && e.id in s.c.closed[chat] :: s.c.closed[chat][e.id] == e.at
  }

  /** Valid as the parts the check goes through. */
  lemma ValidIs(s: Saved)
    requires s.version == 1 && ValidEpoch(s.epoch) && s.sequence <= s.reserved
    ensures ValidSaved(s) <==>
              && ValidList(s, s.c.recent)
              && (forall chat | chat in s.c.recipients :: s.c.recipients[chat].chat == chat)
              && (forall chat | chat in s.c.pending :: QueueValid(s, chat))
              && OneEach(ListedOf(s, s.c.pending.Keys))
              && ClosedValid(s)
  {
    hide ValidList, ValidEpoch, ValidID;
    ListedIs(s);
  }

  lemma ListedIs(s: Saved)
    ensures forall e :: ListedIn(s, e) <==> e in ListedOf(s, s.c.pending.Keys)
  {}

  lemma ClosedIs(s: Saved, known: map<EventID, Event>)
    requires KnownAre(known, ListedOf(s, s.c.pending.Keys))
    ensures ClosedValid(s) <==>
              forall chat, id | chat in s.c.closed && id in s.c.closed[chat] :: ProgressValid(s, known, chat, id)
  {
    hide ValidID, ListedOf, ListedIn;
    ListedIs(s);
    if ClosedValid(s) {
      forall chat, id | chat in s.c.closed && id in s.c.closed[chat] ensures ProgressValid(s, known, chat, id) {
        if id in known { assert ListedIn(s, known[id]); }
      }
    }
    if forall chat, id | chat in s.c.closed && id in s.c.closed[chat] :: ProgressValid(s, known, chat, id) {
      forall chat, e | chat in s.c.closed && ListedIn(s, e) && e.id in s.c.closed[chat]
        ensures s.c.closed[chat][e.id] == e.at
      {
        assert ProgressValid(s, known, chat, e.id);
      }
    }
  }
}
