/** The state of the durable notification queue, as values. */
module Events {
  // What each section of server/internal/notifications under `mu` does to it, as
  // functions. Module NotificationStore proves the imperative code against these
  // functions, module NotificationRuns proves what every run of them keeps.

  const MAX_UINT64: nat := 0xFFFF_FFFF_FFFF_FFFF
  const SEQUENCE_RESERVE: nat := 0x1_0000_0000
  const MAX_RECENT: nat := 20
  const MAX_PER_CHAT: nat := 20
  const MAX_AGE: int := 12 * 3600 * 1_000_000_000

  /** An event ID is written as `epoch:sequence`; only pairs occur here. */
  datatype EventID = EventID(epoch: string, sequence: nat)
  datatype Event = Event(id: EventID, at: int, text: string)
  datatype Recipient = Recipient(chat: int, firstSeen: int)

  /** A subscription's health record: one the store can decode, or other JSON. */
  datatype Health = Known(available: bool) | Other(raw: string)

  /** What a save stores of the queue, apart from its counters. */
  datatype Content = Content(
    recent: seq<Event>,
    recipients: map<int, Recipient>,
    pending: map<int, seq<Event>>,
    closed: map<int, map<EventID, int>>,
    health: map<string, Health>)

  datatype Mem = Mem(
    epoch: string,          // "" until the store has an identity
    sequence: nat,
    reservedThrough: nat,
    revision: nat,
    savedRevision: nat,
    needsBackup: bool,
    c: Content)

  datatype Saved = Saved(version: int, epoch: string, sequence: nat, reserved: nat, c: Content)

  const EMPTY := Content([], map[], map[], map[], map[])
  const NEW_MEM := Mem("", 0, SEQUENCE_RESERVE, 1, 0, false, EMPTY)

  function Max(a: int, b: int): int { if a < b then b else a }

  predicate ValidEpoch(epoch: string) {
    |epoch| == 32 && forall i | 0 <= i < 32 :: '0' <= epoch[i] <= '9' || 'a' <= epoch[i] <= 'f'
  }

  /** ParseEventID accepts exactly these pairs. */
  predicate ValidID(id: EventID) {
    ValidEpoch(id.epoch) && 0 < id.sequence <= MAX_UINT64
  }

  // ---------------------------------------------------------------- lists

  ghost predicate Increasing(s: seq<Event>) {
    forall i, j | 0 <= i < j < |s| :: s[i].id.sequence < s[j].id.sequence
  }

  /** The tests the source filters events with: age alone, age with a chat's
      progress, a chat's progress alone, and every event but one. */
  datatype Keep =
    | Fresh(at: int)
    | FreshOpen(at: int, closed: map<EventID, int>, since: int)
    | Open(closed: map<EventID, int>, since: int)
    | Except(id: EventID)

  predicate Kept(e: Event, keep: Keep) {
    match keep
    case Fresh(at) => at - e.at <= MAX_AGE
    case FreshOpen(at, closed, since) => at - e.at <= MAX_AGE && e.id !in closed && since <= e.at
    case Open(closed, since) => e.id !in closed && since <= e.at
    case Except(id) => e.id != id
  }

  function Select(s: seq<Event>, keep: Keep): seq<Event> {
    if |s| == 0 then []
    else Select(s[..|s| - 1], keep) + if Kept(s[|s| - 1], keep) then [s[|s| - 1]] else []
  }

  function LastOf<T>(s: seq<T>, limit: nat): seq<T> {
    if |s| <= limit then s else s[|s| - limit..]
  }

  /** boundedEvents: the last `limit` of the events kept. */
  function Bounded(s: seq<Event>, limit: nat, keep: Keep): seq<Event> {
    LastOf(Select(s, keep), limit)
  }

  lemma {:induction false} SelectMember(s: seq<Event>, keep: Keep, e: Event)
    ensures e in Select(s, keep) <==> e in s && Kept(e, keep)
  {
    if |s| > 0 {
      SelectMember(s[..|s| - 1], keep, e);
      assert s == s[..|s| - 1] + [s[|s| - 1]];
    }
  }

  lemma {:induction false} SelectIncreasing(s: seq<Event>, keep: Keep)
    requires Increasing(s)
    ensures Increasing(Select(s, keep))
  {
    if |s| > 0 {
      var n := |s| - 1;
      SelectIncreasing(s[..n], keep);
      forall i | 0 <= i < |Select(s[..n], keep)|
        ensures Select(s[..n], keep)[i].id.sequence < s[n].id.sequence
      {
        SelectMember(s[..n], keep, Select(s[..n], keep)[i]);
      }
    }
  }

  lemma {:induction false} SelectAll(s: seq<Event>, keep: Keep)
    requires forall i | 0 <= i < |s| :: Kept(s[i], keep)
    ensures Select(s, keep) == s
  {
    if |s| > 0 {
      var n := |s| - 1;
      SelectAll(s[..n], keep);
      assert s == s[..n] + [s[n]];
    }
  }

  lemma {:induction false} SelectLength(s: seq<Event>, keep: Keep)
    ensures |Select(s, keep)| <= |s|
    ensures |Select(s, keep)| == |s| ==> Select(s, keep) == s
  {
    if |s| > 0 {
      SelectLength(s[..|s| - 1], keep);
      assert s == s[..|s| - 1] + [s[|s| - 1]];
    }
  }

  /** All that is used of boundedEvents: a bounded part of the list, in its
      order, of kept events only, and the list itself when there is nothing to drop. */
  lemma BoundedIs(s: seq<Event>, limit: nat, keep: Keep)
    ensures forall e | e in Bounded(s, limit, keep) :: e in s && Kept(e, keep)
    ensures |Bounded(s, limit, keep)| <= limit
    ensures Increasing(s) ==> Increasing(Bounded(s, limit, keep))
    ensures |s| <= limit && (forall e | e in s :: Kept(e, keep)) ==> Bounded(s, limit, keep) == s
  {
    hide Select;
    forall e | e in Bounded(s, limit, keep)
      ensures e in s && Kept(e, keep)
    {
      assert e in Select(s, keep);
      SelectMember(s, keep, e);
    }
    if Increasing(s) { SelectIncreasing(s, keep); }
    if forall e | e in s :: Kept(e, keep) { SelectAll(s, keep); }
  }

  // ---------------------------------------------------------------- pruning

  function IDs(s: seq<Event>): set<EventID> {
    set e | e in s :: e.id
  }

  function ClosedOf(closed: map<int, map<EventID, int>>, chat: int): map<EventID, int> {
    if chat in closed then closed[chat] else map[]
  }

  function QueueOf(pending: map<int, seq<Event>>, chat: int): seq<Event> {
    if chat in pending then pending[chat] else []
  }

  function PruneClosed(closed: map<int, map<EventID, int>>, live: set<EventID>): map<int, map<EventID, int>> {
    map chat | chat in closed && closed[chat].Keys * live != {} ::
      map id | id in closed[chat] && id in live :: closed[chat][id]
  }

  function NonEmpty(queues: map<int, seq<Event>>): map<int, seq<Event>> {
    map chat | chat in queues && queues[chat] != [] :: queues[chat]
  }

  function PrunedQueue(c: Content, closed: map<int, map<EventID, int>>, chat: int, at: int): seq<Event>
    requires chat in c.pending && chat in c.recipients
  {
    Bounded(c.pending[chat], MAX_PER_CHAT, FreshOpen(at, ClosedOf(closed, chat), c.recipients[chat].firstSeen))
  }

  function PrunePending(c: Content, closed: map<int, map<EventID, int>>, at: int): map<int, seq<Event>> {
    NonEmpty(map chat | chat in c.pending && chat in c.recipients :: PrunedQueue(c, closed, chat, at))
  }

  function PruneContent(c: Content, at: int): Content {
    var recent := Bounded(c.recent, MAX_RECENT, Fresh(at));
    var closed := PruneClosed(c.closed, IDs(recent));
    c.(recent := recent, closed := closed, pending := PrunePending(c, closed, at))
  }

  /** The new content, and a new revision exactly when it differs. */
  function Revised(m: Mem, c: Content): Mem {
    if c == m.c then m else m.(c := c, revision := m.revision + 1)
  }

  function Prune(m: Mem, at: int): Mem {
    Revised(m, PruneContent(m.c, at))
  }

  // ---------------------------------------------------------------- appending

  function Receives(c: Content, chat: int, at: int): bool {
    chat in c.recipients && c.recipients[chat].firstSeen <= at
  }

  function AppendContent(c: Content, e: Event): Content {
    c.(recent := c.recent + [e],
       pending := map chat | chat in c.pending.Keys + c.recipients.Keys
                             && (chat in c.pending || Receives(c, chat, e.at)) ::
                    QueueOf(c.pending, chat) + if Receives(c, chat, e.at) then [e] else [])
  }

  function NextEvent(m: Mem, text: string, at: int): Event {
    Event(EventID(m.epoch, m.sequence + 1), at, text)
  }

  /** appendEventLocked. */
  function Append(m: Mem, text: string, at: int): Mem {
    Prune(m.(sequence := m.sequence + 1,
             revision := m.revision + 1,
             c := AppendContent(m.c, NextEvent(m, text, at))), at)
  }

  // ---------------------------------------------------------------- acks

  function Without(s: seq<Event>, id: EventID): seq<Event> {
    Select(s, Except(id))
  }

  function AckPending(c: Content, chat: int, id: EventID): map<int, seq<Event>> {
    if id !in IDs(QueueOf(c.pending, chat)) then c.pending
    else if Without(c.pending[chat], id) == [] then c.pending - {chat}
    else c.pending[chat := Without(c.pending[chat], id)]
  }

  /** The first event of s with this ID. */
  function Find(s: seq<Event>, id: EventID): (r: seq<Event>)
    ensures r == [] <==> id !in IDs(s)
    ensures r != [] ==> |r| == 1 && r[0] in s && r[0].id == id
  {
    if |s| == 0 then []
    else if s[0].id == id then assert s[0] in s; [s[0]]
    else assert s == [s[0]] + s[1..]; Find(s[1..], id)
  }

  function AckClosed(c: Content, chat: int, id: EventID): map<int, map<EventID, int>> {
    var found := Find(c.recent, id);
    if found == [] || id in ClosedOf(c.closed, chat) then c.closed
    else c.closed[chat := ClosedOf(c.closed, chat)[id := found[0].at]]
  }

  /** Ack's section: prune, take the event out of the chat's queue and, while
      the event is still recent, remember that the chat is done with it. */
  function Ack(m: Mem, chat: int, id: EventID, at: int): Mem {
    var p := Prune(m, at);
    Revised(p, p.c.(pending := AckPending(p.c, chat, id), closed := AckClosed(p.c, chat, id)))
  }

  /** Ack refuses an ID this epoch has not issued. */
  predicate AckAllowed(m: Mem, id: EventID) {
    ValidID(id) && !(id.epoch == m.epoch && id.sequence > m.sequence)
  }

  // ---------------------------------------------------------------- recipients

  /** The entry of each chat with the earliest FirstSeen, the first of equals. */
  function Earliest(list: seq<Recipient>): map<int, Recipient> {
    if |list| == 0 then map[]
    else
      var rest := Earliest(list[..|list| - 1]);
      var r := list[|list| - 1];
      if r.chat !in rest || r.firstSeen < rest[r.chat].firstSeen then rest[r.chat := r] else rest
  }

  /** Two lists in sequence order as one, an event of both taken once. */
  function Merge(a: seq<Event>, b: seq<Event>): seq<Event> {
    if |a| == 0 then b
    else if |b| == 0 then a
    else if a[0].id.sequence < b[0].id.sequence then [a[0]] + Merge(a[1..], b)
    else if b[0].id.sequence < a[0].id.sequence then [b[0]] + Merge(a, b[1..])
    else [a[0]] + Merge(a[1..], b[1..])
  }

  function ReplacedQueue(c: Content, r: Recipient, at: int): seq<Event> {
    var closed := ClosedOf(c.closed, r.chat);
    Bounded(Merge(Select(QueueOf(c.pending, r.chat), Open(closed, r.firstSeen)),
                  Select(c.recent, Open(closed, r.firstSeen))), MAX_PER_CHAT, Fresh(at))
  }

  function ReplacedQueues(c: Content, next: map<int, Recipient>, at: int): map<int, seq<Event>> {
    map chat | chat in next :: ReplacedQueue(c, next[chat], at)
  }

  function ReplaceContent(c: Content, next: map<int, Recipient>, at: int): Content {
    c.(recipients := next, pending := NonEmpty(ReplacedQueues(c, next, at)))
  }

  /** ReplaceRecipients' section. */
  function Replace(m: Mem, list: seq<Recipient>, at: int): Mem {
    var p := Prune(m, at);
    Revised(p, ReplaceContent(p.c, Earliest(list), at))
  }

  // ---------------------------------------------------------------- health

  datatype Update = Update(id: string, available: bool, text: string)

  function WithRecord(m: Mem, u: Update): Mem {
    m.(c := m.c.(health := m.c.health[u.id := Known(u.available)]), revision := m.revision + 1)
  }

  /** One update: the record, and the event it announces, if any. */
  function ApplyUpdate(m: Mem, u: Update, at: int): Mem {
    if u.text == "" then WithRecord(m, u) else Append(WithRecord(m, u), u.text, at)
  }

  function ApplyUpdates(m: Mem, updates: seq<Update>, at: int): Mem {
    if |updates| == 0 then m
    else ApplyUpdate(ApplyUpdates(m, updates[..|updates| - 1], at), updates[|updates| - 1], at)
  }

  function EventCount(updates: seq<Update>): nat {
    if |updates| == 0 then 0
    else EventCount(updates[..|updates| - 1]) + if updates[|updates| - 1].text == "" then 0 else 1
  }

  /** Subscriptions that are gone lose their record, one revision each. */
  function DropHealth(m: Mem, current: set<string>): Mem {
    var gone := m.c.health.Keys - current;
    m.(c := m.c.(health := m.c.health - gone), revision := m.revision + |gone|)
  }

  /** ObserveSubscriptions' section once the whole batch has its IDs leased. */
  function HealthBatch(m: Mem, current: set<string>, updates: seq<Update>, at: int): Mem {
    ApplyUpdates(DropHealth(m, current), updates, at)
  }

  // ---------------------------------------------------------------- saving

  /** snapshotLocked: the reserve leaves room for the IDs issued until the next save. */
  function Snapshot(m: Mem): Saved {
    Saved(1, m.epoch, m.sequence,
          if m.sequence <= MAX_UINT64 - SEQUENCE_RESERVE
          then Max(m.reservedThrough, m.sequence + SEQUENCE_RESERVE) else MAX_UINT64,
          m.c)
  }

  /** What saveLocked writes: the snapshot with at least `reserve` IDs ahead. */
  function ToSave(m: Mem, reserve: nat): Saved {
    var s := Snapshot(m);
    s.(reserved := Max(s.reserved, s.sequence + reserve))
  }

  predicate ReserveNeeded(m: Mem, reserve: nat) {
    || (m.sequence >= m.reservedThrough && m.sequence != MAX_UINT64)
    || (reserve > 0 && (m.sequence >= m.reservedThrough || reserve > m.reservedThrough - m.sequence))
  }

  /** saveLocked writes nothing: the file has everything already. */
  predicate NothingToSave(m: Mem, reserve: nat) {
    m.revision == m.savedRevision && !ReserveNeeded(m, reserve) && !m.needsBackup
  }

  /** A save of revision `revision` that reported success. */
  function SaveDone(m: Mem, s: Saved, revision: nat): Mem {
    m.(savedRevision := revision, reservedThrough := Max(m.reservedThrough, s.reserved))
  }

  /** restore of a file that reads and is valid. */
  function Restored(s: Saved): Mem {
    Mem(s.epoch, s.reserved, s.reserved, if s.sequence != s.reserved then 2 else 1, 1, false, s.c)
  }

  // ---------------------------------------------------------------- valid files

  ghost predicate ListedIn(s: Saved, e: Event) {
    e in s.c.recent || exists chat :: chat in s.c.pending && e in s.c.pending[chat]
  }

  ghost predicate ValidList(s: Saved, list: seq<Event>) {
    && Increasing(list)
    && forall e | e in list :: ValidID(e.id) && e.id.epoch == s.epoch && e.id.sequence <= s.sequence
  }

  /** validSavedState, as what it means: one epoch, ordered lists, one event to
      an ID, queues of active chats only, nothing both queued and closed. */
  ghost predicate ValidSaved(s: Saved) {
    && s.version == 1
    && ValidEpoch(s.epoch)
    && s.sequence <= s.reserved
    && ValidList(s, s.c.recent)
    && (forall chat | chat in s.c.recipients :: s.c.recipients[chat].chat == chat)
    && (forall chat | chat in s.c.pending ::
          chat in s.c.recipients && ValidList(s, s.c.pending[chat]))
    && (forall a, b | ListedIn(s, a) && ListedIn(s, b) && a.id == b.id :: a == b)
    && (forall chat, e | chat in s.c.pending && e in s.c.pending[chat] :: e.id !in ClosedOf(s.c.closed, chat))
    && (forall chat, id | chat in s.c.closed && id in s.c.closed[chat] ::
          ValidID(id) && id.epoch == s.epoch && id.sequence <= s.sequence)
    && (forall chat, e | chat in s.c.closed && ListedIn(s, e) && e.id in s.c.closed[chat] ::
          s.c.closed[chat][e.id] == e.at)
  }
}
