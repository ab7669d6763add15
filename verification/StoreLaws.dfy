/** The store of server/internal/notifications, below its class: what its sections
    keep, as laws of values, and the loops over its maps, each proved against the
    function that specifies it. What a store keeps (StoreOK) is about one process
    and the file beside it; what holds over many processes is in module
    NotificationRuns. */
module StoreLaws {
  import opened Events
  import opened QueueLaws
  import opened Sets
  import L = StoreLoops
  import P = Paging
  import R = NotificationRuns

  datatype Error =
    | NoError | Unavailable | IdentityError | SequenceError | WriteError
    | ReserveUnsaved | Deferred | BadEventID

  /** What the system can refuse a store: random bytes, the path of its file, a read, a write. */
  datatype Fault = NoRandom | NoPath | NoRead | NoWrite

  /** The refusal behind an error of a save. */
  function FaultOf(e: Error): seq<Fault> {
    match e
    case IdentityError => [NoRandom]
    case WriteError | ReserveUnsaved => [NoWrite]
    case Unavailable => [NoPath]
    case NoError | SequenceError | Deferred | BadEventID => []
  }

  datatype Text = Text(text: string, at: int)
  datatype MaybeID = NoID | ID(id: EventID)

  // ---------------------------------------------------------------- what every method keeps

  /** A file a process can start from: no ID it reserves nothing for was issued. */
  ghost predicate DiskSafe(disk: R.Disk, issued: Issued) {
    disk.File? && ValidSaved(disk.s) ==>
      && disk.s.reserved <= MAX_UINT64
      && ContentOK(disk.s.c, disk.s.epoch, disk.s.sequence, issued)
      && forall id | id in issued && id.epoch == disk.s.epoch :: id.sequence <= disk.s.reserved
  }

  ghost predicate CountsOK(m: Mem, issued: Issued, drawn: string) {
    && m.sequence <= m.reservedThrough <= MAX_UINT64
    && m.savedRevision <= m.revision
    && ValidEpoch(drawn) && (m.epoch == "" ==> m.sequence == 0) && (m.epoch != "" ==> ValidEpoch(m.epoch))
    && (forall id | id in issued && id.epoch == m.epoch :: id.sequence <= m.sequence)
    && (m.epoch == "" ==> forall id | id in issued :: id.epoch != drawn)
  }

  ghost predicate Covered(m: Mem, disk: R.Disk, drawn: string) {
    && (disk.File? && m.epoch != "" && disk.s.epoch == m.epoch ==> m.reservedThrough <= disk.s.reserved)
    && (disk.File? && m.epoch == "" ==> disk.s.epoch != drawn)
    && (m.savedRevision == m.revision ==> InFile(m, disk))
  }

  /** The file holds what memory holds, and reserves every ID memory may issue. */
  ghost predicate InFile(m: Mem, disk: R.Disk) {
    && disk.File? && ValidSaved(disk.s)
    && disk.s.epoch == m.epoch && disk.s.c == m.c && m.reservedThrough <= disk.s.reserved
  }

  ghost predicate StoreOK(m: Mem, disk: R.Disk, issued: Issued, drawn: string) {
    && CountsOK(m, issued, drawn) && Covered(m, disk, drawn) && DiskSafe(disk, issued)
    && ContentOK(m.c, m.epoch, m.sequence, issued)
  }

  lemma StampedOK(m: Mem, m': Mem, disk: R.Disk, issued: Issued, drawn: string)
    requires StoreOK(m, disk, issued, drawn) && R.Stamped(m, m')
    requires ContentOK(m'.c, m'.epoch, m'.sequence, issued)
    ensures StoreOK(m', disk, issued, drawn)
  {
    hide ContentOK, DiskSafe, ValidSaved, ValidEpoch;
  }

  lemma PruneOK(m: Mem, at: int, disk: R.Disk, issued: Issued, drawn: string)
    requires StoreOK(m, disk, issued, drawn)
    ensures StoreOK(Prune(m, at), disk, issued, drawn) && Tidy(Prune(m, at).c)
  {
    hide ContentOK, CountsOK, Covered, DiskSafe, PruneContent, Tidy;
    PruneTidies(m.c, at);
    PruneKeeps(m.c, at, m.epoch, m.sequence, issued);
    R.PruneStamped(m, at);
    StampedOK(m, Prune(m, at), disk, issued, drawn);
  }

  lemma AppendOK(m: Mem, text: string, at: int, disk: R.Disk, issued: Issued, drawn: string)
    requires StoreOK(m, disk, issued, drawn) && R.CanAppend(m)
    ensures var e := NextEvent(m, text, at);
            && e.id !in issued && StoreOK(Append(m, text, at), disk, issued[e.id := e], drawn)
            && Append(m, text, at).sequence == m.sequence + 1 && Append(m, text, at).epoch == m.epoch
  {
    hide ContentOK, Append, ValidSaved, ValidEpoch;
    var e := NextEvent(m, text, at);
    assert e.id !in issued;
    R.AppendMemKeeps(m, text, at, issued);
    if disk.File? && ValidSaved(disk.s) {
      ContentGrows(disk.s.c, disk.s.epoch, disk.s.sequence, disk.s.sequence, issued, issued[e.id := e]);
    }
  }

  lemma AppendTidies(m: Mem, text: string, at: int)
    ensures Tidy(Append(m, text, at).c)
    ensures Append(m, text, at).c == PruneContent(AppendContent(m.c, NextEvent(m, text, at)), at)
  {
    hide PruneContent, AppendContent, Tidy;
    PruneTidies(AppendContent(m.c, NextEvent(m, text, at)), at);
  }

  lemma AckOK(m: Mem, chat: int, id: EventID, at: int, disk: R.Disk, issued: Issued, drawn: string)
    requires StoreOK(m, disk, issued, drawn)
    ensures StoreOK(Ack(m, chat, id, at), disk, issued, drawn) && Tidy(Ack(m, chat, id, at).c)
  {
    hide ContentOK, CountsOK, Covered, DiskSafe, Ack, Tidy;
    AckMemTidies(m, chat, id, at);
    R.AckMemKeeps(m, chat, id, at, issued);
    R.AckStamped(m, chat, id, at);
    StampedOK(m, Ack(m, chat, id, at), disk, issued, drawn);
  }

  lemma AckMemTidies(m: Mem, chat: int, id: EventID, at: int)
    ensures Tidy(Ack(m, chat, id, at).c)
    ensures Ack(m, chat, id, at).c.recipients == m.c.recipients && Ack(m, chat, id, at).c.health == m.c.health
  {
    hide PruneContent, Tidy, AckPending, AckClosed;
    PruneTidies(m.c, at);
    AckTidies(PruneContent(m.c, at), chat, id);
    PruneKeepsRecords(m.c, at);
  }

  lemma PruneKeepsRecords(c: Content, at: int)
    ensures PruneContent(c, at).recipients == c.recipients && PruneContent(c, at).health == c.health
  {}

  lemma ReplaceOK(m: Mem, list: seq<Recipient>, at: int, disk: R.Disk, issued: Issued, drawn: string)
    requires StoreOK(m, disk, issued, drawn)
    ensures StoreOK(Replace(m, list, at), disk, issued, drawn) && Tidy(Replace(m, list, at).c)
  {
    hide ContentOK, CountsOK, Covered, DiskSafe, Replace, Tidy;
    ReplaceMemTidies(m, list, at, issued);
    R.ReplaceMemKeeps(m, list, at, issued);
    R.ReplaceStamped(m, list, at);
    StampedOK(m, Replace(m, list, at), disk, issued, drawn);
  }

  lemma ReplaceMemTidies(m: Mem, list: seq<Recipient>, at: int, issued: Issued)
    requires ContentOK(m.c, m.epoch, m.sequence, issued)
    ensures Tidy(Replace(m, list, at).c)
    ensures Replace(m, list, at).c.recipients == Earliest(list) && Replace(m, list, at).c.health == m.c.health
  {
    hide PruneContent, Tidy, ReplacedQueues, NonEmpty, Earliest, ContentOK;
    PruneTidies(m.c, at);
    PruneKeeps(m.c, at, m.epoch, m.sequence, issued);
    ReplaceTidies(PruneContent(m.c, at), list, at, m.epoch, m.sequence, issued);
    PruneKeepsRecords(m.c, at);
  }

  /** A section that changes health records and stamps the change. */
  lemma HealthOK(m: Mem, m': Mem, disk: R.Disk, issued: Issued, drawn: string)
    requires StoreOK(m, disk, issued, drawn)
    requires m' == m.(c := m.c.(health := m'.c.health), revision := m'.revision)
    requires m.revision <= m'.revision && (m'.revision == m.revision ==> m'.c == m.c)
    ensures StoreOK(m', disk, issued, drawn) && (Tidy(m.c) ==> Tidy(m'.c))
  {
    hide CountsOK, Covered, DiskSafe, ContentOK;
    R.HealthKeepsContent(m.c, m'.c, m.epoch, m.sequence, issued);
    StampedOK(m, m', disk, issued, drawn);
  }

  lemma IdentifyOK(m: Mem, disk: R.Disk, issued: Issued, drawn: string)
    requires StoreOK(m, disk, issued, drawn) && m.epoch == ""
    ensures StoreOK(m.(epoch := drawn, revision := m.revision + 1), disk, issued, drawn)
  {
    hide DiskSafe, ValidSaved;
    R.NoEvents(m.c, drawn, issued);
  }

  /** A save from a state m of what m holds: reported as done, reported as
      failed though the file was replaced, or failed. */
  lemma SaveOK(m: Mem, reserve: nat, disk: R.Disk, issued: Issued, drawn: string)
    requires StoreOK(m, disk, issued, drawn) && m.epoch != "" && reserve <= MAX_UINT64 - m.sequence
    ensures var s := ToSave(m, reserve);
            && StoreOK(SaveDone(m, s, m.revision), R.File(s), issued, drawn)
            && StoreOK(m, R.File(s), issued, drawn)
            && InFile(SaveDone(m, s, m.revision), R.File(s))
            && reserve <= SaveDone(m, s, m.revision).reservedThrough - m.sequence
            && (m.sequence < MAX_UINT64 ==> m.sequence < SaveDone(m, s, m.revision).reservedThrough)
  {
    hide ContentOK, ValidSaved, ValidEpoch;
    R.SnapshotRestores(m, reserve, issued);
  }

  // ---------------------------------------------------------------- loops over maps

  /** A loop that takes the map `was` to `to`, one key after another: the keys
      `left` are still to do, and `changed` tells if the others differ. */
  ghost predicate Halfway<V>(was: map<int, V>, cur: map<int, V>, to: map<int, V>, left: set<int>, changed: bool) {
    && to.Keys <= was.Keys && left <= was.Keys
    && cur.Keys == left + (to.Keys - left)
    && (forall k | k in left :: cur[k] == was[k])
    && (forall k | k in to && k !in left :: cur[k] == to[k])
    && (changed <==> exists k | k in was && k !in left :: k !in to || to[k] != was[k])
  }

  lemma HalfwayStarts<V>(was: map<int, V>, to: map<int, V>)
    requires to.Keys <= was.Keys
    ensures Halfway(was, was, to, was.Keys, false)
  {}

  lemma HalfwayDrops<V>(was: map<int, V>, cur: map<int, V>, to: map<int, V>, left: set<int>, changed: bool, k: int)
    requires Halfway(was, cur, to, left, changed) && k in left && k !in to
    ensures Halfway(was, cur - {k}, to, left - {k}, true)
  {}

  lemma HalfwaySets<V>(was: map<int, V>, cur: map<int, V>, to: map<int, V>, left: set<int>, changed: bool, k: int)
    requires Halfway(was, cur, to, left, changed) && k in left && k in to
    ensures Halfway(was, cur[k := to[k]], to, left - {k}, changed || to[k] != was[k])
  {}

  lemma HalfwayEnds<V>(was: map<int, V>, cur: map<int, V>, to: map<int, V>, changed: bool)
    requires Halfway(was, cur, to, {}, changed)
    ensures cur == to && (changed <==> to != was)
  {
    assert forall k :: k in cur <==> k in to;
    assert forall k | k in cur :: cur[k] == to[k];
    if !changed {
      assert forall k :: k in was <==> k in to;
      assert forall k | k in was :: was[k] == to[k];
    }
  }

  lemma HalfwayAt<V>(was: map<int, V>, cur: map<int, V>, to: map<int, V>, left: set<int>, changed: bool, k: int)
    requires Halfway(was, cur, to, left, changed) && k in left
    ensures k in cur && k in was && cur[k] == was[k]
  {}

  function Live(progress: map<EventID, int>, live: set<EventID>): map<EventID, int> {
    map id | id in progress && id in live :: progress[id]
  }

  method KeepLive(progress: map<EventID, int>, live: set<EventID>) returns (kept: map<EventID, int>, changed: bool)
    ensures kept == Live(progress, live) && (changed <==> kept != progress)
  {
    kept, changed := progress, false;
    var ids: set<EventID> := progress.Keys;
    while ids != {}
      invariant ids <= progress.Keys
      invariant kept == map id | id in progress && (id in ids || id in live) :: progress[id]
      invariant changed <==> exists id :: id in progress && id !in ids && id !in live
      decreases |ids|
    {
      L.InhabitedIDs(ids);
      var id :| id in ids;
      if id !in live {
        kept := kept - {id};
        changed := true;
      }
      ids := ids - {id};
    }
    if changed {
      var id :| id in progress && id !in live;
      assert id !in kept;
    } else {
      assert forall id :: id in progress <==> id in kept;
    }
  }

  lemma PruneClosedAt(closed: map<int, map<EventID, int>>, live: set<EventID>, chat: int)
    requires chat in closed
    ensures chat in PruneClosed(closed, live) <==> Live(closed[chat], live) != map[]
    ensures chat in PruneClosed(closed, live) ==> PruneClosed(closed, live)[chat] == Live(closed[chat], live)
  {
    var kept := Live(closed[chat], live);
    assert kept.Keys == closed[chat].Keys * live;
    if kept.Keys == {} { assert kept == map[]; }
  }

  lemma PrunePendingAt(c: Content, closed: map<int, map<EventID, int>>, at: int, chat: int)
    requires chat in c.pending
    ensures chat in PrunePending(c, closed, at) <==> chat in c.recipients && PrunedQueue(c, closed, chat, at) != []
    ensures chat in PrunePending(c, closed, at) ==>
              PrunePending(c, closed, at)[chat] == PrunedQueue(c, closed, chat, at)
  {
    hide PrunedQueue;
  }

  /** The queues once the recipients `done` have their copy of the event. */
  function AppendedTo(c: Content, e: Event, done: set<int>): map<int, seq<Event>> {
    map chat | chat in c.pending.Keys + done && (chat in c.pending || Receives(c, chat, e.at)) ::
      QueueOf(c.pending, chat) + if chat in done && Receives(c, chat, e.at) then [e] else []
  }

  lemma AppendedStarts(c: Content, e: Event)
    ensures AppendedTo(c, e, {}) == c.pending
  {
    forall chat | chat in c.pending ensures AppendedTo(c, e, {})[chat] == c.pending[chat] {}
  }

  lemma AppendedStep(c: Content, e: Event, done: set<int>, chat: int)
    requires chat in c.recipients && chat !in done
    ensures var cur, next := AppendedTo(c, e, done), AppendedTo(c, e, done + {chat});
            next == if c.recipients[chat].firstSeen <= e.at then cur[chat := QueueOf(cur, chat) + [e]] else cur
  {
    var cur, next := AppendedTo(c, e, done), AppendedTo(c, e, done + {chat});
    assert QueueOf(cur, chat) == QueueOf(c.pending, chat);
    forall ch | ch in next && ch != chat ensures ch in cur && next[ch] == cur[ch] {}
    forall ch | ch in cur && ch != chat ensures ch in next {}
  }

  lemma AppendedEnds(c: Content, e: Event)
    ensures AppendedTo(c, e, c.recipients.Keys) == AppendContent(c, e).pending
  {
    var a, b := AppendedTo(c, e, c.recipients.Keys), AppendContent(c, e).pending;
    forall chat | chat in a ensures chat in b && a[chat] == b[chat] {}
    forall chat | chat in b ensures chat in a {}
  }

  /** The new queues of the chats that are not left. */
  function FilledFor(to: map<int, seq<Event>>, left: set<int>): map<int, seq<Event>> {
    map chat | chat in to && chat !in left :: to[chat]
  }

  lemma ReplacedAt(c: Content, next: map<int, Recipient>, at: int, chat: int)
    requires chat in next
    ensures var to := NonEmpty(ReplacedQueues(c, next, at));
            && (chat in to <==> ReplacedQueue(c, next[chat], at) != [])
            && (chat in to ==> to[chat] == ReplacedQueue(c, next[chat], at))
  {
    hide ReplacedQueue;
  }

  lemma OpenLists(c: Content, chat: int, epoch: string, sequence: nat, issued: Issued)
    requires ContentOK(c, epoch, sequence, issued)
    ensures ListOK(c.recent, epoch, sequence, issued) && ListOK(QueueOf(c.pending, chat), epoch, sequence, issued)
    ensures L.OneEach({} + SetOf(QueueOf(c.pending, chat)) + SetOf(c.recent))
    ensures L.OneEach({} + SetOf(QueueOf(c.pending, chat)))
  {}

  // ---------------------------------------------------------------- texts

  /** What is left of a backlog when texts are deferred one after another: each time
      the newest, as many as there is room for. */
  function DeferAll(backlog: seq<Text>, texts: seq<Text>): seq<Text> {
    if |texts| == 0 then backlog
    else LastOf(DeferAll(backlog, texts[..|texts| - 1]) + [texts[|texts| - 1]], MAX_RECENT)
  }

  /** However many texts are deferred, the last MAX_RECENT of all of them wait, in
      their order: only the oldest are ever dropped. */
  lemma {:induction false} TheLastWait(backlog: seq<Text>, texts: seq<Text>)
    requires |backlog| <= MAX_RECENT
    ensures DeferAll(backlog, texts) == LastOf(backlog + texts, MAX_RECENT)
  {
    if |texts| == 0 {
      assert backlog + texts == backlog;
    } else {
      var before, last := texts[..|texts| - 1], texts[|texts| - 1];
      TheLastWait(backlog, before);
      assert backlog + texts == (backlog + before) + [last];
      LastOfNext(backlog + before, last, MAX_RECENT);
      LastOfNext(LastOf(backlog + before, MAX_RECENT), last, MAX_RECENT);
    }
  }

  lemma LastOfNext(s: seq<Text>, t: Text, limit: nat)
    requires limit > 0
    ensures LastOf(s + [t], limit) == if |LastOf(s, limit)| == limit then LastOf(s, limit)[1..] + [t]
                                      else LastOf(s, limit) + [t]
  {}

  /** The events that texts become, one ID after another. */
  function Given(texts: seq<Text>, epoch: string, from: nat): seq<Event> {
    seq(|texts|, i requires 0 <= i < |texts| => Event(EventID(epoch, from + 1 + i), texts[i].at, texts[i].text))
  }

  lemma GivenOneMore(backlog: seq<Text>, n: nat, epoch: string, from: nat, history: seq<Event>)
    requires n < |backlog|
    ensures history + Given(backlog[..n + 1], epoch, from) ==
              history + Given(backlog[..n], epoch, from) +
                [Event(EventID(epoch, from + n + 1), backlog[n].at, backlog[n].text)]
    ensures backlog[n..][0] == backlog[n] && backlog[n..][1..] == backlog[n + 1..]
  {}

  /** IDs for some texts, then for others. */
  lemma GivenMore(history: seq<Event>, a: seq<Text>, b: seq<Text>, epoch: string, from: nat)
    ensures history + Given(a, epoch, from) + Given(b, epoch, from + |a|) == history + Given(a + b, epoch, from)
  {}

  /** The texts that a batch of updates announces. */
  function Announced(updates: seq<Update>, at: int): (texts: seq<Text>)
    ensures |texts| == EventCount(updates)
  {
    if |updates| == 0 then []
    else
      var u := updates[|updates| - 1];
      Announced(updates[..|updates| - 1], at) + if u.text == "" then [] else [Text(u.text, at)]
  }

  /** Some of the texts that wait, others, and more of those that wait. */
  function Around(waiting: seq<Text>, early: nat, heard: seq<Text>, more: nat): seq<Text>
    requires early + more <= |waiting|
  {
    waiting[..early] + heard + waiting[early..early + more]
  }

  /** IDs for them. */
  lemma GivenAround(history: seq<Event>, waiting: seq<Text>, early: nat, heard: seq<Text>, more: nat, epoch: string,
                    from: nat)
    requires early + more <= |waiting|
    ensures history + Given(waiting[..early], epoch, from) + Given(heard, epoch, from + early)
              + Given(waiting[early..][..more], epoch, from + early + |heard|)
            == history + Given(Around(waiting, early, heard, more), epoch, from)
    ensures waiting[early..][more..] == waiting[early + more..]
  {
    assert waiting[early..][..more] == waiting[early..early + more];
    GivenMore(history, waiting[..early], heard, epoch, from);
    GivenMore(history, waiting[..early] + heard, waiting[early..early + more], epoch, from);
  }

  /** The same without the others. */
  lemma GivenEarly(history: seq<Event>, waiting: seq<Text>, early: nat, more: nat, epoch: string, from: nat)
    requires early + more <= |waiting|
    ensures history + Given(waiting[..early], epoch, from) + Given(waiting[early..][..more], epoch, from + early)
            == history + Given(waiting[..early + more], epoch, from)
    ensures history + Given(waiting[..early + more], epoch, from)
            == history + Given(Around(waiting, early, [], more), epoch, from)
    ensures waiting[early..][more..] == waiting[early + more..]
  {
    assert waiting[early..][..more] == waiting[early..early + more];
    assert waiting[..early] + waiting[early..early + more] == waiting[..early + more];
    assert Around(waiting, early, [], more) == waiting[..early + more];
    GivenMore(history, waiting[..early], waiting[early..early + more], epoch, from);
  }

  lemma NoneAnnounced(updates: seq<Update>, at: int, epoch: string, from: nat, history: seq<Event>)
    ensures history + Given(Announced(updates[..0], at), epoch, from) == history
  {}

  lemma AnnouncedOne(updates: seq<Update>, i: nat, at: int, epoch: string, from: nat, history: seq<Event>)
    requires i < |updates|
    ensures var u, n := updates[i], from + EventCount(updates[..i]) + 1;
            history + Given(Announced(updates[..i + 1], at), epoch, from) ==
            history + Given(Announced(updates[..i], at), epoch, from) +
              if u.text == "" then [] else [Event(EventID(epoch, n), at, u.text)]
  {
    assert updates[..i + 1][..i] == updates[..i];
    if updates[i].text == "" {
      assert Announced(updates[..i + 1], at) == Announced(updates[..i], at);
    } else {
      var last := [Text(updates[i].text, at)];
      GivenMore(history, Announced(updates[..i], at), last, epoch, from);
    }
  }

  // ---------------------------------------------------------------- health

  datatype Status = Alive | Dead | Rejected | Unknown
  datatype Subscription = Subscription(id: string, name: string, servers: seq<Status>)
  datatype Observation = Observation(id: string, name: string, available: bool, known: bool)

  /** What a snapshot confirms of a subscription: a server is alive, or all are
      dead or rejected. */
  function ObservationOf(sub: Subscription, stateOK: bool): Observation {
    var available := stateOK && Alive in sub.servers;
    Observation(sub.id, sub.name, available,
                && stateOK && sub.servers != []
                && (available || forall s | s in sub.servers :: s == Dead || s == Rejected))
  }

  method Confirmed(sub: Subscription, stateOK: bool) returns (available: bool, known: bool)
    ensures Observation(sub.id, sub.name, available, known) == ObservationOf(sub, stateOK)
  {
    if !stateOK || |sub.servers| == 0 { return false, false; }
    var complete := true;
    for i := 0 to |sub.servers|
      invariant forall j | 0 <= j < i :: sub.servers[j] != Alive
      invariant complete <==> forall j | 0 <= j < i :: sub.servers[j] == Dead || sub.servers[j] == Rejected
    {
      match sub.servers[i]
      case Alive => return true, true;
      case Dead | Rejected =>
      case Unknown => complete := false;
    }
    if !complete {
      ghost var j :| 0 <= j < |sub.servers| && sub.servers[j] == Unknown;
      assert sub.servers[j] in sub.servers;
    }
    return false, complete;
  }

  /** The observations of the first k subscriptions: one for each ID there is,
      of the first subscription that has it. */
  function Observations(subs: seq<Subscription>, k: nat, stateOK: bool): seq<Observation>
    requires k <= |subs|
  {
    if k == 0 then []
    else
      var before := Observations(subs, k - 1, stateOK);
      if subs[k - 1].id == "" || subs[k - 1].id in Seen(before) then before
      else before + [ObservationOf(subs[k - 1], stateOK)]
  }

  function Seen(observations: seq<Observation>): set<string> {
    set o | o in observations :: o.id
  }

  ghost predicate OneEach(observations: seq<Observation>) {
    forall i, j | 0 <= i < j < |observations| :: observations[i].id != observations[j].id
  }

  lemma {:induction false} ObservedOnce(subs: seq<Subscription>, k: nat, stateOK: bool)
    requires k <= |subs|
    ensures OneEach(Observations(subs, k, stateOK))
    ensures forall id :: id in Seen(Observations(subs, k, stateOK)) <==>
              id != "" && exists i :: 0 <= i < k && subs[i].id == id
  {
    hide ObservationOf;
    if k > 0 {
      ObservedOnce(subs, k - 1, stateOK);
      SameID(subs[k - 1], stateOK);
      var before, sub := Observations(subs, k - 1, stateOK), subs[k - 1];
      SeenMore(before, ObservationOf(sub, stateOK));
      forall i | 0 <= i < |before| ensures before[i].id in Seen(before) {}
    }
  }

  lemma SameID(sub: Subscription, stateOK: bool)
    ensures ObservationOf(sub, stateOK).id == sub.id
  {}

  lemma SeenMore(observations: seq<Observation>, o: Observation)
    ensures Seen(observations + [o]) == Seen(observations) + {o.id}
  {}

  method Observe(subs: seq<Subscription>, stateOK: bool) returns (current: set<string>, observations: seq<Observation>)
    ensures observations == Observations(subs, |subs|, stateOK) && current == Seen(observations)
  {
    hide Seen, ObservationOf;
    current, observations := {}, [];
    assert Seen([]) == {} by { NothingSeen(); }
    for k := 0 to |subs|
      invariant observations == Observations(subs, k, stateOK) && current == Seen(observations)
    {
      var sub := subs[k];
      if sub.id == "" || sub.id in current { continue; }
      var available, known := Confirmed(sub, stateOK);
      SeenMore(observations, Observation(sub.id, sub.name, available, known));
      current := current + {sub.id};
      observations := observations + [Observation(sub.id, sub.name, available, known)];
    }
  }

  lemma NothingSeen()
    ensures Seen([]) == {}
  {}

  /** The update an observation calls for: none if it is not confirmed or is
      what the record says; text only for a loss or for a known recovery. */
  function UpdateFor(health: map<string, Health>, o: Observation): seq<Update> {
    var record := o.id in health && health[o.id].Known?;
    if !o.known || (record && health[o.id].available == o.available) then []
    else [Update(o.id, o.available,
                 if !o.available then "Subscription " + o.name + " has no live servers"
                 else if record then "Subscription " + o.name + " has a live server again" else "")]
  }

  function UpdatesFor(health: map<string, Health>, observations: seq<Observation>): seq<Update> {
    if |observations| == 0 then []
    else UpdatesFor(health, observations[..|observations| - 1]) + UpdateFor(health, observations[|observations| - 1])
  }

  method Updates(health: map<string, Health>, observations: seq<Observation>)
    returns (updates: seq<Update>, events: nat)
    ensures updates == UpdatesFor(health, observations) && events == EventCount(updates)
  {
    updates, events := [], 0;
    for k := 0 to |observations|
      invariant updates == UpdatesFor(health, observations[..k]) && events == EventCount(updates)
    {
      var o := observations[k];
      assert observations[..k + 1][..k] == observations[..k];
      if !o.known { continue; }
      var record := o.id in health && health[o.id].Known?;
      if record && health[o.id].available == o.available { continue; }
      var text := "";
      if !o.available {
        text := "Subscription " + o.name + " has no live servers";
      } else if record {
        text := "Subscription " + o.name + " has a live server again";
      }
      var update := Update(o.id, o.available, text);
      assert (updates + [update])[..|updates|] == updates;
      if text != "" {
        events := events + 1;
      }
      updates := updates + [update];
    }
    assert observations[..|observations|] == observations;
  }

  // What an observation means, said of the subscriptions themselves.

  /** The subscription at i is the first with its ID. */
  ghost predicate First(subs: seq<Subscription>, i: nat) {
    i < |subs| && subs[i].id != "" && forall j | 0 <= j < i :: subs[j].id != subs[i].id
  }

  /** Every server is known to be down. */
  ghost predicate Lost(sub: Subscription, stateOK: bool) {
    stateOK && sub.servers != [] && forall s | s in sub.servers :: s in {Dead, Rejected}
  }

  ghost predicate Lives(sub: Subscription, stateOK: bool) {
    stateOK && Alive in sub.servers
  }

  ghost predicate NewlyLost(sub: Subscription, stateOK: bool, was: map<string, Health>) {
    Lost(sub, stateOK) && !(sub.id in was && was[sub.id] == Known(false))
  }

  ghost predicate BackAgain(sub: Subscription, stateOK: bool, was: map<string, Health>) {
    Lives(sub, stateOK) && sub.id in was && was[sub.id] == Known(false)
  }

  /** The records follow the first subscription of each ID: lost, alive or as they were. */
  ghost predicate RecordsFrom(subs: seq<Subscription>, stateOK: bool, was: map<string, Health>,
                              health: map<string, Health>)
  {
    && (forall i: nat | i < |subs| && First(subs, i) ::
          && (Lost(subs[i], stateOK) ==> subs[i].id in health && health[subs[i].id] == Known(false))
          && (Lives(subs[i], stateOK) ==> subs[i].id in health && health[subs[i].id] == Known(true))
          && (!Lost(subs[i], stateOK) && !Lives(subs[i], stateOK) ==> SameRecord(health, was, subs[i].id)))
    && forall id | id in health :: exists i: nat :: i < |subs| && First(subs, i) && subs[i].id == id
  }

  /** The texts are those of the subscriptions at `from`, in their order: the first
      of an ID each, newly lost or back again, and every such one of the first k. */
  ghost predicate HeardFrom(subs: seq<Subscription>, k: nat, stateOK: bool, was: map<string, Health>, at: int,
                            heard: seq<Text>, from: seq<nat>)
  {
    && |from| == |heard|
    && (forall i, j | 0 <= i < j < |from| :: from[i] < from[j])
    && (forall i | 0 <= i < |from| ::
          from[i] < k && First(subs, from[i]) && TextOf(subs[from[i]], stateOK, was, at, heard[i]))
    && forall i | 0 <= i < k && First(subs, i)
                  && (NewlyLost(subs[i], stateOK, was) || BackAgain(subs[i], stateOK, was)) :: i in from
  }

  ghost predicate TextOf(sub: Subscription, stateOK: bool, was: map<string, Health>, at: int, text: Text) {
    || (NewlyLost(sub, stateOK, was) && text == Text("Subscription " + sub.name + " has no live servers", at))
    || (BackAgain(sub, stateOK, was) && text == Text("Subscription " + sub.name + " has a live server again", at))
  }

  lemma ObservationTells(sub: Subscription, stateOK: bool)
    ensures var o := ObservationOf(sub, stateOK);
            && o.id == sub.id && o.name == sub.name
            && (o.known && o.available <==> Lives(sub, stateOK))
            && (o.known && !o.available <==> Lost(sub, stateOK))
  {
    assert Alive in sub.servers ==> sub.servers != [];
  }

  /** What one more subscription adds to what is heard. */
  lemma HeardOne(subs: seq<Subscription>, k: nat, stateOK: bool, was: map<string, Health>, at: int, heard: seq<Text>,
                 from: seq<nat>)
    returns (from': seq<nat>)
    requires k < |subs| && HeardFrom(subs, k, stateOK, was, at, heard, from)
    ensures HeardFrom(subs, k + 1, stateOK, was, at,
                      if First(subs, k)
                      then heard + Announced(UpdateFor(was, ObservationOf(subs[k], stateOK)), at) else heard, from')
  {
    hide ObservationOf, First, HeardFrom, Announced, UpdateFor;
    var o := ObservationOf(subs[k], stateOK);
    ObservationTells(subs[k], stateOK);
    AnnouncedOf(was, o, at);
    var more := Announced(UpdateFor(was, o), at);
    if First(subs, k) && more != [] {
      from' := from + [k];
      HeardMore(subs, k, stateOK, was, at, heard, from, more[0]);
      assert more == [more[0]];
    } else {
      from' := from;
      assert heard + [] == heard;
      HeardSame(subs, k, stateOK, was, at, heard, from);
    }
  }

  lemma HeardSame(subs: seq<Subscription>, k: nat, stateOK: bool, was: map<string, Health>, at: int, heard: seq<Text>,
                  from: seq<nat>)
    requires k < |subs| && HeardFrom(subs, k, stateOK, was, at, heard, from)
    requires !First(subs, k) || !(NewlyLost(subs[k], stateOK, was) || BackAgain(subs[k], stateOK, was))
    ensures HeardFrom(subs, k + 1, stateOK, was, at, heard, from)
  {
    hide First, NewlyLost, BackAgain, TextOf;
  }

  lemma HeardMore(subs: seq<Subscription>, k: nat, stateOK: bool, was: map<string, Health>, at: int, heard: seq<Text>,
                  from: seq<nat>, text: Text)
    requires k < |subs| && HeardFrom(subs, k, stateOK, was, at, heard, from)
    requires First(subs, k) && TextOf(subs[k], stateOK, was, at, text)
    ensures HeardFrom(subs, k + 1, stateOK, was, at, heard + [text], from + [k])
  {
    hide First, NewlyLost, BackAgain, TextOf;
    forall i | 0 <= i < k && i in from ensures i in from + [k] {}
    assert (from + [k])[|from|] == k;
  }

  lemma AnnouncedOf(was: map<string, Health>, o: Observation, at: int)
    ensures Announced(UpdateFor(was, o), at) ==
              if o.known && !o.available && !(o.id in was && was[o.id] == Known(false))
              then [Text("Subscription " + o.name + " has no live servers", at)]
              else if o.known && o.available && o.id in was && was[o.id] == Known(false)
              then [Text("Subscription " + o.name + " has a live server again", at)]
              else []
  {}

  lemma AnnouncedLast(updates: seq<Update>, u: Update, at: int)
    ensures Announced(updates + [u], at) == Announced(updates, at) + if u.text == "" then [] else [Text(u.text, at)]
  {
    hide EventCount;
    assert (updates + [u])[..|updates|] == updates;
  }

  lemma {:induction false} AnnouncedMore(a: seq<Update>, b: seq<Update>, at: int)
    ensures Announced(a + b, at) == Announced(a, at) + Announced(b, at)
  {
    hide Announced, EventCount;
    if |b| == 0 {
      NothingAnnounced(at);
      assert a + b == a;
    } else {
      var before, last := b[..|b| - 1], b[|b| - 1];
      AnnouncedMore(a, before, at);
      AnnouncedLast(a + before, last, at);
      AnnouncedLast(before, last, at);
      assert a + b == (a + before) + [last] && b == before + [last];
    }
  }

  lemma NothingAnnounced(at: int)
    ensures Announced([], at) == []
  {}

  /** What a batch announces, of the subscriptions it is made from. */
  lemma {:induction false} Hears(subs: seq<Subscription>, k: nat, stateOK: bool, was: map<string, Health>, at: int)
    returns (from: seq<nat>)
    requires k <= |subs|
    ensures HeardFrom(subs, k, stateOK, was, at, Announced(UpdatesFor(was, Observations(subs, k, stateOK)), at), from)
  {
    hide HeardFrom, Seen, UpdateFor, ObservationOf;
    if k == 0 {
      from := [];
      HeardNone(subs, stateOK, was, at);
    } else {
      var before := Observations(subs, k - 1, stateOK);
      from := Hears(subs, k - 1, stateOK, was, at);
      from := HeardOne(subs, k - 1, stateOK, was, at, Announced(UpdatesFor(was, before), at), from);
      ObservedFirst(subs, k, stateOK);
      var o := ObservationOf(subs[k - 1], stateOK);
      assert (before + [o])[..|before|] == before;
      AnnouncedMore(UpdatesFor(was, before), UpdateFor(was, o), at);
    }
  }

  lemma HeardNone(subs: seq<Subscription>, stateOK: bool, was: map<string, Health>, at: int)
    ensures HeardFrom(subs, 0, stateOK, was, at, [], [])
  {}

  lemma ObservedFirst(subs: seq<Subscription>, k: nat, stateOK: bool)
    requires 0 < k <= |subs|
    ensures First(subs, k - 1) <==> subs[k - 1].id != "" && subs[k - 1].id !in Seen(Observations(subs, k - 1, stateOK))
  {
    hide Observations, Seen;
    ObservedOnce(subs, k - 1, stateOK);
  }

  lemma {:induction false} ObservedAre(subs: seq<Subscription>, k: nat, stateOK: bool)
    requires k <= |subs|
    ensures forall i | 0 <= i < k && First(subs, i) :: ObservationOf(subs[i], stateOK) in Observations(subs, k, stateOK)
  {
    hide First, ObservationOf;
    if k > 0 {
      ObservedAre(subs, k - 1, stateOK);
      ObservedFirst(subs, k, stateOK);
    }
  }

  /** The records after a batch, of the subscriptions it is made from. */
  lemma RecordsAre(subs: seq<Subscription>, stateOK: bool, was: map<string, Health>)
    ensures var observations := Observations(subs, |subs|, stateOK);
            RecordsFrom(subs, stateOK, was,
                        HealthAfter(Retained(was, Seen(observations)), UpdatesFor(was, observations)))
  {
    hide Observations, HealthAfter, Retained, UpdatesFor, ObservationOf, First, Lost, Lives, Seen;
    var observations := Observations(subs, |subs|, stateOK);
    var h := HealthAfter(Retained(was, Seen(observations)), UpdatesFor(was, observations));
    ObservedOnce(subs, |subs|, stateOK);
    ObservedAre(subs, |subs|, stateOK);
    RecordsFollow(was, observations);
    forall i: nat | i < |subs| && First(subs, i)
      ensures Lost(subs[i], stateOK) ==> subs[i].id in h && h[subs[i].id] == Known(false)
      ensures Lives(subs[i], stateOK) ==> subs[i].id in h && h[subs[i].id] == Known(true)
      ensures !Lost(subs[i], stateOK) && !Lives(subs[i], stateOK) ==> SameRecord(h, was, subs[i].id)
    {
      ObservationTells(subs[i], stateOK);
      assert ObservationOf(subs[i], stateOK) in observations;
    }
    forall id | id in h ensures exists i: nat :: i < |subs| && First(subs, i) && subs[i].id == id {
      assert id in Seen(observations);
      var i: nat :| i < |subs| && subs[i].id == id;
      FirstWith(subs, i, id);
    }
  }

  lemma {:induction false} FirstWith(subs: seq<Subscription>, i: nat, id: string)
    requires id != "" && i < |subs| && subs[i].id == id
    ensures exists j: nat :: j < |subs| && First(subs, j) && subs[j].id == id
  {
    if j: nat :| j < i && subs[j].id == id {
      FirstWith(subs, j, id);
    } else {
      assert First(subs, i);
    }
  }

  function Retained(health: map<string, Health>, current: set<string>): map<string, Health> {
    health - (health.Keys - current)
  }

  /** After the batch there are records of current subscriptions only: what was
      confirmed now, and for the others what was there before. */
  lemma RecordsFollow(health: map<string, Health>, observations: seq<Observation>)
    requires OneEach(observations)
    ensures var h := HealthAfter(Retained(health, Seen(observations)), UpdatesFor(health, observations));
            && (forall id | id in h :: id in Seen(observations))
            && forall o | o in observations ::
                 if o.known then o.id in h && h[o.id] == Known(o.available)
                 else (o.id in h <==> o.id in health) && (o.id in h ==> h[o.id] == health[o.id])
  {
    hide UpdatesFor, HealthAfter, Retained;
    var base := Retained(health, Seen(observations));
    var h := HealthAfter(base, UpdatesFor(health, observations));
    forall id | id in h ensures id in Seen(observations) {
      if id !in Seen(observations) {
        forall i | 0 <= i < |observations| ensures observations[i].id in Seen(observations) {
          assert observations[i] in observations;
        }
        RecordAfter(base, health, observations, -1, id);
        RetainedAt(health, Seen(observations), id);
      }
    }
    forall o | o in observations
      ensures if o.known then o.id in h && h[o.id] == Known(o.available)
              else (o.id in h <==> o.id in health) && (o.id in h ==> h[o.id] == health[o.id])
    {
      var j :| 0 <= j < |observations| && observations[j] == o;
      assert o.id in Seen(observations);
      RetainedAt(health, Seen(observations), o.id);
      RecordAfter(base, health, observations, j, o.id);
    }
  }

  lemma RetainedAt(health: map<string, Health>, current: set<string>, id: string)
    ensures id !in current ==> id !in Retained(health, current)
    ensures id in current ==> SameRecord(Retained(health, current), health, id)
  {}

  predicate SameRecord(a: map<string, Health>, b: map<string, Health>, id: string) {
    (id in a <==> id in b) && (id in a ==> a[id] == b[id])
  }

  /** Observation j is the one with this ID; none is when j is -1. */
  ghost predicate OnlyAt(observations: seq<Observation>, j: int, id: string) {
    && -1 <= j < |observations|
    && forall i | 0 <= i < |observations| :: observations[i].id == id <==> i == j
  }

  lemma {:induction false} RecordAfter(base: map<string, Health>, health: map<string, Health>,
                                       observations: seq<Observation>, j: int, id: string)
    requires OnlyAt(observations, j, id)
    ensures var h := HealthAfter(base, UpdatesFor(health, observations));
            if j < 0 || UpdateFor(health, observations[j]) == [] then SameRecord(h, base, id)
            else id in h && h[id] == Known(observations[j].available)
  {
    if |observations| > 0 {
      var k := |observations| - 1;
      var before, last := observations[..k], observations[k];
      RecordAfter(base, health, before, if j == k then -1 else j, id);
      HealthAfterOne(base, UpdatesFor(health, before), UpdateFor(health, last));
      UpdateForIs(health, last);
    }
  }

  lemma UpdateForIs(health: map<string, Health>, o: Observation)
    ensures UpdateFor(health, o) != [] ==>
              |UpdateFor(health, o)| == 1 && UpdateFor(health, o)[0].id == o.id
                  && UpdateFor(health, o)[0].available == o.available
  {}

  lemma HealthAfterOne(base: map<string, Health>, updates: seq<Update>, more: seq<Update>)
    requires |more| <= 1
    ensures HealthAfter(base, updates + more) ==
              if more == [] then HealthAfter(base, updates)
              else HealthAfter(base, updates)[more[0].id := Known(more[0].available)]
  {
    if more == [] {
      assert updates + more == updates;
    } else {
      assert (updates + more)[..|updates|] == updates;
    }
  }

  function HealthAfter(health: map<string, Health>, updates: seq<Update>): map<string, Health> {
    if |updates| == 0 then health
    else
      var last := updates[|updates| - 1];
      HealthAfter(health, updates[..|updates| - 1])[last.id := Known(last.available)]
  }

  lemma {:induction false} UpdatesSetHealth(m: Mem, updates: seq<Update>, at: int)
    ensures ApplyUpdates(m, updates, at).c.health == HealthAfter(m.c.health, updates)
  {
    if |updates| > 0 {
      hide Append;
      var before, u := updates[..|updates| - 1], updates[|updates| - 1];
      UpdatesSetHealth(m, before, at);
      AppendKeepsHealth(WithRecord(ApplyUpdates(m, before, at), u), u.text, at);
    }
  }

  lemma AppendKeepsHealth(m: Mem, text: string, at: int)
    ensures Append(m, text, at).c.health == m.c.health && Append(m, text, at).c.recipients == m.c.recipients
  {}

  lemma Limits()
    ensures 0 < MAX_PER_CHAT == MAX_RECENT
  {}

  lemma PrunedQueueIs(c: Content, closed: map<int, map<EventID, int>>, chat: int, at: int)
    requires chat in c.pending && chat in c.recipients
    ensures PrunedQueue(c, closed, chat, at) ==
              Bounded(c.pending[chat], MAX_PER_CHAT,
                      FreshOpen(at, ClosedOf(closed, chat), c.recipients[chat].firstSeen))
  {}

  lemma Unchanged<V>(m: map<int, V>, k: int)
    requires k in m
    ensures m[k := m[k]] == m
  {}

  lemma PrunedChats(closed: map<int, map<EventID, int>>, live: set<EventID>)
    ensures PruneClosed(closed, live).Keys <= closed.Keys
  {}

  lemma PrunedQueues(c: Content, closed: map<int, map<EventID, int>>, at: int)
    ensures PrunePending(c, closed, at).Keys <= c.pending.Keys
  {
    hide PrunedQueue;
  }

  method PruneProgress(was: map<int, map<EventID, int>>, live: set<EventID>)
    returns (closed: map<int, map<EventID, int>>, changed: bool)
    ensures closed == PruneClosed(was, live)
    ensures changed <==> closed != was
  {
    hide *;
    ghost var to := PruneClosed(was, live);
    closed, changed := was, false;
    var left: set<int> := was.Keys;
    PrunedChats(was, live);
    HalfwayStarts(was, to);
    while left != {}
      invariant left <= was.Keys && Halfway(was, closed, to, left, changed)
      decreases |left|
    {
      InhabitedInts(left);
      var chat :| chat in left;
      HalfwayAt(was, closed, to, left, changed, chat);
      PruneClosedAt(was, live, chat);
      var progress, dropped := KeepLive(closed[chat], live);
      if progress == map[] {
        HalfwayDrops(was, closed, to, left, changed, chat);
        closed := closed - {chat};
        changed := true;
      } else {
        HalfwaySets(was, closed, to, left, changed, chat);
        closed := closed[chat := progress];
        changed := changed || dropped;
      }
      left := left - {chat};
    }
    HalfwayEnds(was, closed, to, changed);
  }

  method PruneQueues(c: Content, closed: map<int, map<EventID, int>>, at: int)
    returns (pending: map<int, seq<Event>>, changed: bool)
    ensures pending == PrunePending(c, closed, at)
    ensures changed <==> pending != c.pending
  {
    hide *;
    ghost var to := PrunePending(c, closed, at);
    pending, changed := c.pending, false;
    var left: set<int> := pending.Keys;
    Limits();
    PrunedQueues(c, closed, at);
    HalfwayStarts(c.pending, to);
    while left != {}
      invariant left <= c.pending.Keys && Halfway(c.pending, pending, to, left, changed)
      decreases |left|
    {
      InhabitedInts(left);
      var chat :| chat in left;
      HalfwayAt(c.pending, pending, to, left, changed, chat);
      PrunePendingAt(c, closed, at, chat);
      if chat !in c.recipients {
        HalfwayDrops(c.pending, pending, to, left, changed, chat);
        pending := pending - {chat};
        changed := true;
      } else {
        PrunedQueueIs(c, closed, chat, at);
        var kept := L.BoundedEvents(pending[chat], MAX_PER_CHAT,
                                    FreshOpen(at, ClosedOf(closed, chat), c.recipients[chat].firstSeen));
        var same := L.SameEvents(pending[chat], kept);
        if |kept| == 0 {
          HalfwayDrops(c.pending, pending, to, left, changed, chat);
          pending := pending - {chat};
          changed := true;
        } else {
          HalfwaySets(c.pending, pending, to, left, changed, chat);
          if same {
            Unchanged(pending, chat);
          } else {
            pending := pending[chat := kept];
            changed := true;
          }
        }
      }
      left := left - {chat};
    }
    HalfwayEnds(c.pending, pending, to, changed);
  }

  function Identified(m: Mem, epoch: string): Mem {
    if m.epoch == "" && epoch != "" then m.(epoch := epoch, revision := m.revision + 1) else m
  }

  lemma DrawnIs(m: Mem, disk: R.Disk, issued: Issued, drawn: string)
    requires StoreOK(m, disk, issued, drawn)
    ensures drawn != ""
  {}

  lemma StoreContent(m: Mem, disk: R.Disk, issued: Issued, drawn: string)
    requires StoreOK(m, disk, issued, drawn)
    ensures ContentOK(m.c, m.epoch, m.sequence, issued)
  {}

  /** The event leaves the chat's queue; while it is recent, the chat is done with it. */
  method Settle(c: Content, chat: int, id: EventID) returns (c': Content, changed: bool)
    ensures c' == c.(pending := AckPending(c, chat, id), closed := AckClosed(c, chat, id))
    ensures changed <==>
              || id in IDs(QueueOf(c.pending, chat))
              || (Find(c.recent, id) != [] && id !in ClosedOf(c.closed, chat))
  {
    hide Without, IDs;
    var kept, queued := L.Remove(QueueOf(c.pending, chat), id);
    var pending, closed := c.pending, c.closed;
    changed := queued;
    if changed {
      if |kept| == 0 {
        pending := pending - {chat};
      } else {
        pending := pending[chat := kept];
      }
    }
    var event := FindRecent(c.recent, id);
    if event != [] && id !in ClosedOf(closed, chat) {
      closed := closed[chat := ClosedOf(closed, chat)[id := event[0].at]];
      changed := true;
    }
    c' := c.(pending := pending, closed := closed);
    assert IDs([]) == {} by { NoIDs(); }
  }

  lemma NoIDs()
    ensures IDs([]) == {}
  {}

  /** The loop that looks for the event in the recent list. */
  method FindRecent(recent: seq<Event>, id: EventID) returns (event: seq<Event>)
    ensures event == Find(recent, id)
  {
    for i := 0 to |recent|
      invariant Find(recent, id) == Find(recent[i..], id)
    {
      if recent[i].id == id { return [recent[i]]; }
      assert recent[i..][1..] == recent[i + 1..];
    }
    return [];
  }

  /** The loop over the recipients of a new event. */
  method QueueEvent(c: Content, e: Event) returns (pending: map<int, seq<Event>>)
    ensures pending == AppendContent(c, e).pending
  {
    hide AppendedTo, AppendContent;
    pending := c.pending;
    var left: set<int> := c.recipients.Keys;
    ghost var done: set<int> := {};
    AppendedStarts(c, e);
    while left != {}
      invariant left <= c.recipients.Keys && done == c.recipients.Keys - left
      invariant pending == AppendedTo(c, e, done)
      decreases |left|
    {
      InhabitedInts(left);
      var chat :| chat in left;
      AppendedStep(c, e, done, chat);
      if c.recipients[chat].firstSeen <= e.at {
        pending := pending[chat := QueueOf(pending, chat) + [e]];
      }
      left := left - {chat};
      done := done + {chat};
    }
    assert done == c.recipients.Keys;
    AppendedEnds(c, e);
  }

  lemma AppendIs(m: Mem, text: string, at: int, c: Content)
    requires var e := NextEvent(m, text, at);
             c == m.c.(recent := m.c.recent + [e], pending := AppendContent(m.c, e).pending)
    ensures var p := PruneContent(c, at);
            Append(m, text, at) == Mem(m.epoch, m.sequence + 1, m.reservedThrough,
              m.revision + (if p != c then 2 else 1), m.savedRevision, m.needsBackup, p)
  {
    hide PruneContent;
  }

  /** The three parts of pruning. */
  method PruneLists(c: Content, at: int) returns (kept: Content, changed: bool)
    ensures kept == PruneContent(c, at) && (changed <==> kept != c)
    ensures kept.recipients == c.recipients && kept.health == c.health
  {
    hide Bounded, PruneClosed, PrunePending, IDs;
    Limits();
    var recent := L.BoundedEvents(c.recent, MAX_RECENT, Fresh(at));
    var same := L.SameEvents(c.recent, recent);
    var live := L.LiveIDs(recent);
    var closed, progressChanged := PruneProgress(c.closed, live);
    var pending, queuesChanged := PruneQueues(c, closed, at);
    kept := c.(recent := recent, closed := closed, pending := pending);
    changed := !same || progressChanged || queuesChanged;
  }

  lemma AckIs(m: Mem, p: Mem, at: int, c: Content, chat: int, id: EventID)
    requires p == Prune(m, at)
    requires c == p.c.(pending := AckPending(p.c, chat, id), closed := AckClosed(p.c, chat, id))
    ensures Ack(m, chat, id, at) == p.(c := c, revision := p.revision +
              if id in IDs(QueueOf(p.c.pending, chat))
                  || (Find(p.c.recent, id) != [] && id !in ClosedOf(p.c.closed, chat))
              then 1 else 0)
  {
    hide Prune;
    if id in IDs(QueueOf(p.c.pending, chat)) { WithoutIs(QueueOf(p.c.pending, chat), id); }
  }

  lemma ReplaceIs(m: Mem, p: Mem, list: seq<Recipient>, at: int, queues: map<int, seq<Event>>)
    requires p == Prune(m, at) && queues == NonEmpty(ReplacedQueues(p.c, Earliest(list), at))
    ensures Replace(m, list, at) == p.(c := p.c.(recipients := Earliest(list), pending := queues),
              revision := p.revision + if p.c.recipients != Earliest(list) || p.c.pending != queues then 1 else 0)
  {
    hide Prune, NonEmpty, ReplacedQueues, Earliest;
  }

  /** The loop over the recipients of the new list. */
  method NewQueues(c: Content, next: map<int, Recipient>, at: int, ghost epoch: string, ghost sequence: nat,
                   ghost issued: Issued)
    returns (queues: map<int, seq<Event>>)
    requires ContentOK(c, epoch, sequence, issued) && forall chat | chat in next :: next[chat].chat == chat
    ensures queues == NonEmpty(ReplacedQueues(c, next, at))
  {
    hide NonEmpty, ReplacedQueues, ReplacedQueue, ContentOK, FilledFor;
    ghost var to := NonEmpty(ReplacedQueues(c, next, at));
    queues := map[];
    var left: set<int> := next.Keys;
    FilledStarts(c, next, at);
    while left != {}
      invariant left <= next.Keys && queues == FilledFor(to, left)
      decreases |left|
    {
      InhabitedInts(left);
      var chat :| chat in left;
      var queue := NewQueue(c, next[chat], at, epoch, sequence, issued);
      ReplacedAt(c, next, at, chat);
      FilledStep(to, left, chat);
      if |queue| > 0 {
        queues := queues[chat := queue];
      }
      left := left - {chat};
    }
    FilledEnds(to);
  }

  lemma FilledStarts(c: Content, next: map<int, Recipient>, at: int)
    ensures FilledFor(NonEmpty(ReplacedQueues(c, next, at)), next.Keys) == map[]
  {
    hide ReplacedQueue;
  }

  lemma FilledStep(to: map<int, seq<Event>>, left: set<int>, chat: int)
    requires chat in left
    ensures FilledFor(to, left - {chat}) == if chat in to then FilledFor(to, left)[chat := to[chat]]
            else FilledFor(to, left)
  {}

  lemma FilledEnds(to: map<int, seq<Event>>)
    ensures FilledFor(to, {}) == to
  {
    assert forall k :: k in FilledFor(to, {}) <==> k in to;
  }

  /** A recipient's queue: what is queued and what is recent, merged, sorted and bounded. */
  method NewQueue(c: Content, r: Recipient, at: int, ghost epoch: string, ghost sequence: nat, ghost issued: Issued)
    returns (queue: seq<Event>)
    requires ContentOK(c, epoch, sequence, issued)
    ensures queue == ReplacedQueue(c, r, at)
  {
    hide ContentOK, Bounded, Merge, Select, ListOK, L.Merged, L.OneEach;
    var closed := ClosedOf(c.closed, r.chat);
    var queued := QueueOf(c.pending, r.chat);
    ghost var keep := Open(closed, r.firstSeen);
    OpenLists(c, r.chat, epoch, sequence, issued);
    NothingMerged(keep);
    var merged, seen := L.MergeList(queued, closed, r.firstSeen, [], {}, {});
    merged, seen := L.MergeList(c.recent, closed, r.firstSeen, merged, seen, {} + SetOf(queued));
    assert {} + SetOf(queued) == SetOf(queued);
    var sorted := L.SortBySequence(merged);
    L.SortedIsMerge(sorted, merged, seen, queued, c.recent, keep, epoch, sequence, issued);
    queue := L.BoundedEvents(sorted, MAX_PER_CHAT, Fresh(at));
  }

  lemma NothingMerged(keep: Keep)
    ensures L.Merged([], {}, {}, keep)
  {}

  /** The loop over the records of subscriptions that are gone. */
  method Dropped(was: map<string, Health>, current: set<string>) returns (health: map<string, Health>, gone: nat)
    ensures health == was - (was.Keys - current) && gone == |was.Keys - current|
    ensures gone == 0 ==> health == was
  {
    health, gone := was, 0;
    var left: set<string> := was.Keys;
    ghost var dropped: set<string> := {};
    while left != {}
      invariant left <= was.Keys && dropped == was.Keys - current - left
      invariant health == was - dropped && gone == |dropped|
      decreases |left|
    {
      InhabitedStrings(left);
      var id :| id in left;
      if id !in current {
        assert health - {id} == was - (dropped + {id});
        health := health - {id};
        gone := gone + 1;
        dropped := dropped + {id};
      }
      left := left - {id};
    }
    assert dropped == was.Keys - current;
    if gone == 0 { assert dropped == {}; }
  }

  lemma DropIs(m: Mem, current: set<string>)
    ensures DropHealth(m, current) ==
              m.(c := m.c.(health := m.c.health - (m.c.health.Keys - current)),
                 revision := m.revision + |m.c.health.Keys - current|)
  {}

  lemma DropCounts(m: Mem, current: set<string>)
    ensures var d := DropHealth(m, current);
            d.epoch == m.epoch && d.sequence == m.sequence && d.reservedThrough == m.reservedThrough
  {}

  lemma BatchStarts(m: Mem, updates: seq<Update>, at: int)
    ensures ApplyUpdates(m, updates[..0], at) == m && EventCount(updates[..0]) == 0
  {}

  lemma BatchStep(m: Mem, updates: seq<Update>, i: nat, at: int)
    requires i < |updates|
    ensures ApplyUpdates(m, updates[..i + 1], at) == ApplyUpdate(ApplyUpdates(m, updates[..i], at), updates[i], at)
    ensures EventCount(updates[..i + 1]) == EventCount(updates[..i]) + if updates[i].text == "" then 0 else 1
    ensures EventCount(updates[..i + 1]) <= EventCount(updates)
  {
    hide ApplyUpdate;
    assert updates[..i + 1][..i] == updates[..i];
    EventCountPrefix(updates, i + 1);
  }

  lemma {:induction false} EventCountPrefix(updates: seq<Update>, i: nat)
    requires i <= |updates|
    ensures EventCount(updates[..i]) <= EventCount(updates)
    decreases |updates|
  {
    if i < |updates| {
      EventCountPrefix(updates[..|updates| - 1], i);
      assert updates[..|updates| - 1][..i] == updates[..i];
    } else {
      assert updates[..i] == updates;
    }
  }

  // ---------------------------------------------------------------- calls that span sections

  /** What one state has settled, the other still has, and it is as tidy. */
  ghost predicate Still(m: Mem, m': Mem) {
    && (m.epoch != "" ==>
          && m'.epoch == m.epoch
          && forall chat, id ::
               Gone(m.c, m.epoch, m.sequence, chat, id) ==> Gone(m'.c, m'.epoch, m'.sequence, chat, id))
    && (Tidy(m.c) ==> Tidy(m'.c))
  }

  lemma StillSame(m: Mem)
    ensures Still(m, m)
  {}

  lemma StillTwice(a: Mem, b: Mem, c: Mem)
    requires Still(a, b) && Still(b, c)
    ensures Still(a, c)
  {
    hide Gone, Tidy;
  }

  lemma KeepsEpoch(a: Mem, b: Mem)
    requires Still(a, b) && a.epoch != ""
    ensures b.epoch == a.epoch
  {}

  lemma EpochStays(a: Mem, b: Mem)
    requires Still(a, b)
    ensures a.epoch != "" ==> b.epoch != ""
  {}

  lemma StillHas(a: Mem, b: Mem)
    requires Still(a, b)
    ensures a.epoch != "" ==> b.epoch == a.epoch
    ensures Tidy(a.c) ==> Tidy(b.c)
  {}

  lemma GoneStays(a: Mem, b: Mem, chat: int, id: EventID)
    requires Still(a, b) && a.epoch != "" && Gone(a.c, a.epoch, a.sequence, chat, id)
    ensures Gone(b.c, b.epoch, b.sequence, chat, id)
  {}

  lemma StillIdentified(m: Mem, m': Mem)
    requires m' == Identified(m, m'.epoch)
    ensures Still(m, m')
  {}

  lemma StillPruned(a: Mem, m: Mem, at: int)
    requires Still(a, m)
    ensures Still(a, Prune(m, at))
  {
    hide Gone, PruneContent, Tidy;
    PruneTidies(m.c, at);
    forall chat, id | Gone(m.c, m.epoch, m.sequence, chat, id)
      ensures Gone(PruneContent(m.c, at), m.epoch, m.sequence, chat, id)
    {
      PruneStaysGone(m.c, at, m.epoch, m.sequence, chat, id);
    }
  }

  lemma StillAppended(a: Mem, m: Mem, text: string, at: int)
    requires Still(a, m)
    ensures Still(a, Append(m, text, at))
  {
    hide Gone, Append, Tidy;
    AppendTidies(m, text, at);
    AppendParts(m, text, at);
    forall chat, id | Gone(m.c, m.epoch, m.sequence, chat, id)
      ensures Gone(Append(m, text, at).c, m.epoch, m.sequence + 1, chat, id)
    {
      AppendGone(m, text, at, chat, id);
    }
  }

  lemma AppendGone(m: Mem, text: string, at: int, chat: int, id: EventID)
    requires Gone(m.c, m.epoch, m.sequence, chat, id)
    ensures Gone(Append(m, text, at).c, m.epoch, m.sequence + 1, chat, id)
  {
    hide Append, Gone;
    AppendParts(m, text, at);
    assert R.MemGone(m, chat, id);
    R.AppendMemGone(m, text, at, chat, id);
    assert R.MemGone(Append(m, text, at), chat, id);
  }

  lemma PruneParts(m: Mem, at: int)
    ensures var p := Prune(m, at);
            && p.epoch == m.epoch && p.sequence == m.sequence && p.reservedThrough == m.reservedThrough
            && p.c == PruneContent(m.c, at)
  {
    hide PruneContent;
  }

  lemma AppendParts(m: Mem, text: string, at: int)
    ensures var a := Append(m, text, at);
            && a.epoch == m.epoch && a.sequence == m.sequence + 1 && a.reservedThrough == m.reservedThrough
  {
    hide PruneContent;
  }

  lemma AckIsGone(m: Mem, chat: int, id: EventID, at: int)
    requires AckAllowed(m, id)
    ensures var a := Ack(m, chat, id, at);
            a.epoch == m.epoch && Gone(a.c, a.epoch, a.sequence, chat, id)
  {
    hide Ack, Gone, ValidID;
    R.AckedGone(m, chat, id, at);
    R.AckStamped(m, chat, id, at);
    assert R.MemGone(Ack(m, chat, id, at), chat, id);
  }

  lemma QueuesArePaged(m: Mem, at: int, disk: R.Disk, issued: Issued, drawn: string)
    requires StoreOK(m, disk, issued, drawn)
    ensures P.Queued(Prune(m, at).c.pending)
  {
    hide ContentOK, PruneContent, P.Queued;
    P.PrunedQueued(m.c, at, m.epoch, m.sequence, issued);
  }

  /** saveLocked writes nothing: the file has it all. */
  lemma SavedIs(m: Mem, reserve: nat, disk: R.Disk, issued: Issued, drawn: string)
    requires StoreOK(m, disk, issued, drawn) && m.savedRevision == m.revision
    requires !ReserveNeeded(m, reserve)
    ensures InFile(m, disk) && reserve <= m.reservedThrough - m.sequence
    ensures m.sequence < MAX_UINT64 ==> m.sequence < m.reservedThrough
  {
    hide DiskSafe, ContentOK, ValidSaved, ValidEpoch;
  }

  lemma SaveIsDone(m: Mem, s: Saved)
    ensures SaveDone(m, s, m.revision) == m.(savedRevision := m.revision,
                                             reservedThrough := Max(m.reservedThrough, s.reserved))
  {}

  /** Whether a backup is still needed matters to no invariant. */
  lemma SaveEnds(m: Mem, m': Mem, disk: R.Disk, issued: Issued, drawn: string)
    requires StoreOK(m, disk, issued, drawn) && m' == m.(needsBackup := m'.needsBackup)
    ensures StoreOK(m', disk, issued, drawn) && (InFile(m, disk) ==> InFile(m', disk))
    ensures m'.c == m.c && m'.epoch == m.epoch && m'.sequence == m.sequence
  {
    hide DiskSafe, ContentOK, ValidSaved, ValidEpoch;
  }

  lemma LoadOK(m: Mem, disk: R.Disk, read: bool, issued: Issued, drawn: string)
    requires StoreOK(m, disk, issued, drawn) && m == NEW_MEM
    ensures StoreOK(R.Loaded(disk, read), disk, issued, drawn)
  {
    hide ContentOK;
    R.NewContentOK(issued);
    if disk.File? && ValidSaved(disk.s) {
      ContentGrows(disk.s.c, disk.s.epoch, disk.s.sequence, disk.s.reserved, issued, issued);
    }
  }

  lemma Unidentified(m: Mem)
    ensures Identified(m, "") == m
  {}

  lemma StillSaved(m: Mem, p: Mem, at: int)
    requires p == Prune(Identified(m, p.epoch), at)
    ensures Still(m, p)
  {
    hide Prune, Still;
    StillIdentified(m, Identified(m, p.epoch));
    StillPruned(m, Identified(m, p.epoch), at);
  }

  lemma StillCounts(a: Mem, m: Mem, m': Mem)
    requires Still(a, m) && m'.epoch == m.epoch && m'.sequence == m.sequence && m'.c == m.c
    ensures Still(a, m')
  {
    hide Gone, Tidy;
  }

  lemma NothingGiven(history: seq<Event>, waiting: seq<Text>, epoch: string, from: nat)
    ensures history + Given(waiting[..0], epoch, from) == history
    ensures waiting[0..] == waiting
  {}

  lemma LoadedIs(disk: R.Disk, s: Saved)
    ensures disk == R.File(s) && ValidSaved(s) ==> R.Loaded(disk, true) == Restored(s)
    ensures disk == R.File(s) ==> R.Loaded(disk, false) == NEW_MEM.(needsBackup := true)
  {}

  /** A text that got an ID fixed the epoch the next ones get. */
  lemma SameEpoch(m: Mem, m': Mem, n: nat, waiting: seq<Text>, from: nat)
    requires Still(m, m') && n <= |waiting| && (n > 0 ==> m.epoch != "")
    ensures Given(waiting[..n], m.epoch, from) == Given(waiting[..n], m'.epoch, from)
  {
    if n == 0 { assert Given(waiting[..n], m.epoch, from) == []; }
  }

  lemma StoreCounts(m: Mem, disk: R.Disk, issued: Issued, drawn: string)
    requires StoreOK(m, disk, issued, drawn)
    ensures m.sequence <= m.reservedThrough <= MAX_UINT64
  {}

  /** Before there is an identity there are no events. */
  lemma NoEventsYet(m: Mem, disk: R.Disk, issued: Issued, drawn: string)
    requires StoreOK(m, disk, issued, drawn) && m.epoch == ""
    ensures m.c.recent == [] && forall chat :: QueueOf(m.c.pending, chat) == []
  {
    hide DiskSafe, Covered, ValidEpoch;
    NoneListed(m.c.recent, issued);
    forall chat ensures QueueOf(m.c.pending, chat) == [] { NoneListed(QueueOf(m.c.pending, chat), issued); }
  }

  lemma NoneListed(list: seq<Event>, issued: Issued)
    requires ListOK(list, "", 0, issued)
    ensures list == []
  {
    assert SetOf(list) == {};
    SizeOf(list);
  }

  /** What Ack's section and the save after it leave of the queues. */
  lemma AckSaved(m: Mem, chat: int, id: EventID, at: int, saved: int, after: Content, disk: R.Disk, issued: Issued,
                 drawn: string)
    requires StoreOK(m, disk, issued, drawn) && Tidy(m.c)
    requires after == PruneContent(Ack(m, chat, id, at).c, saved) || (m.epoch == "" && after == Ack(m, chat, id, at).c)
    ensures forall chat' ::
              Left(QueueOf(m.c.pending, chat'), QueueOf(after.pending, chat'), if chat' == chat then {id} else {}, at,
                   saved)
  {
    hide StoreOK, PruneContent, Ack, Left, Tidy;
    forall chat'
      ensures Left(QueueOf(m.c.pending, chat'), QueueOf(after.pending, chat'), if chat' == chat then {id} else {}, at,
                   saved)
    {
      if after == PruneContent(Ack(m, chat, id, at).c, saved) {
        AckLeaves(m, chat, id, at, saved, chat');
      } else {
        AckOK(m, chat, id, at, disk, issued, drawn);
        R.AckStamped(m, chat, id, at);
        NoEventsYet(m, disk, issued, drawn);
        NoEventsYet(Ack(m, chat, id, at), disk, issued, drawn);
        NothingLeft(if chat' == chat then {id} else {}, at, saved);
      }
    }
  }

  /** Content in the loop that leases IDs: as it was, or aged by a save. */
  ghost predicate Leasing(c: Content, p: Content, at: int, leased: int, retried: bool) {
    Tidy(c) ==> if retried then Tidy(p) && OnlyAged(c, p, at, leased) else p == c && leased == at
  }

  lemma LeaseStarts(c: Content, at: int)
    ensures Leasing(c, c, at, at, false)
  {}

  /** One round more: content has aged at `at` and at `when`, and had not before, or
      at `at` alone. */
  lemma LeaseGoesOn(c: Content, p: Content, q: Content, at: int, leased: int, when: int, retried: bool)
    requires Leasing(c, p, at, leased, retried) && (retried ==> when == at)
    requires Tidy(p) ==> Tidy(q) && OnlyAged(p, q, at, when)
    ensures Leasing(c, q, at, if retried then leased else when, true)
  {
    hide OnlyAged, Tidy;
    if Tidy(c) && retried { AgesAgain(c, p, q, at, leased); }
  }

  lemma LeaseEnds(c: Content, p: Content, at: int, leased: int)
    requires Leasing(c, p, at, leased, true) && Tidy(c)
    ensures OnlyAged(c, p, at, leased)
  {}

  lemma ValidHasEpoch(s: Saved)
    requires ValidSaved(s)
    ensures s.epoch != "" && Restored(s).epoch == s.epoch && Restored(s).c == s.c && Restored(s).sequence == s.reserved
  {}

  /** What publishAt leaves: leased, appended to and saved. */
  lemma AppendSaved(m: Mem, l: Mem, text: string, at: int, leased: int, saved: int, disk: R.Disk, disk': R.Disk,
                    issued: Issued, drawn: string)
    requires StoreOK(m, disk, issued, drawn) && StoreOK(l, disk', issued, drawn) && R.CanAppend(l)
    requires Tidy(m.c) && Tidy(l.c) && OnlyAged(m.c, l.c, at, leased)
    ensures Joined(m.c, PruneContent(Append(l, text, at).c, saved), NextEvent(l, text, at), leased, saved)
  {
    hide StoreOK, Joined, OnlyAged, Tidy, Append, PruneContent, AppendContent, ContentOK;
    StoreContent(m, disk, issued, drawn);
    StoreContent(l, disk', issued, drawn);
    AppendOK(l, text, at, disk', issued, drawn);
    AppendTidies(l, text, at);
    AppendJoins(m, l, NextEvent(l, text, at), leased, saved, issued);
  }

  lemma NothingLeft(gone: set<EventID>, a: int, b: int)
    ensures Left([], [], gone, a, b)
  {}

  /** What ReplaceRecipients' section and the save after it leave of the queues. */
  lemma ReplaceSaved(m: Mem, list: seq<Recipient>, at: int, saved: int, after: Content, disk: R.Disk, issued: Issued,
                     drawn: string)
    requires StoreOK(m, disk, issued, drawn) && Tidy(m.c)
    requires after == PruneContent(Replace(m, list, at).c, saved)
        || (m.epoch == "" && after == Replace(m, list, at).c)
    ensures forall chat | chat in Earliest(list) ::
              LastCandidates(m.c, Earliest(list)[chat], QueueOf(after.pending, chat), at, saved)
  {
    hide StoreOK, PruneContent, Replace, LastCandidates, Tidy, Earliest, ContentOK;
    StoreContent(m, disk, issued, drawn);
    forall chat | chat in Earliest(list)
      ensures LastCandidates(m.c, Earliest(list)[chat], QueueOf(after.pending, chat), at, saved)
    {
      if after == PruneContent(Replace(m, list, at).c, saved) {
        ReplaceGives(m, list, at, saved, chat, issued);
      } else {
        ReplaceOK(m, list, at, disk, issued, drawn);
        R.ReplaceStamped(m, list, at);
        NoEventsYet(m, disk, issued, drawn);
        NoEventsYet(Replace(m, list, at), disk, issued, drawn);
        EarliestChats(list);
        NoCandidates(m.c, Earliest(list)[chat], at, saved);
      }
    }
  }

  lemma NoCandidates(c: Content, r: Recipient, at: int, saved: int)
    requires c.recent == [] && QueueOf(c.pending, r.chat) == []
    ensures LastCandidates(c, r, [], at, saved)
  {}

  lemma BatchHealth(m: Mem, current: set<string>, updates: seq<Update>, at: int)
    ensures HealthBatch(m, current, updates, at).c.health == HealthAfter(Retained(m.c.health, current), updates)
  {
    hide ApplyUpdates;
    UpdatesSetHealth(DropHealth(m, current), updates, at);
  }
}
