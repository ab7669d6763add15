/** The walk over the copies of all servers, one address each. */
module Walk {
  // The order the monitor's evidence gives them, and the loop that tries them one by
  // one while that evidence changes. What a copy dials and is known by is a parameter.

  import opened Servers
  import M = MonitorState

  // ---------------------------------------------------------------- copies

  /** One copy for each address a server resolved to, or the server as it is. */
  function AddressCopies(s: Server, k: nat): seq<Server>
    requires k <= |s.ips|
  {
    if k == 0 then []
    else AddressCopies(s, k - 1) + if s.ips[k - 1] == "" then [] else [s.(ips := [s.ips[k - 1]])]
  }

  function CopiesOf(s: Server): seq<Server> {
    if AddressCopies(s, |s.ips|) == [] then [s] else AddressCopies(s, |s.ips|)
  }

  function Copies(servers: seq<Server>): seq<Server> {
    if |servers| == 0 then [] else Copies(servers[..|servers| - 1]) + CopiesOf(servers[|servers| - 1])
  }

  method PerAddress(servers: seq<Server>) returns (out: seq<Server>)
    ensures out == Copies(servers)
  {
    out := [];
    for i := 0 to |servers|
      invariant out == Copies(servers[..i])
    {
      assert servers[..i + 1][..i] == servers[..i];
      var s, n := servers[i], |out|;
      ghost var before := out;
      for k := 0 to |s.ips|
        invariant out == before + AddressCopies(s, k)
      {
        if s.ips[k] == "" { continue; }
        out := out + [s.(ips := [s.ips[k]])];
      }
      if |out| == n {
        out := out + [s];
      }
    }
    assert servers[..|servers|] == servers;
  }

  /** A server's copies are the server at one of its addresses, each address in turn. */
  lemma {:induction false} CopiesAre(s: Server, k: nat, c: Server)
    requires k <= |s.ips|
    ensures c in AddressCopies(s, k) <==> exists i :: 0 <= i < k && s.ips[i] != "" && c == s.(ips := [s.ips[i]])
  {
    if k > 0 { CopiesAre(s, k - 1, c); }
  }

  // ---------------------------------------------------------------- ranks

  datatype Ref = Ref(subscription: string, group: string)

  /** What one round knows: the states of the endpoints, and whether they may be used. */
  datatype Evidence = Evidence(states: map<string, M.EndpointState>, ok: bool)

  datatype Ranked = Ranked(s: Server, tier: nat, latency: int, index: nat)

  predicate Known(c: Server, e: Evidence, key: Server -> string, status: M.Status) {
    e.ok && key(c) in e.states && e.states[key(c)].status == status
  }

  function Tier(c: Server, ref: Ref, e: Evidence, key: Server -> string): nat {
    var group := ref.group == "" || c.group == ref.group;
    var own := c.subscription == ref.subscription;
    var alive := Known(c, e, key, M.Alive);
    if alive && group && own then 0
    else if alive && group then 1
    else if alive && own then 2
    else if alive then 3
    else if group then 4 else 5
  }

  function Latency(c: Server, e: Evidence, key: Server -> string): int {
    if Known(c, e, key, M.Alive) then e.states[key(c)].latency else 0
  }

  /** By tier, and a live tier by latency. */
  predicate Before(a: Ranked, b: Ranked) {
    if a.tier != b.tier then a.tier < b.tier else a.tier < 4 && a.latency < b.latency
  }

  /** Sorted, and stable: equal ranks stay in the order they had. */
  ghost predicate StableSorted(out: seq<Ranked>) {
    forall i, j | 0 <= i < j < |out| ::
      !Before(out[j], out[i]) && (!Before(out[i], out[j]) ==> out[i].index < out[j].index)
  }

  ghost predicate RankedRight(r: Ranked, copies: seq<Server>, ref: Ref, e: Evidence, key: Server -> string) {
    && r.index < |copies| && r.s == copies[r.index]
    && r.tier == Tier(r.s, ref, e, key) && r.latency == Latency(r.s, e, key)
  }

  /** The copies of the first n that are not rejected, each once. */
  ghost predicate RankedAll(out: seq<Ranked>, n: nat, copies: seq<Server>, ref: Ref, e: Evidence, key: Server -> string)
    requires n <= |copies|
  {
    && (forall r | r in out :: RankedRight(r, copies, ref, e, key) && r.index < n)
    && (forall i, j | 0 <= i < j < |out| :: out[i].index != out[j].index)
    && forall k | 0 <= k < n :: (exists r :: r in out && r.index == k) <==> !Known(copies[k], e, key, M.Rejected)
  }

  // What the order means, from the evidence itself.

  ghost predicate Live(c: Server, e: Evidence, key: Server -> string) {
    e.ok && key(c) in e.states && e.states[key(c)].status == M.Alive
  }

  ghost predicate LeftOut(c: Server, e: Evidence, key: Server -> string) {
    e.ok && key(c) in e.states && e.states[key(c)].status == M.Rejected
  }

  /** With no reference group every copy is in it. */
  ghost predicate InGroup(c: Server, ref: Ref) {
    ref.group == "" || c.group == ref.group
  }

  /** a goes before b: a live copy before one that is not; of two live ones, first the
      reference group, then the reference subscription, then the lower latency; of
      two others, the reference group. */
  ghost predicate Better(a: Server, b: Server, ref: Ref, e: Evidence, key: Server -> string) {
    if Live(a, e, key) != Live(b, e, key) then Live(a, e, key)
    else if InGroup(a, ref) != InGroup(b, ref) then InGroup(a, ref)
    else if !Live(a, e, key) then false
    else if (a.subscription == ref.subscription) != (b.subscription == ref.subscription)
    then a.subscription == ref.subscription
    else e.states[key(a)].latency < e.states[key(b)].latency
  }

  function ServersOf(out: seq<Ranked>): seq<Server> {
    seq(|out|, i requires 0 <= i < |out| => out[i].s)
  }

  ghost function PlacesOf(out: seq<Ranked>): seq<nat> {
    seq(|out|, i requires 0 <= i < |out| => out[i].index)
  }

  /** The servers are copies, at these places. */
  ghost predicate At(servers: seq<Server>, places: seq<nat>, copies: seq<Server>) {
    && |places| == |servers|
    && (forall i | 0 <= i < |servers| :: places[i] < |copies| && servers[i] == copies[places[i]])
    && forall i, j | 0 <= i < j < |places| :: places[i] != places[j]
  }

  /** orderBest: the copies not rejected, each once, better ones first, and where
      neither is better as they came. */
  method OrderBest(copies: seq<Server>, ref: Ref, e: Evidence, key: Server -> string)
    returns (servers: seq<Server>, ghost places: seq<nat>)
    ensures At(servers, places, copies)
    ensures forall k: nat | k < |copies| :: k in places <==> !LeftOut(copies[k], e, key)
    ensures forall i, j | 0 <= i < j < |servers| ::
              && !Better(servers[j], servers[i], ref, e, key)
              && (!Better(servers[i], servers[j], ref, e, key) ==> places[i] < places[j])
    ensures forall c :: c in servers <==> c in copies && !LeftOut(c, e, key)
  {
    hide RankedAll, StableSorted, RankedRight, Tier, Latency, Known, Better, LeftOut;
    var ranked: seq<Ranked> := [];
    NothingRanked(copies, ref, e, key);
    for n := 0 to |copies|
      invariant RankedAll(ranked, n, copies, ref, e, key) && StableSorted(ranked)
    {
      var c := copies[n];
      var r := Ranked(c, Tier(c, ref, e, key), Latency(c, e, key), n);
      RankNext(ranked, n, copies, ref, e, key, r);
      if Known(c, e, key, M.Rejected) { continue; }
      ranked := InsertStable(ranked, r, copies, ref, e, key);
    }
    places := PlacesOf(ranked);
    servers := [];
    for i := 0 to |ranked|
      invariant servers == ServersOf(ranked[..i])
    {
      servers := servers + [ranked[i].s];
    }
    assert ranked[..|ranked|] == ranked;
    RankedServers(ranked, copies, ref, e, key);
    RankedOrder(ranked, copies, ref, e, key);
  }

  lemma RankedServers(out: seq<Ranked>, copies: seq<Server>, ref: Ref, e: Evidence, key: Server -> string)
    requires RankedAll(out, |copies|, copies, ref, e, key)
    ensures At(ServersOf(out), PlacesOf(out), copies)
    ensures forall k: nat | k < |copies| :: k in PlacesOf(out) <==> !LeftOut(copies[k], e, key)
    ensures forall c :: c in ServersOf(out) <==> c in copies && !LeftOut(c, e, key)
  {
    hide Tier, Latency;
    var servers, places := ServersOf(out), PlacesOf(out);
    forall i | 0 <= i < |out| ensures places[i] < |copies| && servers[i] == copies[places[i]] { assert out[i] in out; }
    forall k: nat | k < |copies| ensures k in places <==> !LeftOut(copies[k], e, key) { PlacedOnce(out, k); }
    forall c ensures c in servers <==> c in copies && !LeftOut(c, e, key) {
      if i :| 0 <= i < |out| && servers[i] == c { assert places[i] in places; }
      if k: nat :| k < |copies| && copies[k] == c && k in places {
        var i :| 0 <= i < |places| && places[i] == k;
        assert servers[i] == c;
      }
    }
  }

  lemma PlacedOnce(out: seq<Ranked>, k: nat)
    ensures k in PlacesOf(out) <==> exists r :: r in out && r.index == k
  {
    if r: Ranked :| r in out && r.index == k {
      var i :| 0 <= i < |out| && out[i] == r;
      assert PlacesOf(out)[i] == k;
    }
  }

  lemma RankedOrder(out: seq<Ranked>, copies: seq<Server>, ref: Ref, e: Evidence, key: Server -> string)
    requires RankedAll(out, |copies|, copies, ref, e, key) && StableSorted(out)
    ensures forall i, j | 0 <= i < j < |out| ::
              && !Better(out[j].s, out[i].s, ref, e, key)
              && (!Better(out[i].s, out[j].s, ref, e, key) ==> out[i].index < out[j].index)
  {
    hide Known, Tier, Latency, Better, Before;
    forall i, j | 0 <= i < j < |out|
      ensures !Better(out[j].s, out[i].s, ref, e, key)
      ensures !Better(out[i].s, out[j].s, ref, e, key) ==> out[i].index < out[j].index
    {
      assert out[i] in out && out[j] in out;
      TierTells(out[i], out[j], copies, ref, e, key);
      TierTells(out[j], out[i], copies, ref, e, key);
    }
  }

  lemma TierTells(a: Ranked, b: Ranked, copies: seq<Server>, ref: Ref, e: Evidence, key: Server -> string)
    requires RankedRight(a, copies, ref, e, key) && RankedRight(b, copies, ref, e, key)
    ensures Before(a, b) <==> Better(a.s, b.s, ref, e, key)
  {}

  lemma NothingRanked(copies: seq<Server>, ref: Ref, e: Evidence, key: Server -> string)
    ensures RankedAll([], 0, copies, ref, e, key) && StableSorted([])
  {}

  lemma RankNext(out: seq<Ranked>, n: nat, copies: seq<Server>, ref: Ref, e: Evidence, key: Server -> string, r: Ranked)
    requires n < |copies| && RankedAll(out, n, copies, ref, e, key)
    requires r == Ranked(copies[n], Tier(copies[n], ref, e, key), Latency(copies[n], e, key), n)
    ensures RankedRight(r, copies, ref, e, key) && forall x | x in out :: x.index < n
    ensures Known(copies[n], e, key, M.Rejected) ==> RankedAll(out, n + 1, copies, ref, e, key)
    ensures forall more: seq<Ranked> | Inserted(out, r, more) && !Known(copies[n], e, key, M.Rejected) ::
              RankedAll(more, n + 1, copies, ref, e, key)
  {
    hide Tier, Latency, Known;
    forall more: seq<Ranked> | Inserted(out, r, more) && !Known(copies[n], e, key, M.Rejected)
      ensures RankedAll(more, n + 1, copies, ref, e, key)
    {
      InsertedRanks(out, n, copies, ref, e, key, r, more);
    }
    if Known(copies[n], e, key, M.Rejected) {
      forall k | 0 <= k < n + 1
        ensures (exists x :: x in out && x.index == k) <==> !Known(copies[k], e, key, M.Rejected)
      {}
    }
  }

  /** The list with one more at some place. */
  ghost predicate Inserted(out: seq<Ranked>, r: Ranked, more: seq<Ranked>) {
    exists i :: 0 <= i <= |out| && more == out[..i] + [r] + out[i..]
  }

  lemma InsertedHas(out: seq<Ranked>, r: Ranked, more: seq<Ranked>)
    requires Inserted(out, r, more)
    ensures forall x :: x in more <==> x == r || x in out
  {
    var i :| 0 <= i <= |out| && more == out[..i] + [r] + out[i..];
    assert out == out[..i] + out[i..];
  }

  lemma InsertedRanks(out: seq<Ranked>, n: nat, copies: seq<Server>, ref: Ref, e: Evidence, key: Server -> string,
                      r: Ranked, more: seq<Ranked>)
    requires n < |copies| && RankedAll(out, n, copies, ref, e, key) && Inserted(out, r, more)
    requires RankedRight(r, copies, ref, e, key) && r.index == n && !Known(copies[n], e, key, M.Rejected)
    ensures RankedAll(more, n + 1, copies, ref, e, key)
  {
    hide RankedRight, Known;
    InsertedHas(out, r, more);
    InsertedDistinct(out, r, more);
    forall k | 0 <= k < n + 1
      ensures (exists x :: x in more && x.index == k) <==> !Known(copies[k], e, key, M.Rejected)
    {
      if k == n {
        assert r in more;
      } else {
        if x: Ranked :| x in out && x.index == k { assert x in more; }
      }
    }
  }

  lemma InsertedDistinct(out: seq<Ranked>, r: Ranked, more: seq<Ranked>)
    requires Inserted(out, r, more) && (forall x | x in out :: x.index != r.index)
    requires forall i, j | 0 <= i < j < |out| :: out[i].index != out[j].index
    ensures forall i, j | 0 <= i < j < |more| :: more[i].index != more[j].index
  {
    var k :| 0 <= k <= |out| && more == out[..k] + [r] + out[k..];
    forall i | 0 <= i < |more| ensures more[i] == if i < k then out[i] else if i == k then r else out[i - 1] {}
    forall i | 0 <= i < |out| ensures out[i].index != r.index { assert out[i] in out; }
  }

  /** One step of the stable sort: after all that do not come later. */
  method InsertStable(out: seq<Ranked>, r: Ranked, ghost copies: seq<Server>, ghost ref: Ref, ghost e: Evidence,
                      ghost key: Server -> string)
    returns (more: seq<Ranked>)
    requires StableSorted(out) && forall x | x in out :: x.index < r.index
    ensures StableSorted(more) && Inserted(out, r, more)
  {
    hide Before, StableSorted;
    var i: nat := |out|;
    while i > 0 && Before(r, out[i - 1])
      invariant i <= |out| && forall j | i <= j < |out| :: Before(r, out[j])
    {
      i := i - 1;
    }
    more := out[..i] + [r] + out[i..];
    InsertedSorted(out, r, i);
  }

  lemma BeforeOrders(a: Ranked, b: Ranked, c: Ranked)
    ensures !Before(b, a) && !Before(c, b) ==> !Before(c, a)
    ensures Before(a, b) ==> !Before(b, a)
    ensures Before(a, b) && !Before(c, b) ==> Before(a, c)
    ensures !Before(a, b) && !Before(b, a) && !Before(b, c) ==> !Before(a, c)
  {}

  lemma InsertedSorted(out: seq<Ranked>, r: Ranked, i: nat)
    requires StableSorted(out) && i <= |out| && forall x | x in out :: x.index < r.index
    requires (forall j | i <= j < |out| :: Before(r, out[j])) && (i > 0 ==> !Before(r, out[i - 1]))
    ensures StableSorted(out[..i] + [r] + out[i..])
  {
    hide Before;
    var more := out[..i] + [r] + out[i..];
    forall x | 0 <= x < |more| ensures more[x] == if x < i then out[x] else if x == i then r else out[x - 1] {}
    forall x, y | 0 <= x < y < |more|
      ensures !Before(more[y], more[x]) && (!Before(more[x], more[y]) ==> more[x].index < more[y].index)
    {
      if y == i {
        assert out[x] in out;
        if x < i - 1 { BeforeOrders(out[x], out[i - 1], r); }
      } else if x == i {
        BeforeOrders(r, more[y], r);
      }
    }
  }

  // ---------------------------------------------------------------- the walk

  /** How a write of the walk goes: its subscription is deleted, a stop or a newer
      selection ends the walk, nothing is written, or config.json is written. */
  datatype Write = SubscriptionGone | EndsWalk | NotWritten | Written

  datatype Then = Continues | Picks | Ends

  datatype End = Exhausted | Stopped | PickedOne | Ended

  /** What a copy dials and what the monitor knows it by. */
  datatype Naming = Naming(dial: Server -> string, key: Server -> string)

  predicate Twins(a: Server, b: Server, names: Naming) {
    ServerID(a) == ServerID(b) && names.key(a) == names.key(b)
  }

  /** How many of the list are the same entry as c. */
  function TwinsOf(s: seq<Server>, c: Server, names: Naming): nat {
    if |s| == 0 then 0 else TwinsOf(s[..|s| - 1], c, names) + if Twins(s[|s| - 1], c, names) then 1 else 0
  }

  /** The copies still to try: those of deleted subscriptions and those whose
      dial key has been written are dropped. */
  predicate Pending(c: Server, gone: set<string>, seen: set<string>, names: Naming) {
    c.subscription !in gone && (names.dial(c) == "" || names.dial(c) !in seen)
  }

  function Kept(s: seq<Server>, gone: set<string>, seen: set<string>, names: Naming): seq<Server> {
    if |s| == 0 then []
    else Kept(s[..|s| - 1], gone, seen, names) +
         if Pending(s[|s| - 1], gone, seen, names) then [s[|s| - 1]] else []
  }

  method Filter(s: seq<Server>, gone: set<string>, seen: set<string>, names: Naming) returns (kept: seq<Server>)
    ensures kept == Kept(s, gone, seen, names)
  {
    hide Pending;
    kept := [];
    for i := 0 to |s|
      invariant kept == Kept(s[..i], gone, seen, names)
    {
      assert s[..i + 1][..i] == s[..i];
      if Pending(s[i], gone, seen, names) {
        kept := kept + [s[i]];
      }
    }
    assert s[..|s|] == s;
  }

  lemma {:induction false} KeptHas(s: seq<Server>, gone: set<string>, seen: set<string>, names: Naming, c: Server)
    ensures c in Kept(s, gone, seen, names) <==> c in s && Pending(c, gone, seen, names)
    ensures TwinsOf(Kept(s, gone, seen, names), c, names) <= TwinsOf(s, c, names)
  {
    if |s| > 0 {
      var n := |s| - 1;
      hide Pending, Twins;
      KeptHas(s[..n], gone, seen, names, c);
      assert s == s[..n] + [s[n]];
      var k := Kept(s[..n], gone, seen, names);
      assert (k + [s[n]])[..|k|] == k;
      assert k + [] == k;
    }
  }

  lemma {:induction false} KeptFewer(s: seq<Server>, gone: set<string>, seen: set<string>, names: Naming)
    ensures |Kept(s, gone, seen, names)| <= |s|
  {
    if |s| > 0 { KeptFewer(s[..|s| - 1], gone, seen, names); }
  }

  /** The first entry of the list that is the same as c leaves it. */
  method TakeOut(s: seq<Server>, c: Server, names: Naming) returns (rest: seq<Server>)
    requires c in s
    ensures |rest| == |s| - 1 && (forall x | x in rest :: x in s)
    ensures forall x | x in s && !Twins(x, c, names) :: x in rest
    ensures forall x :: TwinsOf(rest, x, names) + (if Twins(c, x, names) then 1 else 0) == TwinsOf(s, x, names)
  {
    hide TwinsOf, Twins;
    var i := FindTwin(s, c, names);
    rest := s[..i] + s[i + 1..];
    TakenOut(s, i, c, names);
  }

  method FindTwin(s: seq<Server>, c: Server, names: Naming) returns (i: nat)
    requires c in s
    ensures i < |s| && Twins(s[i], c, names)
  {
    hide Twins;
    ghost var j: nat :| j < |s| && s[j] == c;
    TwinItself(c, names);
    i := 0;
    while !Twins(s[i], c, names)
      invariant i <= j
      decreases j - i
    {
      i := i + 1;
    }
  }

  lemma TwinItself(c: Server, names: Naming)
    ensures Twins(c, c, names)
  {}

  lemma TakenOut(s: seq<Server>, i: nat, c: Server, names: Naming)
    requires i < |s| && Twins(s[i], c, names)
    ensures var rest := s[..i] + s[i + 1..];
            && |rest| == |s| - 1 && (forall x | x in rest :: x in s)
            && (forall x | x in s && !Twins(x, c, names) :: x in rest)
            && forall x :: TwinsOf(rest, x, names) + (if Twins(c, x, names) then 1 else 0) == TwinsOf(s, x, names)
  {
    var rest := s[..i] + s[i + 1..];
    forall x | x in s && !Twins(x, c, names) ensures x in rest {
      var k :| 0 <= k < |s| && s[k] == x;
      assert k != i;
      assert rest[if k < i then k else k - 1] == x;
    }
    hide Twins;
    forall x ensures TwinsOf(rest, x, names) + (if Twins(c, x, names) then 1 else 0) == TwinsOf(s, x, names) {
      TwinsLess(s, i, x, names);
      TwinsAlike(s[i], c, x, names);
    }
  }

  lemma TwinsAlike(a: Server, b: Server, x: Server, names: Naming)
    ensures Twins(a, b, names) ==> (Twins(a, x, names) <==> Twins(b, x, names))
  {}

  lemma {:induction false} TwinsLess(s: seq<Server>, i: nat, x: Server, names: Naming)
    requires i < |s|
    ensures TwinsOf(s[..i] + s[i + 1..], x, names) + (if Twins(s[i], x, names) then 1 else 0) == TwinsOf(s, x, names)
  {
    hide Twins;
    var n := |s| - 1;
    if i < n {
      TwinsLess(s[..n], i, x, names);
      assert (s[..i] + s[i + 1..])[..n - 1] == s[..n][..i] + s[..n][i + 1..];
    } else {
      assert s[..i] + s[i + 1..] == s[..n];
    }
  }

  /** What the walk has done: which copies it handed to the generator, and which
      of them were written. */
  datatype Trail = Trail(tried: seq<Server>, outcomes: seq<Write>)

  ghost predicate TrailOK(t: Trail, copies: seq<Server>, gone: set<string>, seen: set<string>, names: Naming) {
    && |t.tried| == |t.outcomes| && (forall c | c in t.tried :: c in copies)
    && (forall i | 0 <= i < |t.tried| && t.outcomes[i].SubscriptionGone? :: t.tried[i].subscription in gone)
    && (forall i | 0 <= i < |t.tried| && t.outcomes[i].Written?
        && names.dial(t.tried[i]) != "" :: names.dial(t.tried[i]) in seen)
    && (forall x | x in seen :: exists i :: 0 <= i < |t.tried| && t.outcomes[i].Written? && names.dial(t.tried[i]) == x)
    && (forall x | x in gone ::
          exists i :: 0 <= i < |t.tried| && t.outcomes[i].SubscriptionGone? && t.tried[i].subscription == x)
  }

  /** No non-empty dial key is written twice, and a subscription found deleted is
      not tried again. */
  ghost predicate OncePerKey(t: Trail, names: Naming) {
    && |t.tried| == |t.outcomes|
    && (forall i, j | 0 <= i < j < |t.tried| && t.outcomes[i].Written? && t.outcomes[j].Written?
        && names.dial(t.tried[i]) != "" ::
          names.dial(t.tried[i]) != names.dial(t.tried[j]))
    && (forall i, j | 0 <= i < j < |t.tried| && t.outcomes[i].SubscriptionGone? ::
        t.tried[i].subscription != t.tried[j].subscription)
  }

  /** A copy is done with: tried, or written under another name, or of a deleted
      subscription. */
  ghost predicate DoneWith(c: Server, t: Trail, names: Naming) {
    || (exists i ::
          && 0 <= i < |t.tried| && ServerID(t.tried[i]) == ServerID(c)
          && names.key(t.tried[i]) == names.key(c))
    || (exists i ::
          && 0 <= i < |t.tried| && i < |t.outcomes| && t.outcomes[i].Written?
          && names.dial(c) != "" && names.dial(t.tried[i]) == names.dial(c))
    || (exists i ::
          && 0 <= i < |t.tried| && i < |t.outcomes| && t.outcomes[i].SubscriptionGone?
          && t.tried[i].subscription == c.subscription)
  }

  function Upto(t: Trail, n: nat): Trail
    requires n <= |t.tried| == |t.outcomes|
  {
    Trail(t.tried[..n], t.outcomes[..n])
  }

  /** Each time the copy tried is one of the best there are: not rejected, and no
      copy that is neither done with nor rejected goes before it. */
  ghost predicate TriedBest(t: Trail, copies: seq<Server>, ref: Ref, evidence: nat -> Evidence, names: Naming) {
    && |t.tried| == |t.outcomes|
    && forall n | 0 <= n < |t.tried| :: LeadsAt(t.tried[n], Upto(t, n), copies, ref, evidence(n), names)
  }

  ghost predicate LeadsAt(s: Server, t: Trail, copies: seq<Server>, ref: Ref, e: Evidence, names: Naming) {
    && !LeftOut(s, e, names.key)
    && forall c | c in copies && !DoneWith(c, t, names)
        && !LeftOut(c, e, names.key) :: !Better(c, s, ref, e, names.key)
  }

  /** What follows a try: the walk goes on, or ends in one of two ways. */
  predicate GoesOn(outcome: Write, next: Then) {
    outcome.SubscriptionGone? || outcome.NotWritten? || (outcome.Written? && next.Continues?)
  }

  ghost predicate Told(t: Trail, n: nat, write: (nat, Server) -> Write, after: (nat, Server) -> Then) {
    && |t.outcomes| == |t.tried| && n <= |t.tried|
    && (forall i | 0 <= i < |t.tried| :: t.outcomes[i] == write(i, t.tried[i]))
    && forall i | 0 <= i < n :: GoesOn(write(i, t.tried[i]), after(i, t.tried[i]))
  }

  /** The loop of walk, whatever the evidence says round after round, whatever
      the writes do, whatever follows them and whenever the walk is stopped. */
  method WalkLoop(order: seq<Server>, ref: Ref, evidence: nat -> Evidence, write: (nat, Server) -> Write,
                  after: (nat, Server) -> Then, stopped: nat -> bool, names: Naming)
    returns (end: End, t: Trail)
    ensures OncePerKey(t, names) && |t.tried| <= |Copies(order)|
    ensures forall c :: TwinsOf(t.tried, c, names) <= TwinsOf(Copies(order), c, names)
    ensures forall c | c in t.tried :: c in Copies(order)
    ensures TriedBest(t, Copies(order), ref, evidence, names)
    ensures var n := |t.tried|;
            match end
            case Exhausted => Told(t, n, write, after) && forall c | c in Copies(order) ::
              DoneWith(c, t, names) || LeftOut(c, evidence(n), names.key)
            case Stopped => Told(t, n, write, after) && stopped(n)
            case PickedOne => n > 0 && Told(t, n - 1, write, after) && t.outcomes[n - 1].Written?
                && after(n - 1, t.tried[n - 1]).Picks?
            case Ended => n > 0 && Told(t, n - 1, write, after)
                          && (t.outcomes[n - 1].EndsWalk?
                              || (t.outcomes[n - 1].Written? && after(n - 1, t.tried[n - 1]).Ends?))
  {
    hide TrailOK, OncePerKey, DoneWith, TwinsOf, Twins, Kept, Pending, LeftOut, Copies, TriedBest, Better, At;
    var remaining := PerAddress(order);
    ghost var copies := remaining;
    var gone: set<string>, seen: set<string> := {}, {};
    t := Trail([], []);
    TrailStarts(copies, ref, evidence, names);
    while |remaining| > 0
      invariant TrailOK(t, copies, gone, seen, names) && OncePerKey(t, names)
      invariant (forall c | c in t.tried :: c in copies) && (forall c | c in remaining :: c in copies)
                && |t.tried| + |remaining| <= |copies|
      invariant forall c :: TwinsOf(t.tried, c, names) + TwinsOf(remaining, c, names) <= TwinsOf(copies, c, names)
      invariant forall c | c in copies :: c in remaining || DoneWith(c, t, names)
      invariant TriedBest(t, copies, ref, evidence, names) && Told(t, |t.tried|, write, after)
      decreases |remaining|
    {
      var rounds := |t.tried|;
      if stopped(rounds) { return Stopped, t; }
      ghost var before := remaining;
      remaining := Filter(remaining, gone, seen, names);
      FilterKeeps(before, copies, gone, seen, names, t);
      var best;
      ghost var places;
      best, places := OrderBest(remaining, ref, evidence(rounds), names.key);
      if |best| == 0 {
        return Exhausted, t;
      }
      var s := best[0];
      LeadsNext(t, copies, remaining, best, ref, evidence(rounds), names);
      ghost var left := remaining;
      KeptHas(before, gone, seen, names, s);
      remaining := TakeOut(remaining, s, names);
      var outcome := write(rounds, s);
      TrailNext(t, copies, gone, seen, names, s, outcome);
      DoneNext(t, copies, left, remaining, names, s, outcome);
      TriedNext(t.tried, left, remaining, copies, names, s);
      BestNext(t, copies, ref, evidence, names, s, outcome);
      t := Trail(t.tried + [s], t.outcomes + [outcome]);
      match outcome {
        case SubscriptionGone =>
          gone := gone + {s.subscription};
        case EndsWalk =>
          return Ended, t;
        case NotWritten =>
        case Written =>
          if names.dial(s) != "" {
            seen := seen + {names.dial(s)};
          }
          match after(rounds, s) {
            case Continues =>
            case Picks => return PickedOne, t;
            case Ends => return Ended, t;
          }
      }
    }
    end := Exhausted;
  }

  lemma TrailStarts(copies: seq<Server>, ref: Ref, evidence: nat -> Evidence, names: Naming)
    ensures TrailOK(Trail([], []), copies, {}, {}, names) && OncePerKey(Trail([], []), names)
    ensures TriedBest(Trail([], []), copies, ref, evidence, names)
    ensures forall c :: TwinsOf([], c, names) == 0
  {}

  /** The first of the best leads: the others are after it, done with or rejected. */
  lemma LeadsNext(t: Trail, copies: seq<Server>, left: seq<Server>, best: seq<Server>, ref: Ref, e: Evidence,
                  names: Naming)
    requires |best| > 0 && forall c :: c in best <==> c in left && !LeftOut(c, e, names.key)
    requires forall i, j | 0 <= i < j < |best| :: !Better(best[j], best[i], ref, e, names.key)
    requires forall c | c in copies :: c in left || DoneWith(c, t, names)
    ensures LeadsAt(best[0], t, copies, ref, e, names)
  {
    hide LeftOut, DoneWith;
    assert best[0] in best;
    forall c | c in copies && !DoneWith(c, t, names) && !LeftOut(c, e, names.key)
      ensures !Better(c, best[0], ref, e, names.key)
    {
      assert c in best;
      var j :| 0 <= j < |best| && best[j] == c;
    }
  }

  lemma BestNext(t: Trail, copies: seq<Server>, ref: Ref, evidence: nat -> Evidence, names: Naming, s: Server,
                 outcome: Write)
    requires TriedBest(t, copies, ref, evidence, names) && LeadsAt(s, t, copies, ref, evidence(|t.tried|), names)
    ensures TriedBest(Trail(t.tried + [s], t.outcomes + [outcome]), copies, ref, evidence, names)
  {
    hide LeadsAt;
    var u := Trail(t.tried + [s], t.outcomes + [outcome]);
    forall n | 0 <= n < |u.tried| ensures LeadsAt(u.tried[n], Upto(u, n), copies, ref, evidence(n), names) {
      if n < |t.tried| {
        assert Upto(u, n) == Upto(t, n);
      } else {
        assert Upto(u, n) == t;
      }
    }
  }

  /** What the filter drops is done with. */
  lemma FilterKeeps(before: seq<Server>, copies: seq<Server>, gone: set<string>, seen: set<string>, names: Naming,
                    t: Trail)
    requires TrailOK(t, copies, gone, seen, names)
    ensures var kept := Kept(before, gone, seen, names);
            && |kept| <= |before| && (forall c | c in kept :: c in before && Pending(c, gone, seen, names))
            && (forall c :: TwinsOf(kept, c, names) <= TwinsOf(before, c, names))
            && (forall c | c in before :: c in kept || DoneWith(c, t, names))
            && |t.tried| == |t.outcomes|
  {
    hide Kept, TwinsOf, Twins;
    KeptFewer(before, gone, seen, names);
    forall c ensures c in Kept(before, gone, seen, names) <==> c in before && Pending(c, gone, seen, names)
      ensures TwinsOf(Kept(before, gone, seen, names), c, names) <= TwinsOf(before, c, names)
    {
      KeptHas(before, gone, seen, names, c);
    }
    forall c | c in before && !Pending(c, gone, seen, names) ensures DoneWith(c, t, names) {
      PendingOr(c, copies, gone, seen, names, t);
    }
  }

  lemma PendingOr(c: Server, copies: seq<Server>, gone: set<string>, seen: set<string>, names: Naming, t: Trail)
    requires TrailOK(t, copies, gone, seen, names) && !Pending(c, gone, seen, names)
    ensures DoneWith(c, t, names)
  {}

  /** The next write keeps the books: s was pending, so its key is new. */
  lemma TrailNext(t: Trail, copies: seq<Server>, gone: set<string>, seen: set<string>, names: Naming, s: Server,
                  outcome: Write)
    requires TrailOK(t, copies, gone, seen, names) && OncePerKey(t, names)
    requires s in copies && Pending(s, gone, seen, names)
    ensures var u := Trail(t.tried + [s], t.outcomes + [outcome]);
            && OncePerKey(u, names)
            && TrailOK(u, copies,
                       if outcome.SubscriptionGone? then gone + {s.subscription} else gone,
                       if outcome.Written? && names.dial(s) != "" then seen + {names.dial(s)} else seen, names)
  {
    hide TrailOK, OncePerKey;
    OnceNext(t, copies, gone, seen, names, s, outcome);
    BooksNext(t, copies, gone, seen, names, s, outcome);
  }

  lemma OnceNext(t: Trail, copies: seq<Server>, gone: set<string>, seen: set<string>, names: Naming, s: Server,
                 outcome: Write)
    requires TrailOK(t, copies, gone, seen, names) && OncePerKey(t, names) && Pending(s, gone, seen, names)
    ensures OncePerKey(Trail(t.tried + [s], t.outcomes + [outcome]), names)
  {
    var u := Trail(t.tried + [s], t.outcomes + [outcome]);
    forall i | 0 <= i < |t.tried| ensures u.tried[i] == t.tried[i] && u.outcomes[i] == t.outcomes[i] {}
  }

  lemma BooksNext(t: Trail, copies: seq<Server>, gone: set<string>, seen: set<string>, names: Naming, s: Server,
                  outcome: Write)
    requires TrailOK(t, copies, gone, seen, names) && s in copies
    ensures TrailOK(Trail(t.tried + [s], t.outcomes + [outcome]), copies,
                    if outcome.SubscriptionGone? then gone + {s.subscription} else gone,
                    if outcome.Written? && names.dial(s) != "" then seen + {names.dial(s)} else seen, names)
  {
    var u := Trail(t.tried + [s], t.outcomes + [outcome]);
    var n := |t.tried|;
    assert u.tried[n] == s && u.outcomes[n] == outcome;
    forall i | 0 <= i < n ensures u.tried[i] == t.tried[i] && u.outcomes[i] == t.outcomes[i] {}
    forall x | x in seen
      ensures exists i :: 0 <= i < |u.tried| && u.outcomes[i].Written? && names.dial(u.tried[i]) == x
    {
      var i :| 0 <= i < n && t.outcomes[i].Written? && names.dial(t.tried[i]) == x;
      assert u.outcomes[i].Written? && names.dial(u.tried[i]) == x;
    }
    forall x | x in gone
      ensures exists i :: 0 <= i < |u.tried| && u.outcomes[i].SubscriptionGone? && u.tried[i].subscription == x
    {
      var i :| 0 <= i < n && t.outcomes[i].SubscriptionGone? && t.tried[i].subscription == x;
      assert u.outcomes[i].SubscriptionGone? && u.tried[i].subscription == x;
    }
  }

  lemma DoneLater(c: Server, t: Trail, s: Server, outcome: Write, names: Naming)
    requires DoneWith(c, t, names) && |t.tried| == |t.outcomes|
    ensures DoneWith(c, Trail(t.tried + [s], t.outcomes + [outcome]), names)
  {
    hide Twins;
    var u := Trail(t.tried + [s], t.outcomes + [outcome]);
    forall i | 0 <= i < |t.tried| ensures u.tried[i] == t.tried[i] && u.outcomes[i] == t.outcomes[i] {}
    if i :| 0 <= i < |t.tried| && ServerID(t.tried[i]) == ServerID(c) && names.key(t.tried[i]) == names.key(c) {
      assert ServerID(u.tried[i]) == ServerID(c);
    } else if i :| && 0 <= i < |t.tried| && t.outcomes[i].Written?
                   && names.dial(c) != "" && names.dial(t.tried[i]) == names.dial(c) {
      assert u.outcomes[i].Written? && names.dial(u.tried[i]) == names.dial(c);
    } else {
      var i :| 0 <= i < |t.tried| && t.outcomes[i].SubscriptionGone? && t.tried[i].subscription == c.subscription;
      assert u.outcomes[i].SubscriptionGone? && u.tried[i].subscription == c.subscription;
    }
  }

  /** The entry taken out is tried; the others are where they were. */
  lemma DoneNext(t: Trail, copies: seq<Server>, left: seq<Server>, rest: seq<Server>, names: Naming, s: Server,
                 outcome: Write)
    requires forall c | c in copies :: c in left || DoneWith(c, t, names)
    requires forall x | x in left && !Twins(x, s, names) :: x in rest
    requires |t.tried| == |t.outcomes|
    ensures var u := Trail(t.tried + [s], t.outcomes + [outcome]);
            forall c | c in copies :: c in rest || DoneWith(c, u, names)
  {
    hide DoneWith, Twins;
    var u := Trail(t.tried + [s], t.outcomes + [outcome]);
    forall c | c in copies && c !in rest ensures DoneWith(c, u, names) {
      if DoneWith(c, t, names) {
        DoneLater(c, t, s, outcome, names);
      } else {
        TwinIsDone(c, t, s, outcome, names);
      }
    }
  }

  lemma TwinIsDone(c: Server, t: Trail, s: Server, outcome: Write, names: Naming)
    requires Twins(c, s, names)
    ensures DoneWith(c, Trail(t.tried + [s], t.outcomes + [outcome]), names)
  {
    var u := Trail(t.tried + [s], t.outcomes + [outcome]);
    assert Twins(u.tried[|t.tried|], c, names);
  }

  lemma TriedNext(tried: seq<Server>, left: seq<Server>, rest: seq<Server>, copies: seq<Server>, names: Naming,
                  s: Server)
    requires forall c :: TwinsOf(tried, c, names) + TwinsOf(left, c, names) <= TwinsOf(copies, c, names)
    requires forall c :: TwinsOf(rest, c, names) + (if Twins(s, c, names) then 1 else 0) == TwinsOf(left, c, names)
    ensures forall c :: TwinsOf(tried + [s], c, names) + TwinsOf(rest, c, names) <= TwinsOf(copies, c, names)
  {
    hide Twins;
    assert (tried + [s])[..|tried|] == tried;
  }
}
