/** The order a walk tries the servers of all subscriptions in. */
module WalkOrder {
  // The chosen one and a few of its subscription first, then one of each
  // subscription in turn.

  import opened Servers

  const OWN_FIRST: nat := 3

  datatype Subscription = Subscription(id: string, servers: seq<Server>)

  /** A subscription's servers with its id on each. */
  function Queue(sub: Subscription): seq<Server> {
    seq(|sub.servers|, i requires 0 <= i < |sub.servers| => sub.servers[i].(subscription := sub.id))
  }

  function Queues(subs: seq<Subscription>): seq<seq<Server>> {
    seq(|subs|, i requires 0 <= i < |subs| => Queue(subs[i]))
  }

  /** pickOrder: the chosen entry moved to the front. */
  function Picked(servers: seq<Server>, chosen: int): seq<Server>
    requires -1 <= chosen < |servers|
  {
    if chosen < 0 then servers else [servers[chosen]] + servers[..chosen] + servers[chosen + 1..]
  }

  lemma PickedSame(servers: seq<Server>, chosen: int)
    requires -1 <= chosen < |servers|
    ensures multiset(Picked(servers, chosen)) == multiset(servers)
    ensures |Picked(servers, chosen)| == |servers|
  {
    if chosen >= 0 { assert servers == servers[..chosen] + [servers[chosen]] + servers[chosen + 1..]; }
  }

  /** The chosen entry leads, those before it follow, those after it stay. */
  lemma PickedLeads(servers: seq<Server>, chosen: int)
    requires -1 <= chosen < |servers|
    ensures var picked := Picked(servers, chosen);
            && |picked| == |servers|
            && (chosen >= 0 ==> picked[0] == servers[chosen])
            && (forall i | 0 <= i < chosen :: picked[i + 1] == servers[i])
            && forall i | chosen < i < |servers| :: picked[i] == servers[i]
  {
    var picked := Picked(servers, chosen);
    forall i | 0 <= i < chosen ensures picked[i + 1] == servers[i] { assert picked[i + 1] == servers[..chosen][i]; }
    forall i | 0 <= chosen < i < |servers| ensures picked[i] == servers[i] {
      assert picked[i] == servers[chosen + 1..][i - chosen - 1];
    }
  }

  /** The first subscription with the id of the chosen server's. */
  ghost predicate OwnIs(subs: seq<Subscription>, chosen: Named, own: int) {
    if chosen.Names? && exists i :: 0 <= i < |subs| && subs[i].id == chosen.r.subscription
    then 0 <= own < |subs| && subs[own].id == chosen.r.subscription
         && forall i | 0 <= i < own :: subs[i].id != chosen.r.subscription
    else own == -1
  }

  // ---------------------------------------------------------------- turns

  /** How often subscription i has had its turn. */
  function Count(turns: seq<nat>, i: nat): nat {
    if |turns| == 0 then 0 else Count(turns[..|turns| - 1], i) + if turns[|turns| - 1] == i then 1 else 0
  }

  /** Subscription i's place in a round that starts with `start`. */
  function Place(i: nat, start: nat, n: nat): nat
    requires i < n && start < n
  {
    if i >= start then i - start else i + n - start
  }

  /** Who has had a turn by the time `turns` were taken: subscriptions with servers
      left have been served alike, but for the round under way, which serves them
      in the order after `start`. */
  ghost predicate Fair(queues: seq<seq<Server>>, turns: seq<nat>, start: nat)
    requires start < |queues|
  {
    forall a, b | 0 <= a < |queues| && 0 <= b < |queues| && Count(turns, b) < |queues[b]| ::
      Count(turns, a) <= Count(turns, b) + if Place(a, start, |queues|) < Place(b, start, |queues|) then 1 else 0
  }

  /** Every prefix of the turns is fair. */
  ghost predicate AlwaysFair(queues: seq<seq<Server>>, turns: seq<nat>, start: nat)
    requires start < |queues|
  {
    forall t | 0 <= t <= |turns| :: Fair(queues, turns[..t], start)
  }

  /** The servers the turns give: each turn the next of its subscription. */
  ghost predicate Dealt(queues: seq<seq<Server>>, turns: seq<nat>, order: seq<Server>) {
    && |order| == |turns|
    && forall t | 0 <= t < |turns| ::
         && turns[t] < |queues| && Count(turns[..t], turns[t]) < |queues[turns[t]]|
         && order[t] == queues[turns[t]][Count(turns[..t], turns[t])]
  }

  /** Every server of every queue has had its turn. */
  ghost predicate AllDealt(queues: seq<seq<Server>>, turns: seq<nat>) {
    forall i | 0 <= i < |queues| :: Count(turns, i) == |queues[i]|
  }

  function Union(queues: seq<seq<Server>>): multiset<Server> {
    if |queues| == 0 then multiset{} else Union(queues[..|queues| - 1]) + multiset(queues[|queues| - 1])
  }

  // ---------------------------------------------------------------- dealing everything is a permutation

  /** The parts of the queues that have been dealt. */
  function Parts(queues: seq<seq<Server>>, turns: seq<nat>): seq<seq<Server>>
    requires forall i | 0 <= i < |queues| :: Count(turns, i) <= |queues[i]|
  {
    seq(|queues|, i requires 0 <= i < |queues| => queues[i][..Count(turns, i)])
  }

  lemma {:induction false} UnionUpdate(queues: seq<seq<Server>>, i: nat, q: seq<Server>)
    requires i < |queues|
    ensures Union(queues[i := q]) + multiset(queues[i]) == Union(queues) + multiset(q)
  {
    var n := |queues| - 1;
    UnionLast(queues, n);
    UnionLast(queues[i := q], n);
    hide Union;
    if i < n {
      UnionUpdate(queues[..n], i, q);
      assert queues[i := q][..n] == queues[..n][i := q];
      Shuffle(Union(queues[..n][i := q]), Union(queues[..n]), multiset(queues[i]), multiset(q), multiset(queues[n]));
    } else {
      assert queues[i := q][..n] == queues[..n];
    }
  }

  lemma UnionLast(queues: seq<seq<Server>>, n: nat)
    requires n + 1 == |queues|
    ensures Union(queues) == Union(queues[..n]) + multiset(queues[n])
  {}

  lemma Shuffle(a: multiset<Server>, b: multiset<Server>, x: multiset<Server>, y: multiset<Server>, z: multiset<Server>)
    requires a + x == b + y
    ensures (a + z) + x == (b + z) + y
  {
    assert (a + z) + x == (a + x) + z;
    assert (b + z) + y == (b + y) + z;
  }

  lemma {:induction false} UnionEmpty(queues: seq<seq<Server>>)
    requires forall i | 0 <= i < |queues| :: queues[i] == []
    ensures Union(queues) == multiset{}
  {
    if |queues| > 0 { UnionEmpty(queues[..|queues| - 1]); }
  }

  lemma {:induction false} DealtUnion(queues: seq<seq<Server>>, turns: seq<nat>, order: seq<Server>)
    requires Dealt(queues, turns, order)
    ensures forall i | 0 <= i < |queues| :: Count(turns, i) <= |queues[i]|
    ensures multiset(order) == Union(Parts(queues, turns))
  {
    if |turns| == 0 {
      UnionEmpty(Parts(queues, turns));
    } else {
      var t := |turns| - 1;
      var k := turns[t];
      DealtPart(queues, turns, order, t);
      DealtUnion(queues, turns[..t], order[..t]);
      DealtNext(queues, turns, order, t);
    }
  }

  lemma DealtNext(queues: seq<seq<Server>>, turns: seq<nat>, order: seq<Server>, t: nat)
    requires t + 1 == |turns| == |order| && turns[t] < |queues|
    requires forall i | 0 <= i < |queues| :: Count(turns[..t], i) <= |queues[i]|
    requires Count(turns[..t], turns[t]) < |queues[turns[t]]|
             && order[t] == queues[turns[t]][Count(turns[..t], turns[t])]
    requires multiset(order[..t]) == Union(Parts(queues, turns[..t]))
    ensures forall i | 0 <= i < |queues| :: Count(turns, i) <= |queues[i]|
    ensures multiset(order) == Union(Parts(queues, turns))
  {
    var k := turns[t];
    PartsNext(queues, turns, t, k);
    hide *;
    var before, n := Parts(queues, turns[..t]), Count(turns[..t], k);
    UnionUpdate(before, k, queues[k][..n + 1]);
    OneMore(queues[k], n);
    OneMore(order, t);
    assert order[..t + 1] == order;
    Cancel(Union(before), multiset(queues[k][..n]), multiset{order[t]}, Union(Parts(queues, turns)));
  }

  lemma Cancel(a: multiset<Server>, b: multiset<Server>, c: multiset<Server>, d: multiset<Server>)
    requires a + (b + c) == d + b
    ensures a + c == d
  {
    forall x ensures (a + c)[x] == d[x] {
      assert (a + (b + c))[x] == (d + b)[x];
    }
  }

  lemma OneMore(q: seq<Server>, n: nat)
    requires n < |q|
    ensures multiset(q[..n + 1]) == multiset(q[..n]) + multiset{q[n]}
  {
    assert q[..n + 1] == q[..n] + [q[n]];
  }

  lemma DealtPart(queues: seq<seq<Server>>, turns: seq<nat>, order: seq<Server>, t: nat)
    requires Dealt(queues, turns, order) && t + 1 == |turns|
    ensures Dealt(queues, turns[..t], order[..t])
    ensures turns[t] < |queues| && Count(turns[..t], turns[t]) < |queues[turns[t]]|
    ensures order[t] == queues[turns[t]][Count(turns[..t], turns[t])]
  {
    hide Count;
    assert forall j | 0 <= j < t :: turns[..t][..j] == turns[..j];
  }

  lemma PartsNext(queues: seq<seq<Server>>, turns: seq<nat>, t: nat, k: nat)
    requires t + 1 == |turns| && turns[t] == k < |queues|
    requires (forall i | 0 <= i < |queues| :: Count(turns[..t], i) <= |queues[i]|) && Count(turns[..t], k) < |queues[k]|
    ensures forall i | 0 <= i < |queues| :: Count(turns, i) <= |queues[i]|
    ensures |Parts(queues, turns[..t])| == |queues| && Parts(queues, turns[..t])[k] == queues[k][..Count(turns[..t], k)]
    ensures Parts(queues, turns) == Parts(queues, turns[..t])[k := queues[k][..Count(turns[..t], k) + 1]]
  {
    forall i | 0 <= i < |queues|
      ensures Count(turns, i) == Count(turns[..t], i) + (if i == k then 1 else 0) && Count(turns, i) <= |queues[i]|
    {}
    hide Count;
    var a, b := Parts(queues, turns), Parts(queues, turns[..t])[k := queues[k][..Count(turns[..t], k) + 1]];
    forall i | 0 <= i < |queues| ensures a[i] == b[i] {}
  }

  /** Dealing everything is a permutation of all the servers. */
  lemma DealtIsAll(queues: seq<seq<Server>>, turns: seq<nat>, order: seq<Server>)
    requires Dealt(queues, turns, order) && AllDealt(queues, turns)
    ensures multiset(order) == Union(queues)
  {
    DealtUnion(queues, turns, order);
    forall i | 0 <= i < |queues| ensures Parts(queues, turns)[i] == queues[i] {}
    assert Parts(queues, turns) == queues;
  }

  // ---------------------------------------------------------------- the rounds

  /** Within a round: its first k places have been served, as far as they had servers. */
  ghost predicate InRound(queues: seq<seq<Server>>, turns: seq<nat>, start: nat, round: nat, k: nat)
    requires start < |queues|
  {
    forall i | 0 <= i < |queues| ::
      Count(turns, i) == Least(|queues[i]|, if Place(i, start, |queues|) < k then round + 1 else round)
  }

  function Least(a: nat, b: nat): nat { if a < b then a else b }

  lemma RoundIsFair(queues: seq<seq<Server>>, turns: seq<nat>, start: nat, round: nat, k: nat)
    requires start < |queues| && InRound(queues, turns, start, round, k)
    ensures Fair(queues, turns, start)
  {}

  lemma CountNext(turns: seq<nat>, i: nat, j: nat)
    ensures Count(turns + [i], j) == Count(turns, j) + if i == j then 1 else 0
  {
    assert (turns + [i])[..|turns|] == turns;
  }

  /** The place k of a round is served, or had no servers left. */
  lemma NextPlace(queues: seq<seq<Server>>, turns: seq<nat>, start: nat, round: nat, k: nat, i: nat)
    requires start < |queues| && i < |queues| && Place(i, start, |queues|) == k
    requires InRound(queues, turns, start, round, k)
    ensures Count(turns, i) == Least(|queues[i]|, round)
    ensures if |queues[i]| > round then InRound(queues, turns + [i], start, round, k + 1)
            else InRound(queues, turns, start, round, k + 1)
  {
    forall j | 0 <= j < |queues| && Place(j, start, |queues|) == k ensures j == i {}
    forall j | 0 <= j < |queues| ensures Count(turns + [i], j) == Count(turns, j) + if i == j then 1 else 0 {
      CountNext(turns, i, j);
    }
  }

  lemma NextRound(queues: seq<seq<Server>>, turns: seq<nat>, start: nat, round: nat)
    requires start < |queues| && InRound(queues, turns, start, round, |queues|)
    ensures InRound(queues, turns, start, round + 1, 0)
  {}

  /** What a turn adds keeps every prefix fair and dealt. */
  lemma TurnTaken(queues: seq<seq<Server>>, turns: seq<nat>, order: seq<Server>, start: nat, i: nat)
    requires start < |queues| && i < |queues| && Count(turns, i) < |queues[i]|
    requires AlwaysFair(queues, turns, start) && Fair(queues, turns + [i], start) && Dealt(queues, turns, order)
    ensures AlwaysFair(queues, turns + [i], start)
    ensures Dealt(queues, turns + [i], order + [queues[i][Count(turns, i)]])
  {
    hide Fair;
    var more := turns + [i];
    forall t | 0 <= t <= |more| ensures Fair(queues, more[..t], start) {
      if t <= |turns| { assert more[..t] == turns[..t]; } else { assert more[..t] == more; }
    }
    forall t | 0 <= t < |more|
      ensures more[t] < |queues| && Count(more[..t], more[t]) < |queues[more[t]]|
      ensures (order + [queues[i][Count(turns, i)]])[t] == queues[more[t]][Count(more[..t], more[t])]
    {
      assert more[..t] == turns[..t];
      if t == |turns| { assert turns[..t] == turns; }
    }
  }

  /** What is left of the queues after these turns. */
  ghost predicate Remaining(queues: seq<seq<Server>>, turns: seq<nat>, left: seq<seq<Server>>) {
    && |left| == |queues|
    && forall i | 0 <= i < |queues| :: Count(turns, i) <= |queues[i]| && left[i] == queues[i][Count(turns, i)..]
  }

  lemma RemainingNext(queues: seq<seq<Server>>, turns: seq<nat>, left: seq<seq<Server>>, i: nat)
    requires Remaining(queues, turns, left) && i < |queues| && left[i] != []
    ensures Remaining(queues, turns + [i], left[i := left[i][1..]])
    ensures left[i][0] == queues[i][Count(turns, i)]
  {
    forall j | 0 <= j < |queues| ensures Count(turns + [i], j) == Count(turns, j) + if i == j then 1 else 0 {
      CountNext(turns, i, j);
    }
  }

  /** The rounds: one server of each subscription in turn, until a round places none. */
  method DealRounds(queues: seq<seq<Server>>, start: nat) returns (order: seq<Server>, ghost turns: seq<nat>)
    requires start < |queues|
    ensures Dealt(queues, turns, order) && AllDealt(queues, turns) && AlwaysFair(queues, turns, start)
    ensures multiset(order) == Union(queues)
  {
    hide Fair, AlwaysFair, Dealt, InRound, Remaining, Count, Place;
    order, turns := [], [];
    var left := queues;
    ghost var round := 0;
    DealStarts(queues, start);
    var placed := true;
    while placed
      invariant Dealt(queues, turns, order) && AlwaysFair(queues, turns, start) && Remaining(queues, turns, left)
      invariant InRound(queues, turns, start, round, 0)
      invariant !placed ==> AllDealt(queues, turns)
      invariant placed ==> round <= Size(queues)
      decreases if placed then Size(queues) + 1 - round else 0
    {
      placed := false;
      for k := 0 to |queues|
        invariant Dealt(queues, turns, order) && AlwaysFair(queues, turns, start) && Remaining(queues, turns, left)
        invariant InRound(queues, turns, start, round, k)
        invariant placed ==> round < Size(queues)
        invariant !placed ==> NothingLeft(queues, start, round, k)
      {
        var i := (start + k) % |queues|;
        PlaceOf(start, k, |queues|);
        NextPlace(queues, turns, start, round, k, i);
        LeftIs(queues, turns, left, i, round);
        NothingNext(queues, start, round, k, i);
        if |left[i]| == 0 { continue; }
        RemainingNext(queues, turns, left, i);
        RoundIsFair(queues, turns + [i], start, round, k + 1);
        TurnTaken(queues, turns, order, start, i);
        SizeBound(queues, i, round);
        order := order + [left[i][0]];
        left := left[i := left[i][1..]];
        turns := turns + [i];
        placed := true;
      }
      NextRound(queues, turns, start, round);
      if !placed { RoundsEnd(queues, turns, start, round); }
      round := round + 1;
    }
    DealtIsAll(queues, turns, order);
  }

  /** No place before k had a server left for this round. */
  ghost predicate NothingLeft(queues: seq<seq<Server>>, start: nat, round: nat, k: nat)
    requires start < |queues|
  {
    forall i | 0 <= i < |queues| && Place(i, start, |queues|) < k :: |queues[i]| <= round
  }

  function Size(queues: seq<seq<Server>>): nat {
    if |queues| == 0 then 0 else Size(queues[..|queues| - 1]) + |queues[|queues| - 1]|
  }

  lemma {:induction false} SizeBound(queues: seq<seq<Server>>, i: nat, round: nat)
    requires i < |queues| && round < |queues[i]|
    ensures round < Size(queues)
  {
    var n := |queues| - 1;
    if i < n { SizeBound(queues[..n], i, round); }
  }

  lemma PlaceOf(start: nat, k: nat, n: nat)
    requires start < n && k < n
    ensures (start + k) % n < n && Place((start + k) % n, start, n) == k
  {
    Wraps(start + k, n);
  }

  lemma Wraps(x: nat, n: nat)
    requires 0 < n && x < 2 * n
    ensures x % n == if x < n then x else x - n
  {
    if x >= n { assert x == n + (x - n); }
  }

  lemma DealStarts(queues: seq<seq<Server>>, start: nat)
    requires start < |queues|
    ensures Dealt(queues, [], []) && AlwaysFair(queues, [], start) && Remaining(queues, [], queues)
    ensures InRound(queues, [], start, 0, 0)
  {
    assert InRound(queues, [], start, 0, 0);
    RoundIsFair(queues, [], start, 0, 0);
    var none: seq<nat> := [];
    assert none[..0] == none;
  }

  lemma LeftIs(queues: seq<seq<Server>>, turns: seq<nat>, left: seq<seq<Server>>, i: nat, round: nat)
    requires Remaining(queues, turns, left) && i < |queues| && Count(turns, i) == Least(|queues[i]|, round)
    ensures |left| == |queues| && (|left[i]| > 0 <==> |queues[i]| > round)
    ensures |left[i]| > 0 ==> Count(turns, i) < |queues[i]|
  {}

  lemma NothingNext(queues: seq<seq<Server>>, start: nat, round: nat, k: nat, i: nat)
    requires start < |queues| && i < |queues| && Place(i, start, |queues|) == k
    ensures NothingLeft(queues, start, round, k) && |queues[i]| <= round ==> NothingLeft(queues, start, round, k + 1)
  {
    forall j | 0 <= j < |queues| && Place(j, start, |queues|) == k ensures j == i {}
  }

  /** A round that places nothing has nothing left to place. */
  lemma RoundsEnd(queues: seq<seq<Server>>, turns: seq<nat>, start: nat, round: nat)
    requires start < |queues| && InRound(queues, turns, start, round + 1, 0)
             && NothingLeft(queues, start, round, |queues|)
    ensures AllDealt(queues, turns)
  {}

  // ---------------------------------------------------------------- walkOrder

  /** walkOrder. With the chosen server's subscription there, its order leads with
      the chosen entry and its first OWN_FIRST servers lead the walk; the rest of
      all subscriptions take turns, from the one after it on. Nothing is lost and
      nothing comes twice. */
  method Order(subs: seq<Subscription>, chosen: Named)
    returns (order: seq<Server>, chosenFirst: bool, ghost own: int, ghost picked: seq<Server>, ghost turns: seq<nat>)
    ensures OwnIs(subs, chosen, own)
    ensures multiset(order) == Union(Queues(subs))
    ensures own < 0 ==> !chosenFirst && picked == []
    ensures own >= 0 ==> exists best :: -1 <= best < |Queue(subs[own])| && FirstNearest(Queue(subs[own]), chosen, best)
                           && picked == Picked(Queue(subs[own]), best) && (chosenFirst <==> best >= 0)
    ensures var n := Least(OWN_FIRST, |picked|);
            && n <= |order| && order[..n] == picked[..n]
            && (|subs| > 0 ==>
                  var rest := if own < 0 then Queues(subs) else Queues(subs)[own := picked[n..]];
                  var start := if own < 0 then 0 else (own + 1) % |subs|;
                  && start < |rest| && Dealt(rest, turns, order[n..]) && AllDealt(rest, turns)
                      && AlwaysFair(rest, turns, start))
  {
    hide *;
    order, chosenFirst, own, picked, turns := [], false, -1, [], [];
    if |subs| == 0 {
      NoSubscriptions(subs, chosen);
      return;
    }
    var queues, ownIndex := MakeQueues(subs, chosen);
    own := ownIndex;
    OwnInRange(subs, chosen, own);
    var start := 0;
    LimitIs(picked);
    if ownIndex >= 0 {
      var best;
      order, queues, best, picked := Lead(queues, ownIndex, chosen);
      chosenFirst := best >= 0;
      start := (ownIndex + 1) % |subs|;
    }
    assert multiset(order) + Union(queues) == Union(Queues(subs));
    var rest;
    rest, turns := DealRounds(queues, start);
    DealtIsAll(queues, turns, rest);
    Joined(order, rest);
    order := order + rest;
  }

  /** The chosen entry first, its subscription's first servers lead. */
  method Lead(queues: seq<seq<Server>>, own: nat, chosen: Named)
    returns (order: seq<Server>, rest: seq<seq<Server>>, best: int, ghost picked: seq<Server>)
    requires own < |queues|
    ensures -1 <= best < |queues[own]| && FirstNearest(queues[own], chosen, best) && picked == Picked(queues[own], best)
    ensures var n := Least(OWN_FIRST, |picked|);
            n <= |picked| && order == picked[..n] && rest == queues[own := picked[n..]]
    ensures multiset(order) + Union(rest) == Union(queues)
  {
    hide *;
    best := ChosenIndex(queues[own], chosen);
    BestIsIndex(queues[own], chosen, best);
    var q := Picked(queues[own], best);
    picked := q;
    PickedSame(queues[own], best);
    LimitIs(q);
    var n := if OWN_FIRST < |q| then OWN_FIRST else |q|;
    order := q[..n];
    Halved(q, n);
    UnionUpdate(queues, own, q[n..]);
    Cancel(Union(queues[own := q[n..]]), multiset(q[n..]), multiset(q[..n]), Union(queues));
    rest := queues[own := q[n..]];
  }

  lemma Joined(a: seq<Server>, b: seq<Server>)
    ensures (a + b)[..|a|] == a && (a + b)[|a|..] == b
  {}

  lemma NoSubscriptions(subs: seq<Subscription>, chosen: Named)
    requires |subs| == 0
    ensures Union(Queues(subs)) == multiset{} && OwnIs(subs, chosen, -1) && Least(OWN_FIRST, 0) == 0
  {
    assert Queues(subs) == [];
  }

  lemma OwnInRange(subs: seq<Subscription>, chosen: Named, own: int)
    requires OwnIs(subs, chosen, own)
    ensures -1 <= own < |subs| && |Queues(subs)| == |subs|
    ensures own >= 0 ==> Queues(subs)[own] == Queue(subs[own])
  {}

  lemma LimitIs(q: seq<Server>)
    ensures Least(OWN_FIRST, |q|) == (if OWN_FIRST < |q| then OWN_FIRST else |q|) && OWN_FIRST > 0
  {}

  lemma Halved(q: seq<Server>, n: nat)
    requires n <= |q|
    ensures multiset(q[..n]) + multiset(q[n..]) == multiset(q)
  {
    assert q == q[..n] + q[n..];
  }

  lemma BestIsIndex(servers: seq<Server>, chosen: Named, best: int)
    requires FirstNearest(servers, chosen, best)
    ensures -1 <= best < |servers|
  {}

  /** The queues, and the first whose subscription is the chosen server's. */
  method MakeQueues(subs: seq<Subscription>, chosen: Named) returns (queues: seq<seq<Server>>, own: int)
    ensures queues == Queues(subs) && OwnIs(subs, chosen, own)
  {
    queues, own := [], -1;
    for i := 0 to |subs|
      invariant queues == Queues(subs[..i])
      invariant own < 0 ==> own == -1 && (chosen.Names?
                                          ==> forall j | 0 <= j < i :: subs[j].id != chosen.r.subscription)
      invariant own >= 0 ==> own < i && chosen.Names? && subs[own].id == chosen.r.subscription
      invariant own >= 0 ==> forall j | 0 <= j < own :: subs[j].id != chosen.r.subscription
    {
      queues := queues + [Queue(subs[i])];
      if own < 0 && chosen.Names? && subs[i].id == chosen.r.subscription {
        own := i;
      }
    }
    assert subs[..|subs|] == subs;
  }
}
