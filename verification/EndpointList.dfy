/** The endpoints the monitor is given to check. */
module EndpointList {
  // Each server once for each address, one endpoint to a key, the active server's
  // first; what the generator refuses is no endpoint. How a copy is keyed and what
  // the generator makes of it are parameters.

  import opened Servers
  import Walk
  import WalkOrder
  import M = MonitorState
  import O = MonitorObject

  datatype Generated = Outbound(ob: string) | Refuses(reason: string)

  datatype Build = Build(key: Server -> string, generate: Server -> Generated, active: set<string>)

  function AllCopies(subs: seq<WalkOrder.Subscription>): seq<Server> {
    if |subs| == 0 then []
    else AllCopies(subs[..|subs| - 1]) + Walk.Copies(WalkOrder.Queue(subs[|subs| - 1]))
  }

  /** The lists so far, of the active server's endpoints, of the others, and of what
      was refused. */
  datatype Lists = Lists(first: seq<M.Endpoint>, rest: seq<M.Endpoint>, refused: map<string, string>)

  /** c is the first copy of these with its key. */
  ghost predicate Leads(copies: seq<Server>, c: Server, b: Build) {
    exists i :: 0 <= i < |copies| && copies[i] == c && forall j | 0 <= j < i :: b.key(copies[j]) != b.key(c)
  }

  ghost predicate ListedAs(copies: seq<Server>, e: M.Endpoint, b: Build) {
    exists c :: Leads(copies, c, b) && b.key(c) == e.key && b.generate(c) == Outbound(e.outbound)
  }

  ghost predicate RefusedAs(copies: seq<Server>, k: string, reason: string, b: Build) {
    exists c :: Leads(copies, c, b) && b.key(c) == k && b.generate(c) == Refuses(reason)
  }

  /** One endpoint or one refusal to every key of the copies, from the first with
      that key. */
  ghost predicate Of(l: Lists, copies: seq<Server>, b: Build) {
    && O.OnceEach(l.first + l.rest)
    && (forall e | e in l.first :: e.key in b.active) && (forall e | e in l.rest :: e.key !in b.active)
    && (forall e | e in l.first + l.rest :: e.key !in l.refused && ListedAs(copies, e, b))
    && (forall k | k in l.refused :: RefusedAs(copies, k, l.refused[k], b))
    && (forall c | c in copies :: b.key(c) in l.refused || b.key(c) in O.KeysOf(l.first + l.rest))
  }

  lemma LeadsOn(copies: seq<Server>, c: Server, more: Server, b: Build)
    ensures Leads(copies, c, b) ==> Leads(copies + [more], c, b)
    ensures (forall x | x in copies :: b.key(x) != b.key(more)) ==> Leads(copies + [more], more, b)
  {
    var all := copies + [more];
    if i :| 0 <= i < |copies| && copies[i] == c && forall j | 0 <= j < i :: b.key(copies[j]) != b.key(c) {
      assert all[i] == c && forall j | 0 <= j < i :: all[j] == copies[j];
    }
    if forall x | x in copies :: b.key(x) != b.key(more) {
      assert all[|copies|] == more && forall j | 0 <= j < |copies| :: all[j] == copies[j] && all[j] in copies;
    }
  }

  lemma OldListed(l: Lists, copies: seq<Server>, c: Server, b: Build)
    requires Of(l, copies, b)
    ensures forall e | e in l.first + l.rest :: ListedAs(copies + [c], e, b)
    ensures forall k | k in l.refused :: RefusedAs(copies + [c], k, l.refused[k], b)
  {
    hide Leads;
    forall e | e in l.first + l.rest ensures ListedAs(copies + [c], e, b) {
      var x :| Leads(copies, x, b) && b.key(x) == e.key && b.generate(x) == Outbound(e.outbound);
      LeadsOn(copies, x, c, b);
    }
    forall k | k in l.refused ensures RefusedAs(copies + [c], k, l.refused[k], b) {
      var x :| Leads(copies, x, b) && b.key(x) == k && b.generate(x) == Refuses(l.refused[k]);
      LeadsOn(copies, x, c, b);
    }
  }

  /** A copy whose key is there already adds nothing. */
  lemma SeenAgain(l: Lists, copies: seq<Server>, c: Server, b: Build)
    requires Of(l, copies, b) && exists x :: x in copies && b.key(x) == b.key(c)
    ensures Of(l, copies + [c], b)
  {
    hide ListedAs, RefusedAs;
    OldListed(l, copies, c, b);
  }

  lemma KeyIsOf(l: Lists, copies: seq<Server>, b: Build, k: string)
    requires Of(l, copies, b)
    ensures (k in l.refused || k in O.KeysOf(l.first + l.rest)) <==> exists c :: c in copies && b.key(c) == k
  {
    if k in l.refused {
      assert RefusedAs(copies, k, l.refused[k], b);
    }
    if k in O.KeysOf(l.first + l.rest) {
      var i :| 0 <= i < |l.first + l.rest| && (l.first + l.rest)[i].key == k;
      assert ListedAs(copies, (l.first + l.rest)[i], b);
    }
  }

  lemma NewRefused(l: Lists, copies: seq<Server>, c: Server, b: Build, reason: string)
    requires Of(l, copies, b) && (forall x | x in copies :: b.key(x) != b.key(c)) && b.generate(c) == Refuses(reason)
    ensures Of(l.(refused := l.refused[b.key(c) := reason]), copies + [c], b)
  {
    KeyIsOf(l, copies, b, b.key(c));
    OldListed(l, copies, c, b);
    LeadsOn(copies, c, c, b);
    assert RefusedAs(copies + [c], b.key(c), reason, b);
    hide ListedAs, RefusedAs, Leads;
    forall e | e in l.first + l.rest ensures e.key != b.key(c) {
      var i :| 0 <= i < |l.first + l.rest| && (l.first + l.rest)[i] == e;
      assert O.KeysOf(l.first + l.rest)[i] == e.key;
    }
  }

  /** What a new endpoint makes of the lists. */
  function With(l: Lists, e: M.Endpoint, active: bool): Lists {
    if active then l.(first := l.first + [e]) else l.(rest := l.rest + [e])
  }

  lemma WithHas(l: Lists, e: M.Endpoint, active: bool)
    ensures var m := With(l, e, active);
            && (forall x :: x in m.first + m.rest <==> x in l.first + l.rest || x == e)
            && (O.OnceEach(l.first + l.rest) && e.key !in O.KeysOf(l.first + l.rest) ==> O.OnceEach(m.first + m.rest))
            && (forall k :: k in O.KeysOf(m.first + m.rest) <==> k in O.KeysOf(l.first + l.rest) || k == e.key)
  {
    var m := With(l, e, active);
    var was, now := l.first + l.rest, m.first + m.rest;
    var at := if active then |l.first| else |was|;
    assert now == was[..at] + [e] + was[at..];
    forall k ensures k in O.KeysOf(now) <==> k in O.KeysOf(was) || k == e.key {
      HasKey(now, k);
      HasKey(was, k);
    }
    if O.OnceEach(was) && e.key !in O.KeysOf(was) {
      forall i, j | 0 <= i < j < |now| ensures now[i].key != now[j].key {
        HasKey(was, e.key);
        Inserted(was, at, e, i);
        Inserted(was, at, e, j);
      }
    }
  }

  lemma HasKey(eps: seq<M.Endpoint>, k: string)
    ensures k in O.KeysOf(eps) <==> exists e :: e in eps && e.key == k
  {
    if k in O.KeysOf(eps) {
      var i :| 0 <= i < |eps| && eps[i].key == k;
      assert eps[i] in eps;
    }
    if e :| e in eps && e.key == k {
      var i :| 0 <= i < |eps| && eps[i] == e;
      assert O.KeysOf(eps)[i] == k;
    }
  }

  lemma Inserted(eps: seq<M.Endpoint>, at: nat, e: M.Endpoint, i: nat)
    requires at <= |eps| && i <= |eps|
    ensures (eps[..at] + [e] + eps[at..])[i] == if i < at then eps[i] else if i == at then e else eps[i - 1]
  {}

  lemma NewListed(l: Lists, copies: seq<Server>, c: Server, b: Build, ob: string)
    requires Of(l, copies, b) && (forall x | x in copies :: b.key(x) != b.key(c)) && b.generate(c) == Outbound(ob)
    ensures Of(With(l, M.Endpoint(b.key(c), ob), b.key(c) in b.active), copies + [c], b)
  {
    var e := M.Endpoint(b.key(c), ob);
    KeyIsOf(l, copies, b, e.key);
    OldListed(l, copies, c, b);
    LeadsOn(copies, c, c, b);
    assert ListedAs(copies + [c], e, b);
    WithHas(l, e, e.key in b.active);
    hide ListedAs, RefusedAs, Leads, O.KeysOf, O.OnceEach;
  }

  /** The inner loop of Build: the copies of one server. */
  method AddCopies(l0: Lists, seen0: set<string>, copies: seq<Server>, b: Build, ghost before: seq<Server>)
    returns (l: Lists, seen: set<string>)
    requires Of(l0, before, b) && forall k :: k in seen0 <==> exists x :: x in before && b.key(x) == k
    ensures Of(l, before + copies, b) && forall k :: k in seen <==> exists x :: x in before + copies && b.key(x) == k
  {
    hide Of;
    l, seen := l0, seen0;
    assert before + copies[..0] == before;
    for i := 0 to |copies|
      invariant Of(l, before + copies[..i], b)
      invariant forall k :: k in seen <==> exists x :: x in before + copies[..i] && b.key(x) == k
    {
      var c := copies[i];
      var key := b.key(c);
      ghost var done := before + copies[..i];
      assert before + copies[..i + 1] == done + [c];
      if key in seen {
        SeenAgain(l, done, c, b);
        continue;
      }
      assert forall x | x in done :: b.key(x) != key;
      SeenNext(seen, done, c, b);
      seen := seen + {key};
      match b.generate(c) {
        case Refuses(reason) =>
          NewRefused(l, done, c, b, reason);
          l := l.(refused := l.refused[key := reason]);
        case Outbound(ob) =>
          NewListed(l, done, c, b, ob);
          l := With(l, M.Endpoint(key, ob), key in b.active);
      }
    }
    assert copies[..|copies|] == copies;
  }

  lemma SeenNext(seen: set<string>, done: seq<Server>, c: Server, b: Build)
    requires forall k :: k in seen <==> exists x :: x in done && b.key(x) == k
    ensures forall k :: k in seen + {b.key(c)} <==> exists x :: x in done + [c] && b.key(x) == k
  {
    forall k ensures k in seen + {b.key(c)} <==> exists x :: x in done + [c] && b.key(x) == k {
      if x :| x in done && b.key(x) == k { assert x in done + [c]; }
      assert c in done + [c];
    }
  }

  /** The keys of the active server's copies. */
  ghost predicate ActiveKey(subs: seq<WalkOrder.Subscription>, active: Named, key: Server -> string, k: string) {
    exists s, c :: active.Names? && IsActive(subs, active.r, s) && c in Walk.CopiesOf(s) && key(c) == k
  }

  ghost predicate IsActive(subs: seq<WalkOrder.Subscription>, r: Record, s: Server) {
    && s.subscription == r.subscription && s.name == r.name && s.address == r.address && s.port == r.port
    && exists i :: 0 <= i < |subs| && s in WalkOrder.Queue(subs[i])
  }

  method ActiveKeys(subs: seq<WalkOrder.Subscription>, active: Named, key: Server -> string) returns (keys: set<string>)
    ensures forall k :: k in keys <==> ActiveKey(subs, active, key, k)
  {
    hide Walk.CopiesOf;
    keys := {};
    if active.Nobody? { return; }
    for i := 0 to |subs|
      invariant forall k :: k in keys <==> ActiveKey(subs[..i], active, key, k)
    {
      var queue := WalkOrder.Queue(subs[i]);
      ghost var before := keys;
      for j := 0 to |queue|
        invariant forall k :: k in keys <==>
                    k in before || exists s :: s in queue[..j] && KeyOfActive(s, active.r, key, k)
      {
        var s := queue[j];
        assert queue[..j + 1] == queue[..j] + [s];
        KeyNext(queue[..j], s, active.r, key);
        if s.subscription != active.r.subscription || s.name != active.r.name || s.address != active.r.address
            || s.port != active.r.port {
          continue;
        }
        var copies := Walk.PerAddress([s]);
        OneServer(s);
        var more := set c | c in copies :: key(c);
        assert copies == Walk.CopiesOf(s);
        assert forall k :: k in more <==> KeyOfActive(s, active.r, key, k);
        keys := keys + more;
      }
      assert queue[..|queue|] == queue;
      ActiveNext(subs, i, active, key);
    }
    assert subs[..|subs|] == subs;
  }

  ghost predicate KeyOfActive(s: Server, r: Record, key: Server -> string, k: string) {
    && s.subscription == r.subscription && s.name == r.name && s.address == r.address && s.port == r.port
    && exists c :: c in Walk.CopiesOf(s) && key(c) == k
  }

  lemma KeyNext(done: seq<Server>, s: Server, r: Record, key: Server -> string)
    ensures forall k :: (exists x :: x in done + [s] && KeyOfActive(x, r, key, k)) <==>
              (exists x :: x in done && KeyOfActive(x, r, key, k)) || KeyOfActive(s, r, key, k)
  {
    hide KeyOfActive;
    forall k ensures (exists x :: x in done + [s] && KeyOfActive(x, r, key, k)) <==>
                       (exists x :: x in done && KeyOfActive(x, r, key, k)) || KeyOfActive(s, r, key, k)
    {
      if x :| x in done && KeyOfActive(x, r, key, k) { assert x in done + [s]; }
      assert s in done + [s];
    }
  }

  lemma OneServer(s: Server)
    ensures Walk.Copies([s]) == Walk.CopiesOf(s)
  {
    hide Walk.CopiesOf;
    assert [s][..0] == [];
    assert Walk.Copies([s]) == Walk.Copies([]) + Walk.CopiesOf(s);
  }

  lemma ActiveNext(subs: seq<WalkOrder.Subscription>, i: nat, active: Named, key: Server -> string)
    requires i < |subs| && active.Names?
    ensures forall k :: ActiveKey(subs[..i + 1], active, key, k) <==>
              || ActiveKey(subs[..i], active, key, k)
              || exists s :: s in WalkOrder.Queue(subs[i]) && KeyOfActive(s, active.r, key, k)
  {
    hide Walk.CopiesOf, WalkOrder.Queue;
    var now, was := subs[..i + 1], subs[..i];
    forall s ensures IsActive(now, active.r, s) <==>
                       IsActive(was, active.r, s) || (s in WalkOrder.Queue(subs[i])
                                                      && s.subscription == active.r.subscription
                         && s.name == active.r.name && s.address == active.r.address && s.port == active.r.port)
    {
      if j :| 0 <= j < |was| && s in WalkOrder.Queue(was[j]) { assert now[j] == was[j]; }
      assert now[i] == subs[i];
      if j :| 0 <= j < |now| && s in WalkOrder.Queue(now[j]) { assert j == i || was[j] == now[j]; }
    }
  }

  /** Build: every key of every copy is listed or refused, by the first copy with
      it, and never both; the active server's endpoints come first. */
  method BuildList(subs: seq<WalkOrder.Subscription>, active: Named, key: Server -> string,
                   generate: Server -> Generated)
    returns (eps: seq<M.Endpoint>, refused: map<string, string>)
    ensures O.OnceEach(eps) && O.ByKey(eps).Keys !! refused.Keys
    ensures forall k :: k in O.ByKey(eps) || k in refused <==> exists c :: c in AllCopies(subs) && key(c) == k
    ensures exists n, l, b: Build ::
              && 0 <= n <= |eps| && l == Lists(eps[..n], eps[n..], refused)
              && b.key == key && b.generate == generate
              && (forall k :: k in b.active <==> ActiveKey(subs, active, key, k)) && Of(l, AllCopies(subs), b)
  {
    hide Of, Walk.Copies;
    var keys := ActiveKeys(subs, active, key);
    var b := Build(key, generate, keys);
    var l := Lists([], [], map[]);
    var seen: set<string> := {};
    NothingListed(b);
    for i := 0 to |subs|
      invariant Of(l, AllCopies(subs[..i]), b)
      invariant forall k :: k in seen <==> exists x :: x in AllCopies(subs[..i]) && b.key(x) == k
    {
      assert subs[..i + 1][..i] == subs[..i];
      var copies := Walk.PerAddress(WalkOrder.Queue(subs[i]));
      l, seen := AddCopies(l, seen, copies, b, AllCopies(subs[..i]));
    }
    assert subs[..|subs|] == subs;
    eps, refused := l.first + l.rest, l.refused;
    assert eps[..|l.first|] == l.first && eps[|l.first|..] == l.rest;
    assert l == Lists(eps[..|l.first|], eps[|l.first|..], refused);
    ListsAre(l, AllCopies(subs), b);
  }

  lemma NothingListed(b: Build)
    ensures Of(Lists([], [], map[]), [], b)
  {}

  lemma ListsAre(l: Lists, copies: seq<Server>, b: Build)
    requires Of(l, copies, b)
    ensures var eps := l.first + l.rest;
            && O.OnceEach(eps) && O.ByKey(eps).Keys !! l.refused.Keys
            && forall k :: k in O.ByKey(eps) || k in l.refused <==> exists c :: c in copies && b.key(c) == k
  {
    var eps := l.first + l.rest;
    forall k
      ensures k in O.ByKey(eps) || k in l.refused <==> exists c :: c in copies && b.key(c) == k
      ensures k in O.ByKey(eps) ==> k !in l.refused
    {
      O.ByKeyHas(eps, k);
      KeyIsOf(l, copies, b, k);
      HasKey(eps, k);
    }
  }
}
