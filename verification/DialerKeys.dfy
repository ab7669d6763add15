/** The dialerProxy keys an accepted entry is stored with. */
module DialerKeys {
  // The importer refuses an entry whose socket names an outbound to dial through,
  // but not one whose dialerProxy is empty or no text: such a key stays, at any
  // depth, unless it lies under a key that a pass deletes.

  import opened FoldedNames
  import opened Entries
  import opened Sanitizers

  /** What an object is the value of: what the passes delete of it depends on that. */
  datatype Place = Root | Plain | Socket | Settings(tls: bool)

  predicate TLSStream(t: map<string, Json>) {
    "security" in t && t["security"].Text? && AsciiLower(t["security"].s) == "tls"
  }

  function PlaceOf(t: map<string, Json>, k: string): Place {
    if k == "sockopt" || k == "echSockopt" then Socket
    else if k == "tlsSettings" then Settings(TLSStream(t))
    else if k == "realitySettings" then Settings(false) else Plain
  }

  /** The deletions from number n on: of allowInsecure, of the entry's tag and
      source address, of routing keys, and of the key log. */
  predicate Deleted(n: nat, place: Place, k: string) {
    || (n <= 0 && place == Settings(true) && k == "allowInsecure")
    || (n <= 1 && place == Root && (k == "tag" || k == "sendThrough"))
    || (n <= 2 && place == Socket && k in ROUTING)
    || (n <= 3 && place.Settings? && k == "masterKeyLog")
  }

  /** Somewhere in v, outside "headers" and what the deletions from n on take, a
      socket holds the key dialerProxy. */
  ghost predicate Kept(n: nat, place: Place, v: Json)
    decreases v
  {
    match v
    case Object(t) =>
      || (place == Socket && "dialerProxy" in t)
      || exists k :: k in t && k != "headers" && !Deleted(n, place, k) && Kept(n, PlaceOf(t, k), t[k])
    case Items(a) => exists i :: 0 <= i < |a| && Kept(n, Plain, a[i])
    case _ => false
  }

  /** The same as Xray reads the keys, of all there is. */
  ghost predicate HasDialerKey(v: Json, socket: bool)
    decreases v
  {
    match v
    case Object(t) =>
      || (socket && exists j :: j in t && EqualFold(j, "dialerProxy"))
      || exists k :: k in t && k != "headers" && HasDialerKey(t[k], IsSocketKey(k))
    case Items(a) => exists i :: 0 <= i < |a| && HasDialerKey(a[i], false)
    case _ => false
  }

  predicate IsSocketKey(k: string) { EqualFold(k, "sockopt") || EqualFold(k, "echSockopt") }

  // ---------------------------------------------------------------- lowering

  lemma {:induction false} LowerKeeps(n: nat, place: Place, v: Json)
    ensures Kept(n, place, Lower(v)) <==> Kept(n, place, v)
    decreases v
  {
    match v
    case Object(t) =>
      hide Deleted;
      var u := Lower(v).fields;
      forall k | k in t && k != "headers"
        ensures PlaceOf(u, k) == PlaceOf(t, k) && (Kept(n, PlaceOf(t, k), u[k]) <==> Kept(n, PlaceOf(t, k), t[k]))
      {
        SamePlace(t, u, k);
        LowerKeeps(n, PlaceOf(t, k), t[k]);
      }
      hide Lower, PlaceOf;
    case Items(a) =>
      var b := Lower(v).items;
      forall i | 0 <= i < |a| ensures Kept(n, Plain, b[i]) <==> Kept(n, Plain, a[i]) { LowerKeeps(n, Plain, a[i]); }
    case _ =>
  }

  lemma SamePlace(t: map<string, Json>, u: map<string, Json>, k: string)
    requires u == Lower(Object(t)).fields
    ensures PlaceOf(u, k) == PlaceOf(t, k)
  {
    if "security" in t {
      if t["security"].Text? { LowerTwice(t["security"].s); } else { NoText(t["security"]); }
    }
  }

  lemma NoText(v: Json)
    requires !v.Text?
    ensures !Lower(v).Text?
  {}

  // ---------------------------------------------------------------- the deleting passes

  function Turn(pass: Pass): nat {
    match pass
    case TLSPass => 0
    case ScrubPass => 2
    case KeyLogPass => 3
  }

  /** What the pass over the object around it deletes of an object. */
  function Cut(pass: Pass, place: Place, v: Json): Json {
    if !v.Object? then v
    else
      match pass
      case TLSPass => if place == Settings(true) then Object(v.fields - {"allowInsecure"}) else v
      case ScrubPass => if place == Socket then Object(v.fields - ROUTING) else v
      case KeyLogPass => if place.Settings? then Object(v.fields - {"masterKeyLog"}) else v
  }

  /** A field of an object after the pass: the value after it, cut, or nothing. */
  lemma FieldIs(pass: Pass, t: map<string, Json>, k: string)
    requires k in t && (pass == TLSPass ==> (IsTLS(t) <==> TLSStream(t)))
    ensures Passed(pass, Object(t)).Object?
    ensures var w, c := Passed(pass, Object(t)).fields, Cut(pass, PlaceOf(t, k), Passed(pass, t[k]));
            if k in w then w[k] == c else c == Object(map[])
  {
    var u: map<string, Json> := map j | j in t :: Passed(pass, t[j]);
    LevelIs(pass, t, u);
    hide Passed;
    var c := Cut(pass, PlaceOf(t, k), u[k]);
    match pass
    case TLSPass => TLSField(t, u, k);
    case ScrubPass => ScrubField(t, u, k);
    case KeyLogPass => KeyLogField(t, u, k);
  }

  lemma TLSField(t: map<string, Json>, u: map<string, Json>, k: string)
    requires k in u && (IsTLS(t) <==> TLSStream(t))
    ensures var w := LevelOf(TLSPass, t, u); k in w && w[k] == Cut(TLSPass, PlaceOf(t, k), u[k])
  {
    hide IsTLS, TLSStream;
  }

  lemma ScrubField(t: map<string, Json>, u: map<string, Json>, k: string)
    requires k in u
    ensures var w, c := LevelOf(ScrubPass, t, u), Cut(ScrubPass, PlaceOf(t, k), u[k]);
            if k in w then w[k] == c else c == Object(map[])
  {
    hide TLSStream;
    ScrubAt(u, "sockopt", k);
    ScrubAt(ScrubSocket(u, "sockopt"), "echSockopt", k);
    hide ScrubSocket;
  }

  lemma ScrubAt(u: map<string, Json>, key: string, k: string)
    ensures var w := ScrubSocket(u, key);
            && (k != key ==> (k in w <==> k in u) && (k in w ==> w[k] == u[k]))
            && (k == key && k in u && u[k].Object? ==>
                  if k in w then w[k] == Object(u[k].fields - ROUTING) else u[k].fields - ROUTING == map[])
            && (k == key && k in u && !u[k].Object? ==> k in w && w[k] == u[k])
  {}

  lemma KeyLogField(t: map<string, Json>, u: map<string, Json>, k: string)
    requires k in u
    ensures var w := LevelOf(KeyLogPass, t, u); k in w && w[k] == Cut(KeyLogPass, PlaceOf(t, k), u[k])
  {
    hide TLSStream;
  }

  lemma NoMoreKeys(pass: Pass, t: map<string, Json>)
    ensures Passed(pass, Object(t)).Object? && Passed(pass, Object(t)).fields.Keys <= t.Keys
  {
    var u: map<string, Json> := map j | j in t :: Passed(pass, t[j]);
    LevelIs(pass, t, u);
    hide Passed, IsTLS;
  }

  /** A text stays, and what is none becomes none. */
  lemma StaysText(pass: Pass, v: Json, place: Place)
    ensures Cut(pass, place, Passed(pass, v)).Text? <==> v.Text?
    ensures v.Text? ==> Cut(pass, place, Passed(pass, v)) == v
  {
    match v
    case Object(t) => NoMoreKeys(pass, t);
    case Items(a) => ItemsIs(pass, a);
    case _ => LeafIs(pass, v);
  }

  /** A pass deletes what its number says, and moves nothing. */
  lemma {:induction false} PassKeeps(pass: Pass, place: Place, v: Json)
    requires pass == TLSPass ==> Everywhere(NamesLowered, v)
    ensures Kept(Turn(pass) + 1, place, Cut(pass, place, Passed(pass, v))) <==> Kept(Turn(pass), place, v)
    decreases v
  {
    match v
    case Object(t) =>
      hide Kept, Cut;
      forall k | k in t && k != "headers"
        ensures Kept(Turn(pass) + 1, PlaceOf(t, k), Cut(pass, PlaceOf(t, k), Passed(pass, t[k])))
                <==> Kept(Turn(pass), PlaceOf(t, k), t[k])
      {
        PassKeeps(pass, PlaceOf(t, k), t[k]);
      }
      LevelKeeps(pass, place, t);
    case Items(a) =>
      ItemsIs(pass, a);
      forall i | 0 <= i < |a|
        ensures Kept(Turn(pass) + 1, Plain, Passed(pass, v).items[i]) <==> Kept(Turn(pass), Plain, a[i])
      {
        PassKeeps(pass, Plain, a[i]);
        assert Cut(pass, Plain, Passed(pass, a[i])) == Passed(pass, a[i]);
      }
      hide Passed;
    case _ => LeafIs(pass, v);
  }

  lemma LevelKeeps(pass: Pass, place: Place, t: map<string, Json>)
    requires pass == TLSPass ==> Holds(NamesLowered, t)
    requires forall k | k in t && k != "headers" ::
      Kept(Turn(pass) + 1, PlaceOf(t, k), Cut(pass, PlaceOf(t, k), Passed(pass, t[k]))) <==>
      Kept(Turn(pass), PlaceOf(t, k), t[k])
    ensures Kept(Turn(pass) + 1, place, Cut(pass, place, Passed(pass, Object(t))))
            <==> Kept(Turn(pass), place, Object(t))
  {
    var n := Turn(pass);
    NoMoreKeys(pass, t);
    var w := Passed(pass, Object(t)).fields;
    var x := Cut(pass, place, Object(w)).fields;
    forall k | k in t && k != "headers"
      ensures PlaceOf(x, k) == PlaceOf(t, k)
      ensures (k in x && !Deleted(n + 1, place, k) && Kept(n + 1, PlaceOf(x, k), x[k]))
                <==> (!Deleted(n, place, k) && Kept(n, PlaceOf(t, k), t[k]))
    {
      FieldKept(pass, place, t, k);
    }
    DialerStays(pass, place, t);
    hide Passed, Cut, PlaceOf, Deleted, Turn;
  }

  lemma DialerStays(pass: Pass, place: Place, t: map<string, Json>)
    requires pass == TLSPass ==> Holds(NamesLowered, t)
    ensures var w := Passed(pass, Object(t)); w.Object? && Cut(pass, place, w).Object?
    ensures var x := Cut(pass, place, Passed(pass, Object(t))).fields;
            x.Keys <= t.Keys && ("dialerProxy" in x <==> "dialerProxy" in t)
  {
    NoMoreKeys(pass, t);
    if "dialerProxy" in t {
      Streams(pass, t);
      FieldIs(pass, t, "dialerProxy");
      assert PlaceOf(t, "dialerProxy") == Plain;
      NotEmptied(pass, t["dialerProxy"], t);
    }
    hide Passed;
  }

  /** Only a socket is deleted for being empty. */
  lemma NotEmptied(pass: Pass, v: Json, t: map<string, Json>)
    requires "dialerProxy" in t
    ensures Passed(pass, Object(t)).Object? && "dialerProxy" in Passed(pass, Object(t)).fields
  {
    var u: map<string, Json> := map j | j in t :: Passed(pass, t[j]);
    LevelIs(pass, t, u);
    hide Passed, IsTLS;
    if pass == ScrubPass {
      ScrubAt(u, "sockopt", "dialerProxy");
      ScrubAt(ScrubSocket(u, "sockopt"), "echSockopt", "dialerProxy");
      hide ScrubSocket;
    }
  }

  lemma Streams(pass: Pass, t: map<string, Json>)
    requires pass == TLSPass ==> Holds(NamesLowered, t)
    ensures pass == TLSPass ==> (IsTLS(t) <==> TLSStream(t))
  {}

  lemma FieldKept(pass: Pass, place: Place, t: map<string, Json>, k: string)
    requires k in t && (pass == TLSPass ==> Holds(NamesLowered, t))
    requires Kept(Turn(pass) + 1, PlaceOf(t, k), Cut(pass, PlaceOf(t, k), Passed(pass, t[k])))
             <==> Kept(Turn(pass), PlaceOf(t, k), t[k])
    ensures var w := Passed(pass, Object(t)); w.Object? && Cut(pass, place, w).Object?
    ensures var n, x := Turn(pass), Cut(pass, place, Passed(pass, Object(t))).fields;
            && PlaceOf(x, k) == PlaceOf(t, k)
            && ((k in x && !Deleted(n + 1, place, k) && Kept(n + 1, PlaceOf(x, k), x[k]))
                <==> (!Deleted(n, place, k) && Kept(n, PlaceOf(t, k), t[k])))
  {
    Streams(pass, t);
    NoMoreKeys(pass, t);
    FieldIs(pass, t, k);
    PlaceStays(pass, place, t, k);
    assert !Kept(Turn(pass) + 1, PlaceOf(t, k), Object(map[]));
    hide Passed, PlaceOf, Kept;
  }

  lemma PlaceStays(pass: Pass, place: Place, t: map<string, Json>, k: string)
    requires pass == TLSPass ==> Holds(NamesLowered, t)
    ensures var w := Passed(pass, Object(t)); w.Object? && Cut(pass, place, w).Object?
    ensures PlaceOf(Cut(pass, place, Passed(pass, Object(t))).fields, k) == PlaceOf(t, k)
  {
    NoMoreKeys(pass, t);
    if "security" in t {
      Streams(pass, t);
      FieldIs(pass, t, "security");
      StaysText(pass, t["security"], Plain);
    }
    hide Passed, AsciiLower;
  }

  lemma UntagKeeps(t: map<string, Json>)
    ensures Kept(2, Root, Object(t - {"tag", "sendThrough"})) <==> Kept(1, Root, Object(t))
  {
    var u := t - {"tag", "sendThrough"};
    hide Kept;
    forall k | k in t ensures PlaceOf(u, k) == PlaceOf(t, k) {}
    KeptIs(2, Root, u);
    KeptIs(1, Root, t);
    forall k | k in t ensures Kept(2, PlaceOf(t, k), t[k]) <==> Kept(1, PlaceOf(t, k), t[k]) {
      OnlyAtRoot(PlaceOf(t, k), t[k]);
    }
  }

  lemma KeptIs(n: nat, place: Place, t: map<string, Json>)
    ensures Kept(n, place, Object(t)) <==>
              || (place == Socket && "dialerProxy" in t)
              || exists k :: k in t && k != "headers" && !Deleted(n, place, k) && Kept(n, PlaceOf(t, k), t[k])
  {}

  /** The second deletion is of the entry itself only. */
  lemma {:induction false} OnlyAtRoot(place: Place, v: Json)
    requires place != Root
    ensures Kept(2, place, v) <==> Kept(1, place, v)
    decreases v
  {
    match v
    case Object(t) =>
      forall k | k in t ensures Kept(2, PlaceOf(t, k), t[k]) <==> Kept(1, PlaceOf(t, k), t[k])
      {
        OnlyAtRoot(PlaceOf(t, k), t[k]);
      }
      hide PlaceOf;
    case Items(a) => forall i | 0 <= i < |a| ensures Kept(2, Plain, a[i]) <==> Kept(1, Plain, a[i])
      {
        OnlyAtRoot(Plain, a[i]);
      }
    case _ =>
  }

  // ---------------------------------------------------------------- what is stored

  /** Where all keys are spelled right, Xray reads the keys as they are spelled. */
  lemma {:induction false} ReadAsSpelled(place: Place, v: Json)
    requires Everywhere(KeysSpelled, v)
    ensures HasDialerKey(v, place == Socket) <==> Kept(4, place, v)
    decreases v
  {
    match v
    case Object(t) =>
      forall k | k in t
        ensures (EqualFold(k, "dialerProxy") <==> k == "dialerProxy") && (IsSocketKey(k) <==> PlaceOf(t, k) == Socket)
        ensures k != "headers" ==> (HasDialerKey(t[k], IsSocketKey(k)) <==> Kept(4, PlaceOf(t, k), t[k]))
      {
        SpelledDialer(k);
        if k != "headers" { ReadAsSpelled(PlaceOf(t, k), t[k]); }
      }
      hide EqualFold, PlaceOf, IsSocketKey, SpelledRight;
    case Items(a) =>
      forall i | 0 <= i < |a| ensures HasDialerKey(a[i], false) <==> Kept(4, Plain, a[i])
      {
        ReadAsSpelled(Plain, a[i]);
      }
    case _ =>
  }

  lemma SpelledDialer(k: string)
    requires SpelledRight(k)
    ensures EqualFold(k, "dialerProxy") <==> k == "dialerProxy"
    ensures EqualFold(k, "sockopt") <==> k == "sockopt"
    ensures EqualFold(k, "echSockopt") <==> k == "echSockopt"
  {
    hide SpelledRight;
    LookedUp(k);
  }

  /** An accepted entry is stored with a dialerProxy in a socket, at any depth and
      as Xray reads keys, if and only if it came with one that lies under no key the
      passes delete. */
  lemma DialerKeyStaysIff(ob: Json)
    requires ob.Object? && KeysClean(ob) && !HasDialerProxy(Lower(ob))
    ensures HasDialerKey(Stored(ob), false) <==> Kept(0, Root, ob)
  {
    hide Kept, HasDialerKey, Lower, SanitizeTLS, Scrub, DropKeyLog, Everywhere, KeysClean, HasDialerProxy;
    StoredHolds(ob);
    ReadAsSpelled(Root, Stored(ob));
    LowerLowers(ob);
    LowerKeeps(0, Root, ob);
    var lowered := Lower(ob);
    LoweredIs(ob);
    SecuredIs(lowered);
    PassKeeps(TLSPass, Root, lowered);
    var secured := SanitizeTLS(lowered);
    UntagKeeps(secured.fields);
    var untagged := Object(secured.fields - {"tag", "sendThrough"});
    PassKeeps(ScrubPass, Root, untagged);
    PassKeeps(KeyLogPass, Root, Scrub(untagged));
  }

  /** Nothing is stored with one that came without. */
  lemma {:induction false} KeptIsThere(n: nat, place: Place, v: Json)
    requires Kept(n, place, v)
    ensures HasDialerKey(v, place == Socket)
    decreases v
  {
    match v
    case Object(t) =>
      if !(place == Socket && "dialerProxy" in t) {
        var k :| k in t && k != "headers" && !Deleted(n, place, k) && Kept(n, PlaceOf(t, k), t[k]);
        KeptIsThere(n, PlaceOf(t, k), t[k]);
        if PlaceOf(t, k) == Socket { assert IsSocketKey(k); } else { Wider(t[k]); }
        assert HasDialerKey(t[k], IsSocketKey(k));
      } else {
        assert EqualFold("dialerProxy", "dialerProxy");
      }
    case Items(a) =>
      var i :| 0 <= i < |a| && Kept(n, Plain, a[i]);
      KeptIsThere(n, Plain, a[i]);
    case _ =>
  }

  lemma Wider(v: Json)
    requires HasDialerKey(v, false)
    ensures HasDialerKey(v, true)
  {}

  // ---------------------------------------------------------------- entries that show it

  const NAMES: set<string> := {"protocol", "settings", "address", "port", "streamSettings", "tlsSettings", "sockopt",
                               "echSockopt", "dialerProxy", "tag"}

  /** A tree of such keys, in which a dialerProxy is the empty text. */
  predicate Calm(v: Json) {
    match v
    case Object(t) =>
      (forall k | k in t :: k in NAMES && Calm(t[k])) && ("dialerProxy" in t ==> t["dialerProxy"] == Text(""))
    case Items(a) => forall i | 0 <= i < |a| :: Calm(a[i])
    case _ => true
  }

  lemma NamesRight(k: string)
    requires k in NAMES
    ensures SpelledRight(k)
  {
    hide SpelledRight;
    Places();
    NameIsRight(0);
    NameIsRight(1);
    NameIsRight(4);
    NameIsRight(5);
    NameIsRight(6);
    NameIsRight(9);
    NameIsRight(19);
    NameIsRight(20);
    NameIsRight(25);
    NameIsRight(27);
    hide GUARDED;
  }

  /** Such a tree passes every test, and lowering leaves it. */
  lemma {:induction false} CalmPasses(v: Json, settled: bool)
    requires Calm(v)
    ensures KeysClean(v) && Lower(v) == v && !HasDialerProxy(v) && !Insecure(v, settled)
    decreases v
  {
    hide SpelledRight;
    match v
    case Object(t) =>
      forall k | k in t
        ensures SpelledRight(k) && k != "security" && k != "network" && k != "headers"
        ensures KeysClean(t[k]) && Lower(t[k]) == t[k] && !HasDialerProxy(t[k]) && !Insecure(t[k], Settles(t, k))
      {
        NamesRight(k);
        CalmPasses(t[k], Settles(t, k));
      }
      assert Lower(v).fields == t;
      forall k | k in t && t[k].Object? ensures TextOf(t[k].fields, "dialerProxy") == "" {}
    case Items(a) =>
      forall i | 0 <= i < |a|
        ensures KeysClean(a[i]) && Lower(a[i]) == a[i] && !HasDialerProxy(a[i]) && !Insecure(a[i], false)
      {
        CalmPasses(a[i], false);
      }
      assert Lower(v).items == a;
    case _ =>
  }

  const DIALER: Json := Object(map["dialerProxy" := Text("")])
  const SOCKET: Json := Object(map["sockopt" := DIALER])
  const ECH: Json := Object(map["tlsSettings" := Object(map["echSockopt" := DIALER])])

  /** An outbound to one server, with one more key. */
  function Proxy(key: string, value: Json): Json {
    Object(map["protocol" := Text("vless"),
               "settings" := Object(map["address" := Text("10.0.0.1"), "port" := Number("443")]),
               key := value])
  }

  function ConfigOf(ob: Json): Json { Object(map["outbounds" := Items([ob])]) }

  lemma CalmField(t: map<string, Json>, k: string)
    requires Calm(Object(t)) && k in t
    ensures k in NAMES && Calm(t[k])
  {}

  lemma CalmLeaf(v: Json)
    requires v.Text? || v.Number?
    ensures Calm(v)
  {}

  lemma CalmProxy(key: string, value: Json)
    requires (key == "streamSettings" || key == "tag") && Calm(value)
    ensures Calm(Proxy(key, value))
  {
    var settings := Object(map["address" := Text("10.0.0.1"), "port" := Number("443")]);
    assert Calm(settings) by {
      hide Calm;
      CalmLeaf(Text("10.0.0.1"));
      CalmLeaf(Number("443"));
      CalmObject(settings.fields);
    }
    CalmLeaf(Text("vless"));
    hide Calm;
    CalmObject(Proxy(key, value).fields);
  }

  lemma CalmObject(t: map<string, Json>)
    requires "dialerProxy" !in t && forall k | k in t :: k in NAMES && Calm(t[k])
    ensures Calm(Object(t))
  {}

  lemma OneProxy(key: string, value: Json)
    requires key == "streamSettings" || key == "tag"
    ensures var ob := Proxy(key, value); ProxiesOf([ob]) == [ob] && Outbounds(ConfigOf(ob)) == [ob]
  {
    var ob := Proxy(key, value);
    assert [ob][..0] == [];
    assert AsciiLower("vless") == "vless";
    hide AsciiLower;
    assert Lowered(ob).fields == ob.fields;
    assert ProxiesOf([]) == [] && ProxiesOf([ob]) == ProxiesOf([]) + [ob];
  }

  /** The config of such an outbound is accepted. */
  lemma Taken(key: string, value: Json, targetOK: Json -> bool)
    requires (key == "streamSettings" || key == "tag") && Calm(value) && targetOK(Proxy(key, value))
    ensures Acceptable(ConfigOf(Proxy(key, value)), targetOK)
    ensures KeysClean(Proxy(key, value)) && !HasDialerProxy(Lower(Proxy(key, value)))
  {
    hide Calm, KeysClean, HasDialerProxy, Insecure, SanitizeTLS, AsciiLower, Lower, ProxiesOf, RealityIncomplete;
    var ob := Proxy(key, value);
    CalmProxy(key, value);
    CalmPasses(ob, false);
    OneProxy(key, value);
    NoSecurity(ob);
  }

  lemma ShrunkField(a: Json, b: Json, k: string)
    requires Shrinks(a, b) && a.Object? && b.Object? && k in b.fields && b.fields[k].Object?
    ensures k in a.fields && a.fields[k].Object? && b.fields[k].fields.Keys <= a.fields[k].fields.Keys
  {
    assert Shrinks(a.fields[k], b.fields[k]);
  }

  lemma NoSuchName()
    ensures "security" !in NAMES
  {}

  lemma NotReality(stream: map<string, Json>)
    requires "security" !in stream
    ensures !RealityIncomplete(stream)
  {}

  lemma NoSecurity(ob: Json)
    requires Calm(ob) && ob.Object?
    ensures SanitizeTLS(ob).Object? && !RealityIncomplete(FieldsOf(SanitizeTLS(ob).fields, "streamSettings"))
  {
    SecuredIs(ob);
    NoSuchName();
    hide SanitizeTLS, Shrinks, Calm, RealityIncomplete, NAMES;
    SanitizeShrinks(ob);
    var s := SanitizeTLS(ob).fields;
    if "streamSettings" in s && s["streamSettings"].Object? {
      ShrunkField(ob, SanitizeTLS(ob), "streamSettings");
      CalmField(ob.fields, "streamSettings");
      var stream := ob.fields["streamSettings"].fields;
      if "security" in stream { CalmField(stream, "security"); }
    }
    NotReality(FieldsOf(s, "streamSettings"));
  }

  lemma KeptUnder(n: nat, place: Place, t: map<string, Json>, k: string)
    requires k in t && k != "headers" && !Deleted(n, place, k) && Kept(n, PlaceOf(t, k), t[k])
    ensures Kept(n, place, Object(t))
  {}

  lemma DialerKept(n: nat)
    ensures Kept(n, Socket, DIALER) && Calm(DIALER) && HasDialerKey(DIALER, true)
  {
    assert EqualFold("dialerProxy", "dialerProxy");
  }

  /** Entries that are accepted and keep the key: in the stream's socket, and in the
      one its ECH query is dialed on. */
  lemma EmptyDialerStays(stream: Json, targetOK: Json -> bool)
    requires (stream == SOCKET || stream == ECH) && targetOK(Proxy("streamSettings", stream))
    ensures var ob := Proxy("streamSettings", stream);
            Acceptable(ConfigOf(ob), targetOK) && HasDialerKey(Stored(ob), false)
  {
    hide Acceptable, Stored, Calm, KeysClean, HasDialerProxy, Lower, HasDialerKey, Kept;
    var ob := Proxy("streamSettings", stream);
    DialerKept(0);
    if stream == SOCKET {
      CalmObject(stream.fields);
      KeptUnder(0, Plain, stream.fields, "sockopt");
    } else {
      var tls := map["echSockopt" := DIALER];
      CalmObject(tls);
      CalmObject(stream.fields);
      KeptUnder(0, PlaceOf(stream.fields, "tlsSettings"), tls, "echSockopt");
      KeptUnder(0, Plain, stream.fields, "tlsSettings");
    }
    Taken("streamSettings", stream, targetOK);
    DialerKeyStaysIff(ob);
    KeptUnder(0, Root, ob.fields, "streamSettings");
  }

  lemma HasUnder(t: map<string, Json>, k: string, socket: bool)
    requires k in t && k != "headers" && HasDialerKey(t[k], IsSocketKey(k))
    ensures HasDialerKey(Object(t), socket)
  {}

  lemma NoneKept(n: nat, place: Place, v: Json)
    requires || v.Text? || v.Number?
             || (&& v.Object? && place != Socket
                 && forall k | k in v.fields :: v.fields[k].Text? || v.fields[k].Number?)
    ensures !Kept(n, place, v)
  {}

  lemma SocketKeys()
    ensures IsSocketKey("sockopt") && !IsSocketKey("tag")
  {
    assert EqualFold("sockopt", "sockopt");
    assert |"tag"| != |"sockopt"| && |"tag"| != |"echSockopt"|;
  }

  /** An entry that is accepted and loses it: it lies under the tag. */
  lemma DialerGoes(targetOK: Json -> bool)
    requires targetOK(Proxy("tag", SOCKET))
    ensures var ob := Proxy("tag", SOCKET);
            Acceptable(ConfigOf(ob), targetOK) && HasDialerKey(ob, false) && !HasDialerKey(Stored(ob), false)
  {
    SocketKeys();
    hide Acceptable, Stored, Calm, KeysClean, HasDialerProxy, Lower, HasDialerKey, Kept, EqualFold, IsSocketKey;
    var ob := Proxy("tag", SOCKET);
    var t := ob.fields;
    DialerKept(0);
    CalmObject(SOCKET.fields);
    Taken("tag", SOCKET, targetOK);
    DialerKeyStaysIff(ob);
    KeptIs(0, Root, t);
    NoneKept(0, Plain, t["protocol"]);
    NoneKept(0, Plain, t["settings"]);
    HasUnder(SOCKET.fields, "sockopt", false);
    HasUnder(t, "tag", false);
  }
}
