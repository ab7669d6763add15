/** The entry of one Xray client config. */
module Entries {
  // Which configs the importer takes, which answer it gives for each of the others,
  // and what it stores: said of the keys as Xray reads them, from the tests the source
  // makes one after another.

  import opened FoldedNames
  import opened Sanitizers

  // ---------------------------------------------------------------- what the tests ask

  /** Xray reads v under this name. */
  ghost predicate Reads(t: map<string, Json>, name: string, v: Json) {
    exists k :: k in t && EqualFold(k, name) && t[k] == v
  }

  ghost predicate HasWord(t: map<string, Json>, name: string) {
    exists s :: Reads(t, name, Text(s)) && s != ""
  }

  ghost predicate SpeaksProxy(o: Json) {
    o.Object? && exists s :: Reads(o.fields, "protocol", Text(s))
                             && s in {"vless", "vmess", "trojan", "shadowsocks", "hysteria"}
  }

  /** The outbound goes through another one by its proxySettings. */
  ghost predicate Hops(o: Json) {
    o.Object? && exists p :: Reads(o.fields, "proxySettings", Object(p)) && HasWord(p, "tag")
  }

  ghost predicate SeveralServers(o: Json) {
    o.Object? && exists settings, name, list ::
      && Reads(o.fields, "settings", Object(settings)) && name in {"vnext", "servers"}
      && Reads(settings, name, Items(list)) && |list| > 1
  }

  /** The settings have an address of their own beside the list their protocol reads. */
  ghost predicate FlatBeside(o: Json) {
    o.Object? && exists settings, flat, protocol, name, list ::
      && Reads(o.fields, "settings", Object(settings)) && Reads(settings, "address", flat) && flat != Null
      && Reads(o.fields, "protocol", Text(protocol))
      && ((protocol in {"vless", "vmess"} && name == "vnext")
          || (protocol in {"trojan", "shadowsocks"} && name == "servers"))
      && Reads(settings, name, Items(list)) && |list| > 0
  }

  /** What a reality stream needs: a key, the name of a server and a fingerprint. */
  ghost predicate RealityComplete(stream: map<string, Json>) {
    exists r :: Reads(stream, "realitySettings", Object(r))
                && (HasWord(r, "publicKey") || HasWord(r, "password")) && HasWord(r, "serverName")
                && HasWord(r, "fingerprint")
  }

  ghost predicate RealityLacks(o: Json) {
    o.Object? && exists stream ::
      && Reads(o.fields, "streamSettings", Object(stream)) && Reads(stream, "security", Text("reality"))
      && !RealityComplete(stream)
  }

  /** What a search goes into: all there is, all but "headers", or all that is still
      there when the search for insecure streams comes to it. */
  datatype Sight = All | NoHeaders | Undeleted(settled: bool)

  ghost predicate Unseen(sight: Sight, k: string) {
    match sight
    case All => false
    case NoHeaders => k == "headers"
    case Undeleted(settled) => settled && k == "allowInsecure"
  }

  ghost function Below(sight: Sight, t: map<string, Json>, k: string): Sight {
    if sight.Undeleted?
    then Undeleted(k == "tlsSettings" && "security" in t && t["security"] == Text("tls")) else sight
  }

  /** x is v, or somewhere in it. */
  ghost predicate Inside(sight: Sight, v: Json, x: Json)
    decreases v
  {
    || x == v
    || match v
       case Object(t) => exists k :: k in t && !Unseen(sight, k) && Inside(Below(sight, t, k), t[k], x)
       case Items(a) =>
         exists i :: 0 <= i < |a| && Inside(if sight.Undeleted? then Undeleted(false) else sight, a[i], x)
       case _ => false
  }

  ghost predicate Misspelled(o: Json) {
    exists t, k, g :: Inside(NoHeaders, o, Object(t)) && k in t && g in GUARDED && EqualFold(k, g) && k != g
  }

  ghost predicate SocketNames(t: map<string, Json>, socket: string) {
    && socket in t && t[socket].Object? && "dialerProxy" in t[socket].fields
    && t[socket].fields["dialerProxy"].Text? && t[socket].fields["dialerProxy"].s != ""
  }

  /** Some socket names an outbound to dial through. */
  ghost predicate DialsOn(o: Json) {
    exists t :: Inside(All, o, Object(t)) && (SocketNames(t, "sockopt") || SocketNames(t, "echSockopt"))
  }

  ghost predicate TrustsAnyone(t: map<string, Json>) {
    && "security" in t && t["security"] == Text("tls") && "tlsSettings" in t && t["tlsSettings"].Object?
    && var tls := t["tlsSettings"].fields;
       && "allowInsecure" in tls && tls["allowInsecure"] == Flag(true)
       && !("pinnedPeerCertSha256" in tls && tls["pinnedPeerCertSha256"].Text? && tls["pinnedPeerCertSha256"].s != "")
  }

  /** Some TLS stream takes any certificate. */
  ghost predicate AsksInsecure(o: Json) {
    exists t :: Inside(Undeleted(false), o, Object(t)) && TrustsAnyone(t)
  }

  // ---------------------------------------------------------------- what is answered

  ghost predicate IsConfig(raw: Json) {
    raw.Object? && "outbounds" in raw.fields && raw.fields["outbounds"].Items?
  }

  /** The outbound at i is no helper. */
  ghost predicate ProxyAt(raw: Json, i: nat) {
    IsConfig(raw) && i < |raw.fields["outbounds"].items|
    && var o := raw.fields["outbounds"].items[i];
       && o.Object? && "protocol" in o.fields && o.fields["protocol"].Text?
       && AsciiLower(o.fields["protocol"].s) !in {"freedom", "blackhole", "dns", "loopback"}
  }

  /** o is the config's one proxy outbound, its protocol lowercased. */
  ghost predicate OnlyProxy(raw: Json, o: Json) {
    exists i: nat :: ProxyAt(raw, i) && (forall j: nat | ProxyAt(raw, j) :: j == i)
      && var t := raw.fields["outbounds"].items[i].fields;
         o == Object(t["protocol" := Text(AsciiLower(t["protocol"].s))])
  }

  /** The answer to each config: the first test that fails says which. */
  ghost predicate Answers(raw: Json, targetOK: Json -> bool, r: Reply) {
    && (!IsConfig(raw) ==> r == Invalid)
    && (IsConfig(raw) && (forall i: nat :: !ProxyAt(raw, i)) ==> r == Unsupported)
    && ((exists i: nat, j: nat :: ProxyAt(raw, i) && ProxyAt(raw, j) && i != j) ==> r == Composite)
    && forall o | OnlyProxy(raw, o) :: AnswersOne(o, targetOK, r)
  }

  ghost predicate AnswersOne(o: Json, targetOK: Json -> bool, r: Reply) {
    var l := Lower(o);
    if Misspelled(o) then r == Invalid
    else if !SpeaksProxy(o) then r == Unsupported
    else if Hops(l) || DialsOn(l) || SeveralServers(l) then r == Composite
    else if FlatBeside(l) || !targetOK(l) then r == Invalid
    else if AsksInsecure(l) then r == Unsupported
    else if RealityLacks(l) then r == Invalid
    else r.Accepted?
  }

  /** What is stored, as Xray reads it: one proxy that goes to one server, through no
      other outbound, with all its reality stream needs, and without a tag or a
      source address. */
  ghost predicate GoesStraight(o: Json) {
    && SpeaksProxy(o) && !Hops(o) && !SeveralServers(o) && !FlatBeside(o) && !RealityLacks(o)
    && forall k | k in o.fields :: !EqualFold(k, "tag") && !EqualFold(k, "sendThrough")
  }

  // ---------------------------------------------------------------- xrayEntry

  const HELPERS: set<string> := {"freedom", "blackhole", "dns", "loopback"}
  const PROXIES: set<string> := {"vless", "vmess", "trojan", "shadowsocks", "hysteria"}

  datatype Reply = Accepted(outbound: Json) | Invalid | Unsupported | Composite

  function FieldsOf(t: map<string, Json>, key: string): map<string, Json> {
    if key in t && t[key].Object? then t[key].fields else map[]
  }

  function ItemsOf(t: map<string, Json>, key: string): seq<Json> {
    if key in t && t[key].Items? then t[key].items else []
  }

  predicate HasProtocol(o: Json) { o.Object? && "protocol" in o.fields && o.fields["protocol"].Text? }

  /** An outbound with its protocol lowercased. */
  function Lowered(o: Json): Json {
    if HasProtocol(o) then Object(o.fields["protocol" := Text(AsciiLower(o.fields["protocol"].s))]) else o
  }

  predicate IsProxy(o: Json) { HasProtocol(o) && AsciiLower(o.fields["protocol"].s) !in HELPERS }

  function ProxiesOf(outbounds: seq<Json>): seq<Json> {
    if |outbounds| == 0 then []
    else ProxiesOf(outbounds[..|outbounds| - 1]) +
         if IsProxy(outbounds[|outbounds| - 1]) then [Lowered(outbounds[|outbounds| - 1])] else []
  }

  lemma {:induction false} ProxiesAreObjects(outbounds: seq<Json>)
    ensures forall o | o in ProxiesOf(outbounds) :: HasProtocol(o)
  {
    if |outbounds| > 0 { ProxiesAreObjects(outbounds[..|outbounds| - 1]); }
  }

  /** Settings that name more than one target, or one beside a list of them. */
  predicate ManyTargets(settings: map<string, Json>) {
    |ItemsOf(settings, "vnext")| > 1 || |ItemsOf(settings, "servers")| > 1
  }

  predicate TwoAddresses(settings: map<string, Json>, protocol: string) {
    var list := if protocol == "vless" || protocol == "vmess" then "vnext"
                else if protocol == "trojan" || protocol == "shadowsocks" then "servers" else "";
    "address" in settings && settings["address"] != Null && list != "" && |ItemsOf(settings, list)| > 0
  }

  predicate RealityIncomplete(stream: map<string, Json>) {
    var reality := FieldsOf(stream, "realitySettings");
    && TextOf(stream, "security") == "reality"
    && (|| (TextOf(reality, "publicKey") == "" && TextOf(reality, "password") == "")
        || TextOf(reality, "serverName") == "" || TextOf(reality, "fingerprint") == "")
  }

  function Outbounds(raw: Json): seq<Json> {
    if raw.Object? then ItemsOf(raw.fields, "outbounds") else []
  }

  /** An outbound that goes through another one, or to several servers. */
  predicate Chained(lowered: map<string, Json>) {
    TextOf(FieldsOf(lowered, "proxySettings"), "tag") != "" || HasDialerProxy(Object(lowered))
    || ManyTargets(FieldsOf(lowered, "settings"))
  }

  predicate Addressed(lowered: map<string, Json>, protocol: string, targetOK: Json -> bool) {
    !TwoAddresses(FieldsOf(lowered, "settings"), protocol) && targetOK(Object(lowered))
  }

  /** What the importer takes: one proxy, with its keys spelled right, that goes to
      one server, through no other outbound, over TLS that checks who it talks to. */
  predicate Acceptable(raw: Json, targetOK: Json -> bool) {
    |ProxiesOf(Outbounds(raw))| == 1 && AcceptableProxy(ProxiesOf(Outbounds(raw))[0], targetOK)
  }

  predicate AcceptableProxy(ob: Json, targetOK: Json -> bool) {
    && ob.Object? && KeysClean(ob) && TextOf(ob.fields, "protocol") in PROXIES
    && Lower(ob).Object?
    && !Chained(Lower(ob).fields) && Addressed(Lower(ob).fields, TextOf(ob.fields, "protocol"), targetOK)
    && !Insecure(Lower(ob), false)
    && SanitizeTLS(Lower(ob)).Object?
    && !RealityIncomplete(FieldsOf(SanitizeTLS(Lower(ob)).fields, "streamSettings"))
  }

  // ---------------------------------------------------------------- keys spelled right are read as spelled

  lemma ReadsIs(t: map<string, Json>, name: string)
    requires name in LOOKED && forall k | k in t :: SpelledRight(k)
    ensures forall v :: Reads(t, name, v) <==> name in t && t[name] == v
    ensures HasWord(t, name) <==> TextOf(t, name) != ""
  {
    hide SpelledRight, EqualFold, LOOKED;
    OnlyItself(t, name);
    FoldsToItself(name);
    if TextOf(t, name) != "" { assert Reads(t, name, Text(t[name].s)); }
  }

  lemma OnlyItself(t: map<string, Json>, name: string)
    requires name in LOOKED && forall k | k in t :: SpelledRight(k)
    ensures forall k | k in t && EqualFold(k, name) :: k == name
  {
    hide SpelledRight, EqualFold, LOOKED;
    var j := LookedAreGuarded(name);
    forall k | k in t && EqualFold(k, name) ensures k == name { ExactIsFolded(k, j); }
  }

  lemma FoldsToItself(name: string)
    ensures EqualFold(name, name)
  {}

  lemma Looked()
    ensures "protocol" in LOOKED && "settings" in LOOKED && "vnext" in LOOKED && "servers" in LOOKED
            && "address" in LOOKED && "streamSettings" in LOOKED && "security" in LOOKED && "realitySettings" in LOOKED
    ensures "serverName" in LOOKED && "fingerprint" in LOOKED && "publicKey" in LOOKED && "password" in LOOKED
            && "proxySettings" in LOOKED && "tag" in LOOKED && "sendThrough" in LOOKED
  {}

  lemma SpelledIn(v: Json)
    requires v.Object? && Everywhere(KeysSpelled, v)
    ensures forall k | k in v.fields :: SpelledRight(k)
    ensures forall k | k in v.fields && k != "headers" :: Everywhere(KeysSpelled, v.fields[k])
  {
    hide SpelledRight;
  }

  /** The settings under a key, if they are there. */
  lemma SpelledUnder(v: Json, name: string)
    requires v.Object? && Everywhere(KeysSpelled, v) && name in LOOKED
    ensures Everywhere(KeysSpelled, Object(FieldsOf(v.fields, name)))
    ensures forall k | k in FieldsOf(v.fields, name) :: SpelledRight(k)
    ensures forall p :: Reads(v.fields, name, Object(p)) ==> p == FieldsOf(v.fields, name)
    ensures (exists p :: Reads(v.fields, name, Object(p))) || FieldsOf(v.fields, name) == map[]
  {
    hide SpelledRight, EqualFold, Everywhere, Reads;
    SpelledIn(v);
    ReadsIs(v.fields, name);
    NoKeys();
    assert name != "headers";
    if name in v.fields && v.fields[name].Object? {
      assert Reads(v.fields, name, Object(v.fields[name].fields));
    }
    SpelledIn(Object(FieldsOf(v.fields, name)));
  }

  lemma NoKeys()
    ensures Everywhere(KeysSpelled, Object(map[]))
  {}

  lemma SpeaksIs(o: Json)
    requires o.Object? && Everywhere(KeysSpelled, o)
    ensures SpeaksProxy(o) <==> TextOf(o.fields, "protocol") in PROXIES
  {
    hide SpelledRight, EqualFold, Everywhere, Reads, LOOKED;
    Looked();
    SpelledIn(o);
    ReadsIs(o.fields, "protocol");
  }

  lemma HopsIs(o: Json)
    requires o.Object? && Everywhere(KeysSpelled, o)
    ensures Hops(o) <==> TextOf(FieldsOf(o.fields, "proxySettings"), "tag") != ""
  {
    hide SpelledRight, EqualFold, Everywhere, Reads, LOOKED, HasWord;
    Looked();
    SpelledUnder(o, "proxySettings");
    ReadsIs(FieldsOf(o.fields, "proxySettings"), "tag");
  }

  lemma SeveralIs(o: Json)
    requires o.Object? && Everywhere(KeysSpelled, o)
    ensures SeveralServers(o) <==> ManyTargets(FieldsOf(o.fields, "settings"))
  {
    hide SpelledRight, EqualFold, Everywhere, Reads, LOOKED;
    Looked();
    SpelledUnder(o, "settings");
    var settings := FieldsOf(o.fields, "settings");
    ReadsIs(settings, "vnext");
    ReadsIs(settings, "servers");
    if ManyTargets(settings) {
      var name := if |ItemsOf(settings, "vnext")| > 1 then "vnext" else "servers";
      assert Reads(settings, name, Items(ItemsOf(settings, name)));
    }
  }

  lemma FlatIs(o: Json)
    requires o.Object? && Everywhere(KeysSpelled, o)
    ensures FlatBeside(o) <==> TwoAddresses(FieldsOf(o.fields, "settings"), TextOf(o.fields, "protocol"))
  {
    hide SpelledRight, EqualFold, Everywhere, Reads, LOOKED;
    Looked();
    SpelledIn(o);
    SpelledUnder(o, "settings");
    var settings, protocol := FieldsOf(o.fields, "settings"), TextOf(o.fields, "protocol");
    ReadsIs(o.fields, "protocol");
    ReadsIs(settings, "address");
    ReadsIs(settings, "vnext");
    ReadsIs(settings, "servers");
    if TwoAddresses(settings, protocol) {
      var name := if protocol == "vless" || protocol == "vmess" then "vnext" else "servers";
      assert Reads(settings, "address", settings["address"]) && Reads(o.fields, "protocol", Text(protocol));
      assert Reads(settings, name, Items(ItemsOf(settings, name)));
    }
  }

  lemma RealityIs(o: Json)
    requires o.Object? && Everywhere(KeysSpelled, o)
    ensures RealityLacks(o) <==> RealityIncomplete(FieldsOf(o.fields, "streamSettings"))
  {
    hide SpelledRight, EqualFold, Everywhere, Reads, LOOKED, RealityComplete;
    Looked();
    SpelledUnder(o, "streamSettings");
    var stream := FieldsOf(o.fields, "streamSettings");
    ReadsIs(stream, "security");
    CompleteIs(Object(stream));
  }

  lemma CompleteIs(stream: Json)
    requires stream.Object? && Everywhere(KeysSpelled, stream)
    ensures var r := FieldsOf(stream.fields, "realitySettings");
            RealityComplete(stream.fields) <==>
              (TextOf(r, "publicKey") != "" || TextOf(r, "password") != "")
              && TextOf(r, "serverName") != "" && TextOf(r, "fingerprint") != ""
  {
    hide SpelledRight, EqualFold, Everywhere, Reads, LOOKED, HasWord;
    Looked();
    SpelledUnder(stream, "realitySettings");
    var r := FieldsOf(stream.fields, "realitySettings");
    ReadsIs(r, "publicKey");
    ReadsIs(r, "password");
    ReadsIs(r, "serverName");
    ReadsIs(r, "fingerprint");
  }

  // ---------------------------------------------------------------- what the searches find

  lemma {:induction false} MisspelledIff(o: Json)
    ensures Misspelled(o) <==> !KeysClean(o)
  {
    hide SpelledRight, EqualFold, KeysClean, Inside, GUARDED;
    if Misspelled(o) {
      var t, k, g :| Inside(NoHeaders, o, Object(t)) && k in t && g in GUARDED && EqualFold(k, g) && k != g;
      SpelledIff(k);
      CleanInside(o, t, k);
    } else if !KeysClean(o) {
      var t, k := WrongKey(o);
      SpelledIff(k);
    }
  }

  lemma {:induction false} CleanInside(v: Json, t: map<string, Json>, k: string)
    requires Inside(NoHeaders, v, Object(t)) && k in t
    ensures KeysClean(v) ==> SpelledRight(k)
    decreases v
  {
    hide SpelledRight;
    if v != Object(t) {
      match v
      case Object(u) =>
        var j :| j in u && !Unseen(NoHeaders, j) && Inside(Below(NoHeaders, u, j), u[j], Object(t));
        CleanInside(u[j], t, k);
      case Items(a) =>
        var i :| 0 <= i < |a| && Inside(NoHeaders, a[i], Object(t));
        CleanInside(a[i], t, k);
      case _ =>
    }
  }

  lemma {:induction false} WrongKey(v: Json) returns (t: map<string, Json>, k: string)
    requires !KeysClean(v)
    ensures Inside(NoHeaders, v, Object(t)) && k in t && !SpelledRight(k)
    decreases v
  {
    hide SpelledRight;
    match v
    case Object(u) =>
      if j :| j in u && !SpelledRight(j) {
        t, k := u, j;
      } else {
        var j :| j in u && j != "headers" && !KeysClean(u[j]);
        t, k := WrongKey(u[j]);
        assert Inside(Below(NoHeaders, u, j), u[j], Object(t));
      }
    case Items(a) =>
      var i :| 0 <= i < |a| && !KeysClean(a[i]);
      t, k := WrongKey(a[i]);
    case _ =>
  }

  lemma {:induction false} DialsOnIff(o: Json)
    ensures DialsOn(o) <==> HasDialerProxy(o)
  {
    hide HasDialerProxy, Inside, SocketNames;
    if DialsOn(o) {
      var t :| Inside(All, o, Object(t)) && (SocketNames(t, "sockopt") || SocketNames(t, "echSockopt"));
      DialerInside(o, t);
    } else if HasDialerProxy(o) {
      var t := Dialer(o);
    }
  }

  lemma {:induction false} DialerInside(v: Json, t: map<string, Json>)
    requires Inside(All, v, Object(t)) && (SocketNames(t, "sockopt") || SocketNames(t, "echSockopt"))
    ensures HasDialerProxy(v)
    decreases v
  {
    if v != Object(t) {
      hide SocketNames, DialsThrough;
      match v
      case Object(u) =>
        var j :| j in u && !Unseen(All, j) && Inside(Below(All, u, j), u[j], Object(t));
        DialerInside(u[j], t);
      case Items(a) =>
        var i :| 0 <= i < |a| && Inside(All, a[i], Object(t));
        DialerInside(a[i], t);
      case _ =>
    }
  }

  lemma {:induction false} Dialer(v: Json) returns (t: map<string, Json>)
    requires HasDialerProxy(v)
    ensures Inside(All, v, Object(t)) && (SocketNames(t, "sockopt") || SocketNames(t, "echSockopt"))
    decreases v
  {
    match v
    case Object(u) =>
      if DialsThrough(u, "sockopt") || DialsThrough(u, "echSockopt") {
        t := u;
      } else {
        hide DialsThrough, SocketNames;
        var j :| j in u && HasDialerProxy(u[j]);
        t := Dialer(u[j]);
        assert Inside(Below(All, u, j), u[j], Object(t));
      }
    case Items(a) =>
      var i :| 0 <= i < |a| && HasDialerProxy(a[i]);
      t := Dialer(a[i]);
    case _ =>
  }

  lemma {:induction false} InsecureIff(o: Json)
    ensures AsksInsecure(o) <==> Insecure(o, false)
  {
    hide Insecure, Inside, TrustsAnyone;
    if AsksInsecure(o) {
      var t :| Inside(Undeleted(false), o, Object(t)) && TrustsAnyone(t);
      InsecureInside(o, false, t);
    } else if Insecure(o, false) {
      var t := InsecureStream(o, false);
    }
  }

  lemma {:induction false} InsecureInside(v: Json, settled: bool, t: map<string, Json>)
    requires Inside(Undeleted(settled), v, Object(t)) && TrustsAnyone(t)
    ensures Insecure(v, settled)
    decreases v
  {
    if v != Object(t) {
      hide TrustsAnyone, InsecureHere;
      match v
      case Object(u) =>
        var j :| j in u && !Unseen(Undeleted(settled), j)
                 && Inside(Below(Undeleted(settled), u, j), u[j], Object(t));
        InsecureInside(u[j], Settles(u, j), t);
      case Items(a) =>
        var i :| 0 <= i < |a| && Inside(Undeleted(false), a[i], Object(t));
        InsecureInside(a[i], false, t);
      case _ =>
    }
  }

  lemma {:induction false} InsecureStream(v: Json, settled: bool) returns (t: map<string, Json>)
    requires Insecure(v, settled)
    ensures Inside(Undeleted(settled), v, Object(t)) && TrustsAnyone(t)
    decreases v
  {
    match v
    case Object(u) =>
      if InsecureHere(u) {
        t := u;
      } else {
        hide TrustsAnyone, InsecureHere;
        var j :| j in u && !(settled && j == "allowInsecure") && Insecure(u[j], Settles(u, j));
        t := InsecureStream(u[j], Settles(u, j));
        assert Inside(Below(Undeleted(settled), u, j), u[j], Object(t));
      }
    case Items(a) =>
      var i :| 0 <= i < |a| && Insecure(a[i], false);
      t := InsecureStream(a[i], false);
    case _ =>
  }

  // ---------------------------------------------------------------- what the passes leave of it

  /** The passes after the names are lowered, where nothing is taken from the outbound itself. */
  function Through(v: Json): Json { DropKeyLog(Scrub(SanitizeTLS(v))) }

  /** A field the passes have nothing to do with goes through on its own. */
  lemma FieldGoes(v: Json, k: string)
    requires v.Object? && k in v.fields && k !in {"sockopt", "echSockopt", "tlsSettings"}
    ensures Through(v).Object? && k in Through(v).fields
    ensures Through(v).fields[k] == if k == "realitySettings" && Through(v.fields[k]).Object?
            then Object(Through(v.fields[k]).fields - {"masterKeyLog"}) else Through(v.fields[k])
    ensures SanitizeTLS(v).Object? && k in SanitizeTLS(v).fields && SanitizeTLS(v).fields[k] == SanitizeTLS(v.fields[k])
  {
    TLSGoes(v, k);
    ScrubGoes(SanitizeTLS(v), k);
    KeyLogGoes(Scrub(SanitizeTLS(v)), k);
  }

  lemma TLSGoes(v: Json, k: string)
    requires v.Object? && k in v.fields && k != "tlsSettings"
    ensures SanitizeTLS(v).Object? && k in SanitizeTLS(v).fields && SanitizeTLS(v).fields[k] == SanitizeTLS(v.fields[k])
  {}

  lemma ScrubGoes(v: Json, k: string)
    requires v.Object? && k in v.fields && k !in {"sockopt", "echSockopt"}
    ensures Scrub(v).Object? && k in Scrub(v).fields && Scrub(v).fields[k] == Scrub(v.fields[k])
  {}

  lemma KeyLogGoes(v: Json, k: string)
    requires v.Object? && k in v.fields && k != "tlsSettings"
    ensures DropKeyLog(v).Object? && k in DropKeyLog(v).fields
    ensures DropKeyLog(v).fields[k] == if k == "realitySettings" && DropKeyLog(v.fields[k]).Object?
            then Object(DropKeyLog(v.fields[k]).fields - {"masterKeyLog"}) else DropKeyLog(v.fields[k])
  {}

  /** No pass changes what a value is, nor a text, nor how long a list is. */
  lemma ThroughIs(v: Json)
    ensures Through(v).Object? <==> v.Object?
    ensures !v.Object? && !v.Items? ==> Through(v) == v
    ensures v.Items? ==> Through(v).Items? && |Through(v).items| == |v.items|
    ensures Through(v).Items? ==> v.Items?
    ensures v.Object? ==> SanitizeTLS(v).Object? && Through(v).fields.Keys <= v.fields.Keys
  {
    SanitizeShrinks(v);
    ScrubShrinks(SanitizeTLS(v));
    DropKeyLogShrinks(Scrub(SanitizeTLS(v)));
  }

  lemma TextGoes(v: Json, k: string)
    requires v.Object? && k !in {"sockopt", "echSockopt", "tlsSettings", "realitySettings"}
    ensures Through(v).Object? && TextOf(Through(v).fields, k) == TextOf(v.fields, k)
    ensures |ItemsOf(Through(v).fields, k)| == |ItemsOf(v.fields, k)|
    ensures k in v.fields <==> k in Through(v).fields
    ensures k in v.fields ==> (Through(v).fields[k] == Null <==> v.fields[k] == Null)
    ensures FieldsOf(Through(v).fields, k) ==
              if k in v.fields && v.fields[k].Object? then Through(v.fields[k]).fields else map[]
  {
    hide Through, Scrub, DropKeyLog, SanitizeTLS;
    ThroughIs(v);
    if k in v.fields {
      FieldGoes(v, k);
      ThroughIs(v.fields[k]);
    }
  }

  /** The same of the settings under a key. */
  lemma WordGoes(v: Json, k: string, name: string)
    requires v.Object? && k !in {"sockopt", "echSockopt", "tlsSettings", "realitySettings"}
    requires name !in {"sockopt", "echSockopt", "tlsSettings", "realitySettings"}
    ensures Through(v).Object?
    ensures var t, u := FieldsOf(v.fields, k), FieldsOf(Through(v).fields, k);
            && TextOf(u, name) == TextOf(t, name) && |ItemsOf(u, name)| == |ItemsOf(t, name)|
            && (name in t <==> name in u) && (name in t ==> (u[name] == Null <==> t[name] == Null))
  {
    hide Through;
    TextGoes(v, k);
    if k in v.fields && v.fields[k].Object? { TextGoes(v.fields[k], name); }
  }

  lemma RealityGoes(v: Json)
    requires v.Object?
    ensures Through(v).Object?
    ensures RealityIncomplete(FieldsOf(Through(v).fields, "streamSettings"))
            <==> RealityIncomplete(FieldsOf(v.fields, "streamSettings"))
  {
    hide Through, RealityIncomplete;
    TextGoes(v, "streamSettings");
    if "streamSettings" in v.fields && v.fields["streamSettings"].Object? {
      StreamGoes(v.fields["streamSettings"]);
    }
  }

  lemma StreamGoes(s: Json)
    requires s.Object?
    ensures Through(s).Object?
    ensures RealityIncomplete(Through(s).fields) <==> RealityIncomplete(s.fields)
  {
    hide Through;
    TextGoes(s, "security");
    ThroughIs(s);
    RealityTextGoes(s, "publicKey");
    RealityTextGoes(s, "password");
    RealityTextGoes(s, "serverName");
    RealityTextGoes(s, "fingerprint");
  }

  lemma RealityTextGoes(s: Json, name: string)
    requires s.Object? && name !in {"sockopt", "echSockopt", "tlsSettings", "realitySettings", "masterKeyLog"}
    ensures Through(s).Object?
    ensures TextOf(FieldsOf(Through(s).fields, "realitySettings"), name)
            == TextOf(FieldsOf(s.fields, "realitySettings"), name)
  {
    hide Through;
    ThroughIs(s);
    if "realitySettings" in s.fields {
      var r := s.fields["realitySettings"];
      FieldGoes(s, "realitySettings");
      ThroughIs(r);
      if r.Object? { TextGoes(r, name); }
    }
  }

  /** What is stored under a key other than the tag and the source address is what goes through. */
  lemma StoredField(ob: Json, k: string)
    requires ob.Object? && k in {"protocol", "settings", "streamSettings", "proxySettings"}
    ensures Lower(ob).Object? && Through(Lower(ob)).Object? && Stored(ob).Object?
    ensures var t, u := Through(Lower(ob)).fields, Stored(ob).fields;
            (k in t <==> k in u) && (k in t ==> t[k] == u[k])
  {
    hide Lower, SanitizeTLS, Scrub, DropKeyLog, Through;
    LoweredIs(ob);
    var l := Lower(ob);
    SecuredIs(l);
    SanitizeShrinks(l);
    ThroughIs(l);
    var v := Object(SanitizeTLS(l).fields - {"tag", "sendThrough"});
    CleanedIs(v);
    if k in l.fields {
      FieldGoes(l, k);
      CleanedField(v, k);
      ThroughSteps(l.fields[k]);
    }
  }

  lemma ThroughSteps(v: Json)
    ensures Through(v) == DropKeyLog(Scrub(SanitizeTLS(v)))
  {}

  lemma CleanedIs(v: Json)
    requires v.Object?
    ensures DropKeyLog(Scrub(v)).Object? && DropKeyLog(Scrub(v)).fields.Keys <= v.fields.Keys
  {
    hide Scrub, DropKeyLog;
    ScrubShrinks(v);
    DropKeyLogShrinks(Scrub(v));
  }

  lemma CleanedField(v: Json, k: string)
    requires v.Object? && k in v.fields && k !in {"sockopt", "echSockopt", "tlsSettings", "realitySettings"}
    ensures var w := DropKeyLog(Scrub(v));
            w.Object? && k in w.fields && w.fields[k] == DropKeyLog(Scrub(v.fields[k]))
  {
    hide Scrub, DropKeyLog;
    ScrubGoes(v, k);
    KeyLogGoes(Scrub(v), k);
  }

  lemma StoredGoes(ob: Json)
    requires ob.Object? && KeysClean(ob) && !HasDialerProxy(Lower(ob))
    ensures Lower(ob).Object? && Stored(ob).Object?
    ensures var l := Lower(ob);
            && (Hops(Stored(ob)) <==> Hops(l)) && (SeveralServers(Stored(ob)) <==> SeveralServers(l))
            && (FlatBeside(Stored(ob)) <==> FlatBeside(l)) && (RealityLacks(Stored(ob)) <==> RealityLacks(l))
            && (SpeaksProxy(Stored(ob)) <==> SpeaksProxy(l))
  {
    hide Lower, Stored, Through, KeysClean, HasDialerProxy, Hops, SeveralServers, FlatBeside, RealityLacks, SpeaksProxy,
      Everywhere, RealityIncomplete;
    LoweredIs(ob);
    var l, w := Lower(ob), Stored(ob);
    StoredField(ob, "protocol");
    StoredField(ob, "settings");
    StoredField(ob, "streamSettings");
    StoredField(ob, "proxySettings");
    LoweredSpelled(ob);
    StoredHolds(ob);
    assert Everywhere(KeysSpelled, w);
    HopsIs(l); HopsIs(w); SeveralIs(l); SeveralIs(w); FlatIs(l); FlatIs(w); RealityIs(l); RealityIs(w);
    SpeaksIs(l); SpeaksIs(w);
    TextGoes(l, "protocol");
    WordGoes(l, "proxySettings", "tag");
    WordGoes(l, "settings", "vnext");
    WordGoes(l, "settings", "servers");
    WordGoes(l, "settings", "address");
    RealityGoes(l);
  }

  lemma StoredUntagged(ob: Json)
    requires ob.Object? && KeysClean(ob) && !HasDialerProxy(Lower(ob))
    ensures Stored(ob).Object?
    ensures forall k | k in Stored(ob).fields :: !EqualFold(k, "tag") && !EqualFold(k, "sendThrough")
  {
    hide Lower, SanitizeTLS, Scrub, DropKeyLog, KeysClean, HasDialerProxy, EqualFold, SpelledRight, LOOKED, Everywhere;
    LoweredIs(ob);
    SecuredIs(Lower(ob));
    CleanedIs(Object(SanitizeTLS(Lower(ob)).fields - {"tag", "sendThrough"}));
    StoredHolds(ob);
    assert Everywhere(KeysSpelled, Stored(ob));
    SpelledIn(Stored(ob));
    Looked();
    OnlyItself(Stored(ob).fields, "tag");
    OnlyItself(Stored(ob).fields, "sendThrough");
  }

  lemma LoweredSpelled(ob: Json)
    requires KeysClean(ob)
    ensures Everywhere(KeysSpelled, ob) && Everywhere(KeysSpelled, Lower(ob))
  {
    hide KeysClean, Everywhere, Lower;
    CleanIsSpelled(ob);
    LowerKeepsKeys(ob);
  }

  // ---------------------------------------------------------------- xrayEntry

  /** Where the proxies are. */
  lemma {:induction false} ProxyPlaces(outbounds: seq<Json>) returns (places: seq<nat>)
    ensures |places| == |ProxiesOf(outbounds)|
    ensures forall m, n | 0 <= m < n < |places| :: places[m] < places[n]
    ensures forall i: nat :: i in places <==> i < |outbounds| && IsProxy(outbounds[i])
    ensures forall n | 0 <= n < |places| ::
              places[n] < |outbounds| && ProxiesOf(outbounds)[n] == Lowered(outbounds[places[n]])
  {
    hide IsProxy, Lowered;
    places := [];
    if |outbounds| > 0 {
      var n := |outbounds| - 1;
      places := ProxyPlaces(outbounds[..n]);
      forall m | 0 <= m < |places| ensures places[m] < n && outbounds[..n][places[m]] == outbounds[places[m]] {
        assert places[m] in places;
      }
      if IsProxy(outbounds[n]) { places := places + [n]; }
    }
  }

  lemma Counted(raw: Json)
    requires IsConfig(raw)
    ensures var proxies := ProxiesOf(Outbounds(raw));
            && (proxies == [] <==> forall i: nat :: !ProxyAt(raw, i))
            && (|proxies| > 1 <==> exists i: nat, j: nat :: ProxyAt(raw, i) && ProxyAt(raw, j) && i != j)
            && forall o | OnlyProxy(raw, o) :: |proxies| == 1 && o == proxies[0]
  {
    var outbounds := Outbounds(raw);
    var places := ProxyPlaces(outbounds);
    hide AsciiLower, ProxiesOf;
    forall i: nat ensures ProxyAt(raw, i) <==> i in places {}
    hide ProxyAt;
    if |places| > 0 { assert ProxyAt(raw, places[0]); }
    if |places| > 1 { assert ProxyAt(raw, places[1]); }
    if i: nat, j: nat :| ProxyAt(raw, i) && ProxyAt(raw, j) && i != j { assert i in places && j in places; }
    forall o | OnlyProxy(raw, o) ensures |places| == 1 && o == ProxiesOf(outbounds)[0] {
      var i: nat :| ProxyAt(raw, i) && forall j: nat | ProxyAt(raw, j) :: j == i;
      assert i in places;
    }
  }

  lemma NoConfig(raw: Json)
    requires !IsConfig(raw)
    ensures (forall i: nat :: !ProxyAt(raw, i)) && (forall o :: !OnlyProxy(raw, o)) && ProxiesOf(Outbounds(raw)) == []
  {}

  /** xrayEntry. Whether the outbound's target has an address and a port is a
      parameter. What is accepted is the config's one proxy outbound, after all
      passes; and what is stored is safe as Xray reads it. */
  method XrayEntry(raw: Json, targetOK: Json -> bool) returns (r: Reply)
    ensures Answers(raw, targetOK, r) && (r.Accepted? <==> Acceptable(raw, targetOK))
    ensures r.Accepted? ==>
              && (exists i: nat :: ProxyAt(raw, i) && forall j: nat | ProxyAt(raw, j) :: j == i)
              && GoesStraight(r.outbound)
              && FoldedEverywhere(NoRouting, r.outbound) && FoldedEverywhere(NoDialer, r.outbound)
              && FoldedEverywhere(NoKeyLog, r.outbound) && FoldedEverywhere(NoInsecure, r.outbound)
    ensures r.Accepted? ==> ProxiesOf(Outbounds(raw))[0].Object? && r.outbound == Stored(ProxiesOf(Outbounds(raw))[0])
  {
    hide FoldedEverywhere, AsciiLower, AcceptableProxy, AnswersOne, GoesStraight, Stored, ProxyAt, OnlyProxy;
    if !raw.Object? || "outbounds" !in raw.fields || !raw.fields["outbounds"].Items? {
      NoConfig(raw);
      return Invalid;
    }
    var outbounds := raw.fields["outbounds"].items;
    Counted(raw);
    var proxies: seq<Json> := [];
    for i := 0 to |outbounds|
      invariant proxies == ProxiesOf(outbounds[..i])
    {
      assert outbounds[..i + 1][..i] == outbounds[..i];
      var o := outbounds[i];
      if HasProtocol(o) {
        var protocol := AsciiLower(o.fields["protocol"].s);
        o := Object(o.fields["protocol" := Text(protocol)]);
        if protocol !in HELPERS {
          proxies := proxies + [o];
        }
      }
    }
    assert outbounds[..|outbounds|] == outbounds;
    if |proxies| == 0 { return Unsupported; }
    if |proxies| > 1 { return Composite; }
    ProxiesAreObjects(outbounds);
    assert proxies[0] in proxies;
    r := ProxyEntry(proxies[0], targetOK);
  }

  /** The part of xrayEntry about the proxy outbound. */
  method ProxyEntry(ob: Json, targetOK: Json -> bool) returns (r: Reply)
    requires ob.Object?
    ensures AnswersOne(ob, targetOK, r) && (r.Accepted? <==> AcceptableProxy(ob, targetOK))
    ensures r.Accepted? ==>
              && r.outbound == Stored(ob) && GoesStraight(r.outbound)
              && FoldedEverywhere(NoRouting, r.outbound) && FoldedEverywhere(NoDialer, r.outbound)
              && FoldedEverywhere(NoKeyLog, r.outbound) && FoldedEverywhere(NoInsecure, r.outbound)
  {
    hide KeysClean, HasDialerProxy, Insecure, Lower, SanitizeTLS, Scrub, DropKeyLog, FoldedEverywhere, AsciiLower,
      EqualFold, Misspelled, SpeaksProxy, Hops, DialsOn, SeveralServers, FlatBeside, AsksInsecure, RealityLacks,
      RealityIncomplete, ManyTargets, TwoAddresses, Everywhere;
    MisspelledIff(ob);
    var key, canonical := KeyCase(ob);
    if key != "" { return Invalid; }
    var l := LowerStreamNames(ob);
    LoweredIs(ob);
    LoweredSpelled(ob);
    Translates(ob);
    var protocol := TextOf(ob.fields, "protocol");
    if protocol !in PROXIES { return Unsupported; }
    if TextOf(FieldsOf(l.fields, "proxySettings"), "tag") != "" { return Composite; }
    var chained := FindDialerProxy(l);
    if chained { return Composite; }
    var settings := FieldsOf(l.fields, "settings");
    if ManyTargets(settings) { return Composite; }
    if TwoAddresses(settings, protocol) { return Invalid; }
    if !targetOK(l) { return Invalid; }
    var insecure := FindInsecure(l, false);
    if insecure { return Unsupported; }
    var secured := RunPass(TLSPass, l);
    SecuredIs(l);
    if RealityIncomplete(FieldsOf(secured.fields, "streamSettings")) { return Invalid; }
    var untagged := Object(secured.fields - {"tag", "sendThrough"});
    var scrubbed := RunPass(ScrubPass, untagged);
    var stored := RunPass(KeyLogPass, scrubbed);
    StoredIsSafe(ob);
    StoredGoes(ob);
    StoredUntagged(ob);
    r := Accepted(stored);
  }

  /** The tests as the code makes them, and what they ask. */
  lemma Translates(ob: Json)
    requires ob.Object? && Everywhere(KeysSpelled, ob) && Everywhere(KeysSpelled, Lower(ob)) && Lower(ob).Object?
    ensures var l := Lower(ob);
            && (SpeaksProxy(ob) <==> TextOf(ob.fields, "protocol") in PROXIES)
            && (SpeaksProxy(l) <==> SpeaksProxy(ob))
            && (Hops(l) <==> TextOf(FieldsOf(l.fields, "proxySettings"), "tag") != "")
            && (DialsOn(l) <==> HasDialerProxy(l))
            && (SeveralServers(l) <==> ManyTargets(FieldsOf(l.fields, "settings")))
            && (FlatBeside(l) <==> TwoAddresses(FieldsOf(l.fields, "settings"), TextOf(ob.fields, "protocol")))
            && (AsksInsecure(l) <==> Insecure(l, false))
            && SanitizeTLS(l).Object?
            && (RealityLacks(l) <==> RealityIncomplete(FieldsOf(SanitizeTLS(l).fields, "streamSettings")))
  {
    hide Lower, SanitizeTLS, Everywhere, SpeaksProxy, Hops, DialsOn, HasDialerProxy, SeveralServers, ManyTargets,
      FlatBeside, TwoAddresses, AsksInsecure, Insecure, RealityLacks, RealityIncomplete;
    var l := Lower(ob);
    SecuredIs(l);
    SameProtocol(ob);
    SpeaksIs(ob);
    SpeaksIs(l);
    HopsIs(l);
    DialsOnIff(l);
    SeveralIs(l);
    FlatIs(l);
    InsecureIff(l);
    RealityIs(l);
    SecuredReality(l);
  }

  lemma SameProtocol(ob: Json)
    requires ob.Object? && Lower(ob).Object?
    ensures TextOf(Lower(ob).fields, "protocol") == TextOf(ob.fields, "protocol")
  {}

  lemma SecuredReality(v: Json)
    requires v.Object?
    ensures SanitizeTLS(v).Object?
    ensures RealityIncomplete(FieldsOf(SanitizeTLS(v).fields, "streamSettings"))
            <==> RealityIncomplete(FieldsOf(v.fields, "streamSettings"))
  {
    hide SanitizeTLS, RealityIncomplete;
    SecuredIs(v);
    SecuredKind(v, "streamSettings");
    if "streamSettings" in v.fields && v.fields["streamSettings"].Object? { SecuredStream(v.fields["streamSettings"]); }
  }

  lemma SecuredStream(s: Json)
    requires s.Object?
    ensures SanitizeTLS(s).Object?
    ensures RealityIncomplete(SanitizeTLS(s).fields) <==> RealityIncomplete(s.fields)
  {
    hide SanitizeTLS;
    SecuredIs(s);
    SecuredKind(s, "security");
    SecuredKind(s, "realitySettings");
    if "realitySettings" in s.fields && s.fields["realitySettings"].Object? {
      var r := s.fields["realitySettings"];
      SecuredIs(r);
      SecuredKind(r, "publicKey");
      SecuredKind(r, "password");
      SecuredKind(r, "serverName");
      SecuredKind(r, "fingerprint");
    }
  }

  lemma SecuredKind(v: Json, k: string)
    requires v.Object? && SanitizeTLS(v).Object? && k != "tlsSettings"
    ensures TextOf(SanitizeTLS(v).fields, k) == TextOf(v.fields, k)
    ensures FieldsOf(SanitizeTLS(v).fields, k) ==
              if k in v.fields && v.fields[k].Object? && SanitizeTLS(v.fields[k]).Object?
              then SanitizeTLS(v.fields[k]).fields else map[]
  {
    hide SanitizeTLS;
    SanitizeShrinks(v);
    if k in v.fields {
      TLSGoes(v, k);
      SanitizeShrinks(v.fields[k]);
    }
  }
}
