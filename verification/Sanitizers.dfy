/** The passes over a subscription's JSON. */
module Sanitizers {
  // They keep an Xray outbound from routing around the router's own rules, in the
  // order the importer runs them; and what the outbound it stores can no longer hold.

  import opened FoldedNames
  import opened Sets

  datatype Json =
    | Null
    | Flag(b: bool)
    | Number(literal: string)
    | Text(s: string)
    | Items(items: seq<Json>)
    | Object(fields: map<string, Json>)

  const ROUTING: set<string> := {"mark", "interface", "tproxy", "customSockopt"}

  function LowerChar(c: char): char { if 'A' <= c <= 'Z' then (c as int + 32) as char else c }

  function AsciiLower(s: string): string { seq(|s|, i requires 0 <= i < |s| => LowerChar(s[i])) }

  lemma LowerTwice(s: string)
    ensures AsciiLower(AsciiLower(s)) == AsciiLower(s)
  {}

  // ---------------------------------------------------------------- the passes

  /** lowerStreamNames. */
  function Lower(v: Json): Json {
    match v
    case Object(t) =>
      Object(map k | k in t ::
        if k == "headers" then t[k]
        else if t[k].Text? && (k == "security" || k == "network") then Text(AsciiLower(t[k].s))
        else Lower(t[k]))
    case Items(a) => Items(seq(|a|, i requires 0 <= i < |a| => Lower(a[i])))
    case _ => v
  }

  function ScrubSocket(t: map<string, Json>, key: string): map<string, Json> {
    if key in t && t[key].Object? then
      var socket := t[key].fields - ROUTING;
      if socket == map[] then t - {key} else t[key := Object(socket)]
    else t
  }

  /** scrubSockopt: children first, so a socket its own pass left empty goes too. */
  function Scrub(v: Json): Json {
    match v
    case Object(t) => Object(ScrubSocket(ScrubSocket(map k | k in t :: Scrub(t[k]), "sockopt"), "echSockopt"))
    case Items(a) => Items(seq(|a|, i requires 0 <= i < |a| => Scrub(a[i])))
    case _ => v
  }

  function Drop(t: map<string, Json>, key: string, name: string): map<string, Json> {
    if key in t && t[key].Object? then t[key := Object(t[key].fields - {name})] else t
  }

  /** dropKeyLog. */
  function DropKeyLog(v: Json): Json {
    match v
    case Object(t) =>
      var u: map<string, Json> := map k | k in t :: DropKeyLog(t[k]);
      Object(Drop(Drop(u, "tlsSettings", "masterKeyLog"), "realitySettings", "masterKeyLog"))
    case Items(a) => Items(seq(|a|, i requires 0 <= i < |a| => DropKeyLog(a[i])))
    case _ => v
  }

  predicate IsTLS(t: map<string, Json>) { "security" in t && t["security"] == Text("tls") }

  /** sanitizeTLS, as it changes the value. */
  function SanitizeTLS(v: Json): Json {
    match v
    case Object(t) =>
      var u: map<string, Json> := map k | k in t :: SanitizeTLS(t[k]);
      Object(if IsTLS(t) then Drop(u, "tlsSettings", "allowInsecure") else u)
    case Items(a) => Items(seq(|a|, i requires 0 <= i < |a| => SanitizeTLS(a[i])))
    case _ => v
  }

  function TextOf(t: map<string, Json>, key: string): string {
    if key in t && t[key].Text? then t[key].s else ""
  }

  predicate InsecureHere(t: map<string, Json>) {
    && IsTLS(t) && "tlsSettings" in t && t["tlsSettings"].Object?
    && var tls := t["tlsSettings"].fields;
       "allowInsecure" in tls && tls["allowInsecure"] == Flag(true) && TextOf(tls, "pinnedPeerCertSha256") == ""
  }

  /** What sanitizeTLS reports. Of a tls stream's settings it no longer sees the
      allowInsecure it has deleted: `settled` says that v is such settings. */
  predicate Insecure(v: Json, settled: bool) {
    match v
    case Object(t) =>
      InsecureHere(t) || exists k :: k in t && !(settled && k == "allowInsecure") && Insecure(t[k], Settles(t, k))
    case Items(a) => exists i :: 0 <= i < |a| && Insecure(a[i], false)
    case _ => false
  }

  predicate Settles(t: map<string, Json>, k: string) { k == "tlsSettings" && IsTLS(t) }

  predicate DialsThrough(t: map<string, Json>, key: string) {
    key in t && t[key].Object? && TextOf(t[key].fields, "dialerProxy") != ""
  }

  /** hasDialerProxy. */
  predicate HasDialerProxy(v: Json) {
    match v
    case Object(t) =>
      DialsThrough(t, "sockopt") || DialsThrough(t, "echSockopt") || exists k :: k in t && HasDialerProxy(t[k])
    case Items(a) => exists i :: 0 <= i < |a| && HasDialerProxy(a[i])
    case _ => false
  }

  /** miscased finds nothing. */
  predicate KeysClean(v: Json) {
    match v
    case Object(t) => forall k | k in t :: SpelledRight(k) && (k == "headers" || KeysClean(t[k]))
    case Items(a) => forall i | 0 <= i < |a| :: KeysClean(a[i])
    case _ => true
  }

  // ---------------------------------------------------------------- what passes establish

  /** What an object can be required to be, with keys as they are spelled. */
  datatype Law = KeysSpelled | NoRouting | NoDialer | NoKeyLog | NoInsecure | NamesLowered

  predicate Holds(law: Law, t: map<string, Json>) {
    match law
    case KeysSpelled => forall k | k in t :: SpelledRight(k)
    case NoRouting => Unrouted(t, "sockopt") && Unrouted(t, "echSockopt")
    case NoDialer => !DialsThrough(t, "sockopt") && !DialsThrough(t, "echSockopt")
    case NoKeyLog => Lacks(t, "tlsSettings", "masterKeyLog") && Lacks(t, "realitySettings", "masterKeyLog")
    case NoInsecure => IsTLS(t) ==> Lacks(t, "tlsSettings", "allowInsecure")
    case NamesLowered => LowerText(t, "security") && LowerText(t, "network")
  }

  predicate Unrouted(t: map<string, Json>, key: string) {
    key in t && t[key].Object? ==> t[key].fields.Keys !! ROUTING
  }

  predicate Lacks(t: map<string, Json>, key: string, name: string) {
    key in t && t[key].Object? ==> name !in t[key].fields
  }

  predicate LowerText(t: map<string, Json>, key: string) {
    key in t && t[key].Text? ==> AsciiLower(t[key].s) == t[key].s
  }

  /** The law holds of every object, however deep, outside "headers" objects. */
  ghost predicate Everywhere(law: Law, v: Json) {
    match v
    case Object(t) => Holds(law, t) && forall k | k in t && k != "headers" :: Everywhere(law, t[k])
    case Items(a) => forall i | 0 <= i < |a| :: Everywhere(law, a[i])
    case _ => true
  }

  /** b is a without some of its keys, at any depth. */
  ghost predicate Shrinks(a: Json, b: Json) {
    match a
    case Object(t) => b.Object? && b.fields.Keys <= t.Keys && forall k | k in b.fields :: Shrinks(t[k], b.fields[k])
    case Items(x) => b.Items? && |b.items| == |x| && forall i | 0 <= i < |x| :: Shrinks(x[i], b.items[i])
    case _ => b == a
  }

  lemma {:induction false} ShrinksItself(v: Json)
    ensures Shrinks(v, v)
  {
    match v
    case Object(t) => forall k | k in t ensures Shrinks(t[k], t[k]) { ShrinksItself(t[k]); }
    case Items(a) => forall i | 0 <= i < |a| ensures Shrinks(a[i], a[i]) { ShrinksItself(a[i]); }
    case _ =>
  }

  /** A law that holds everywhere survives every pass that only deletes keys. */
  lemma {:induction false} ShrinkKeeps(law: Law, a: Json, b: Json)
    requires Shrinks(a, b) && Everywhere(law, a)
    ensures Everywhere(law, b)
  {
    match a
    case Object(t) =>
      HoldsOfLess(law, t, b.fields);
      forall k | k in b.fields && k != "headers" ensures Everywhere(law, b.fields[k]) {
        ShrinkKeeps(law, t[k], b.fields[k]);
      }
    case Items(x) =>
      forall i | 0 <= i < |x| ensures Everywhere(law, b.items[i]) { ShrinkKeeps(law, x[i], b.items[i]); }
    case _ =>
  }

  lemma HoldsOfLess(law: Law, t: map<string, Json>, u: map<string, Json>)
    requires u.Keys <= t.Keys && (forall k | k in u :: Shrinks(t[k], u[k])) && Holds(law, t)
    ensures Holds(law, u)
  {
    hide AsciiLower, SpelledRight;
    forall k | k in u
      ensures (u[k].Object? <==> t[k].Object?) && (u[k].Text? <==> t[k].Text?) && (u[k].Text? ==> u[k] == t[k])
      ensures u[k].Object? ==> u[k].fields.Keys <= t[k].fields.Keys
      ensures u[k].Object? ==>
                || TextOf(u[k].fields, "dialerProxy") == ""
                || TextOf(u[k].fields, "dialerProxy") == TextOf(t[k].fields, "dialerProxy")
    {
      ShrunkText(t[k], u[k], "dialerProxy");
    }
  }

  lemma ShrunkText(a: Json, b: Json, key: string)
    requires Shrinks(a, b)
    ensures a.Object? <==> b.Object?
    ensures a.Text? <==> b.Text?
    ensures a.Text? ==> a == b
    ensures a.Object? ==> b.fields.Keys <= a.fields.Keys
    ensures a.Object? ==> TextOf(b.fields, key) == "" || TextOf(b.fields, key) == TextOf(a.fields, key)
  {}

  // ---------------------------------------------------------------- passes only delete

  lemma {:induction false} ScrubShrinks(v: Json)
    ensures Shrinks(v, Scrub(v))
  {
    match v
    case Object(t) =>
      var u: map<string, Json> := map k | k in t :: Scrub(t[k]);
      forall k | k in t ensures Shrinks(t[k], u[k]) { ScrubShrinks(t[k]); }
      SocketShrinks(t, u, "sockopt");
      SocketShrinks(t, ScrubSocket(u, "sockopt"), "echSockopt");
    case Items(a) => forall i | 0 <= i < |a| ensures Shrinks(a[i], Scrub(a[i])) { ScrubShrinks(a[i]); }
    case _ =>
  }

  lemma SocketShrinks(t: map<string, Json>, u: map<string, Json>, key: string)
    requires u.Keys <= t.Keys && forall k | k in u :: Shrinks(t[k], u[k])
    ensures var w := ScrubSocket(u, key); w.Keys <= t.Keys && forall k | k in w :: Shrinks(t[k], w[k])
  {
    if key in u && u[key].Object? { FewerKeys(t[key], u[key], u[key].fields - ROUTING); }
  }

  lemma FewerKeys(a: Json, b: Json, fields: map<string, Json>)
    requires Shrinks(a, b) && b.Object? && fields.Keys <= b.fields.Keys
             && forall k | k in fields :: fields[k] == b.fields[k]
    ensures Shrinks(a, Object(fields))
  {}

  lemma DropShrinks(t: map<string, Json>, u: map<string, Json>, key: string, name: string)
    requires u.Keys <= t.Keys && forall k | k in u :: Shrinks(t[k], u[k])
    ensures var w := Drop(u, key, name); w.Keys <= t.Keys && forall k | k in w :: Shrinks(t[k], w[k])
  {
    if key in u && u[key].Object? { FewerKeys(t[key], u[key], u[key].fields - {name}); }
  }

  lemma {:induction false} DropKeyLogShrinks(v: Json)
    ensures Shrinks(v, DropKeyLog(v))
  {
    match v
    case Object(t) =>
      var u: map<string, Json> := map k | k in t :: DropKeyLog(t[k]);
      forall k | k in t ensures Shrinks(t[k], u[k]) { DropKeyLogShrinks(t[k]); }
      DropShrinks(t, u, "tlsSettings", "masterKeyLog");
      DropShrinks(t, Drop(u, "tlsSettings", "masterKeyLog"), "realitySettings", "masterKeyLog");
    case Items(a) => forall i | 0 <= i < |a| ensures Shrinks(a[i], DropKeyLog(a[i])) { DropKeyLogShrinks(a[i]); }
    case _ =>
  }

  lemma {:induction false} SanitizeShrinks(v: Json)
    ensures Shrinks(v, SanitizeTLS(v))
  {
    match v
    case Object(t) =>
      var u: map<string, Json> := map k | k in t :: SanitizeTLS(t[k]);
      forall k | k in t ensures Shrinks(t[k], u[k]) { SanitizeShrinks(t[k]); }
      DropShrinks(t, u, "tlsSettings", "allowInsecure");
    case Items(a) => forall i | 0 <= i < |a| ensures Shrinks(a[i], SanitizeTLS(a[i])) { SanitizeShrinks(a[i]); }
    case _ =>
  }

  // ---------------------------------------------------------------- passes establish their law

  /** An object, all of whose children the law holds of, and itself. */
  lemma {:induction false} ScrubUnroutes(v: Json)
    ensures Everywhere(NoRouting, Scrub(v))
  {
    match v
    case Object(t) =>
      var u: map<string, Json> := map k | k in t :: Scrub(t[k]);
      forall k | k in u ensures Everywhere(NoRouting, u[k]) { ScrubUnroutes(t[k]); }
      SocketUnroutes(u, "sockopt");
      SocketUnroutes(ScrubSocket(u, "sockopt"), "echSockopt");
    case Items(a) => forall i | 0 <= i < |a| ensures Everywhere(NoRouting, Scrub(a[i])) { ScrubUnroutes(a[i]); }
    case _ =>
  }

  lemma SocketUnroutes(u: map<string, Json>, key: string)
    requires forall k | k in u :: Everywhere(NoRouting, u[k])
    ensures var w := ScrubSocket(u, key);
            && (forall k | k in w :: Everywhere(NoRouting, w[k])) && Unrouted(w, key)
            && forall other | other != key && Unrouted(u, other) :: Unrouted(w, other)
  {
    if key in u && u[key].Object? { LessKeeps(NoRouting, u[key], u[key].fields - ROUTING); }
  }

  lemma LessKeeps(law: Law, v: Json, fields: map<string, Json>)
    requires Everywhere(law, v) && v.Object?
    requires fields.Keys <= v.fields.Keys && forall k | k in fields :: fields[k] == v.fields[k]
    ensures Everywhere(law, Object(fields))
  {
    hide Everywhere;
    ShrinksItself(v);
    FewerKeys(v, v, fields);
    ShrinkKeeps(law, v, Object(fields));
  }

  lemma {:induction false} DropKeyLogDrops(v: Json)
    ensures Everywhere(NoKeyLog, DropKeyLog(v))
  {
    match v
    case Object(t) =>
      var u: map<string, Json> := map k | k in t :: DropKeyLog(t[k]);
      forall k | k in u ensures Everywhere(NoKeyLog, u[k]) { DropKeyLogDrops(t[k]); }
      DropLacks(NoKeyLog, u, "tlsSettings", "masterKeyLog");
      DropLacks(NoKeyLog, Drop(u, "tlsSettings", "masterKeyLog"), "realitySettings", "masterKeyLog");
    case Items(a) => forall i | 0 <= i < |a| ensures Everywhere(NoKeyLog, DropKeyLog(a[i])) { DropKeyLogDrops(a[i]); }
    case _ =>
  }

  lemma DropLacks(law: Law, u: map<string, Json>, key: string, name: string)
    requires forall k | k in u :: Everywhere(law, u[k])
    ensures var w := Drop(u, key, name);
            && w.Keys == u.Keys && (forall k | k in w :: Everywhere(law, w[k])) && Lacks(w, key, name)
            && (forall k | k in u && k != key :: w[k] == u[k])
  {
    if key in u && u[key].Object? { LessKeeps(law, u[key], u[key].fields - {name}); }
  }

  lemma {:induction false} SanitizeSecures(v: Json)
    ensures Everywhere(NoInsecure, SanitizeTLS(v))
  {
    match v
    case Object(t) =>
      var u: map<string, Json> := map k | k in t :: SanitizeTLS(t[k]);
      forall k | k in u ensures Everywhere(NoInsecure, u[k]) { SanitizeSecures(t[k]); }
      DropLacks(NoInsecure, u, "tlsSettings", "allowInsecure");
      if "security" in t { TextsStay(t["security"]); }
    case Items(a) => forall i | 0 <= i < |a| ensures Everywhere(NoInsecure, SanitizeTLS(a[i]))
      {
        SanitizeSecures(a[i]);
      }
    case _ =>
  }

  lemma TextsStay(v: Json)
    ensures SanitizeTLS(v) == Text("tls") <==> v == Text("tls")
  {}

  lemma {:induction false} LowerLowers(v: Json)
    ensures Everywhere(NamesLowered, Lower(v))
  {
    match v
    case Object(t) =>
      var u := Lower(v).fields;
      forall k | k in u && k != "headers" ensures Everywhere(NamesLowered, u[k]) { LowerLowers(t[k]); }
      forall k | k in {"security", "network"} ensures LowerText(u, k) {
        if k in t && t[k].Text? { LowerTwice(t[k].s); } else if k in t { LoweredText(t[k]); }
      }
    case Items(a) => forall i | 0 <= i < |a| ensures Everywhere(NamesLowered, Lower(a[i])) { LowerLowers(a[i]); }
    case _ =>
  }

  lemma LoweredText(v: Json)
    ensures Lower(v).Text? <==> v.Text?
  {}

  lemma {:induction false} LowerKeepsKeys(v: Json)
    requires Everywhere(KeysSpelled, v)
    ensures Everywhere(KeysSpelled, Lower(v))
  {
    match v
    case Object(t) =>
      var u := Lower(v).fields;
      assert u.Keys == t.Keys;
      forall k | k in u && k != "headers" ensures Everywhere(KeysSpelled, u[k]) { LowerKeepsKeys(t[k]); }
    case Items(a) => forall i | 0 <= i < |a| ensures Everywhere(KeysSpelled, Lower(a[i])) { LowerKeepsKeys(a[i]); }
    case _ =>
  }

  lemma {:induction false} CleanIsSpelled(v: Json)
    ensures KeysClean(v) <==> Everywhere(KeysSpelled, v)
  {
    match v
    case Object(t) => forall k | k in t ensures KeysClean(t[k]) <==> Everywhere(KeysSpelled, t[k])
      {
        CleanIsSpelled(t[k]);
      }
    case Items(a) => forall i | 0 <= i < |a| ensures KeysClean(a[i]) <==> Everywhere(KeysSpelled, a[i])
      {
        CleanIsSpelled(a[i]);
      }
    case _ =>
  }

  lemma {:induction false} NoProxyEverywhere(v: Json)
    requires !HasDialerProxy(v)
    ensures Everywhere(NoDialer, v)
  {
    match v
    case Object(t) => forall k | k in t ensures Everywhere(NoDialer, t[k]) { NoProxyEverywhere(t[k]); }
    case Items(a) => forall i | 0 <= i < |a| ensures Everywhere(NoDialer, a[i]) { NoProxyEverywhere(a[i]); }
    case _ =>
  }

  // ---------------------------------------------------------------- scrubbing twice

  /** What scrubbing leaves: no socket with a routing key, and none empty. */
  ghost predicate Scrubbed(v: Json) {
    match v
    case Object(t) =>
      && (forall k | k in t :: Scrubbed(t[k]))
      && SocketDone(t, "sockopt") && SocketDone(t, "echSockopt")
    case Items(a) => forall i | 0 <= i < |a| :: Scrubbed(a[i])
    case _ => true
  }

  predicate SocketDone(t: map<string, Json>, key: string) {
    key in t && t[key].Object? ==> t[key].fields.Keys !! ROUTING && t[key].fields != map[]
  }

  lemma {:induction false} ScrubDone(v: Json)
    ensures Scrubbed(Scrub(v))
  {
    match v
    case Object(t) =>
      var u: map<string, Json> := map k | k in t :: Scrub(t[k]);
      forall k | k in u ensures Scrubbed(u[k]) { ScrubDone(t[k]); }
      SocketScrubs(u, "sockopt");
      SocketScrubs(ScrubSocket(u, "sockopt"), "echSockopt");
    case Items(a) => forall i | 0 <= i < |a| ensures Scrubbed(Scrub(a[i])) { ScrubDone(a[i]); }
    case _ =>
  }

  lemma SocketScrubs(u: map<string, Json>, key: string)
    requires key == "sockopt" || key == "echSockopt"
    requires forall k | k in u :: Scrubbed(u[k])
    ensures var w := ScrubSocket(u, key);
            && (forall k | k in w :: Scrubbed(w[k])) && SocketDone(w, key)
            && forall other | other != key && SocketDone(u, other) :: SocketDone(w, other)
  {
    if key in u && u[key].Object? {
      var f := u[key].fields;
      assert forall k | k in f - ROUTING :: (f - ROUTING)[k] == f[k];
      assert Scrubbed(Object(f - ROUTING));
    }
  }

  lemma {:induction false} ScrubbedStays(v: Json)
    requires Scrubbed(v)
    ensures Scrub(v) == v
  {
    match v
    case Object(t) =>
      var u: map<string, Json> := map k | k in t :: Scrub(t[k]);
      forall k | k in t ensures u[k] == t[k] { ScrubbedStays(t[k]); }
      assert u == t;
      SocketStays(t, "sockopt");
      SocketStays(t, "echSockopt");
    case Items(a) =>
      forall i | 0 <= i < |a| ensures Scrub(a[i]) == a[i] { ScrubbedStays(a[i]); }
      assert seq(|a|, i requires 0 <= i < |a| => Scrub(a[i])) == a;
    case _ =>
  }

  lemma SocketStays(t: map<string, Json>, key: string)
    requires SocketDone(t, key)
    ensures ScrubSocket(t, key) == t
  {
    if key in t && t[key].Object? {
      assert t[key].fields - ROUTING == t[key].fields;
      assert t[key := Object(t[key].fields)] == t;
    }
  }

  /** scrubSockopt is idempotent. */
  lemma ScrubTwice(v: Json)
    ensures Scrub(Scrub(v)) == Scrub(v)
  {
    ScrubDone(v);
    ScrubbedStays(Scrub(v));
  }

  // ---------------------------------------------------------------- what Xray reads

  /** The laws under the reading Xray gives a key: as every name it folds to. */
  ghost predicate FoldedHolds(law: Law, t: map<string, Json>) {
    match law
    case NoRouting => forall k, j, g | k in t && t[k].Object? && (EqualFold(k, "sockopt") || EqualFold(k, "echSockopt"))
                                       && j in t[k].fields && g in ROUTING :: !EqualFold(j, g)
    case NoDialer => forall k, j | k in t && t[k].Object? && (EqualFold(k, "sockopt") || EqualFold(k, "echSockopt"))
                                   && j in t[k].fields && EqualFold(j, "dialerProxy") ::
                       !t[k].fields[j].Text? || t[k].fields[j].s == ""
    case NoKeyLog => forall k, j | k in t && t[k].Object?
        && (EqualFold(k, "tlsSettings") || EqualFold(k, "realitySettings"))
                                   && j in t[k].fields :: !EqualFold(j, "masterKeyLog")
    case NoInsecure => forall q, k, j | q in t && EqualFold(q, "security") && t[q].Text? && AsciiLower(t[q].s) == "tls"
                                        && k in t && t[k].Object? && EqualFold(k, "tlsSettings") && j in t[k].fields ::
                         !EqualFold(j, "allowInsecure")
    case _ => true
  }

  ghost predicate FoldedEverywhere(law: Law, v: Json) {
    match v
    case Object(t) => FoldedHolds(law, t) && forall k | k in t && k != "headers" :: FoldedEverywhere(law, t[k])
    case Items(a) => forall i | 0 <= i < |a| :: FoldedEverywhere(law, a[i])
    case _ => true
  }

  /** The names that are looked up are looked up right. */
  lemma SpelledLookup(k: string)
    requires SpelledRight(k)
    ensures EqualFold(k, "sockopt") ==> k == "sockopt"
    ensures EqualFold(k, "echSockopt") ==> k == "echSockopt"
    ensures forall g | g in ROUTING :: EqualFold(k, g) ==> k == g
    ensures EqualFold(k, "dialerProxy") ==> k == "dialerProxy"
    ensures EqualFold(k, "tlsSettings") ==> k == "tlsSettings"
    ensures EqualFold(k, "realitySettings") ==> k == "realitySettings"
    ensures EqualFold(k, "masterKeyLog") ==> k == "masterKeyLog"
    ensures EqualFold(k, "allowInsecure") ==> k == "allowInsecure"
    ensures EqualFold(k, "security") ==> k == "security"
    ensures k == "sockopt" || k == "echSockopt" || k == "tlsSettings" || k == "realitySettings" ==> k != "headers"
  {
    hide SpelledRight, EqualFold;
    LookedUp(k);
  }

  /** In one object: what holds of the keys as spelled holds of them as Xray reads
      them, since all of them are spelled right, the socket's and the TLS
      settings' own keys included. */
  lemma ExactHolds(law: Law, t: map<string, Json>)
    requires law == NoRouting || law == NoDialer || law == NoKeyLog || law == NoInsecure
    requires Holds(law, t) && Holds(KeysSpelled, t) && Holds(NamesLowered, t)
    requires forall k | k in t && k != "headers" && t[k].Object? :: Holds(KeysSpelled, t[k].fields)
    ensures FoldedHolds(law, t)
  {
    hide SpelledRight, EqualFold, AsciiLower;
    forall k | k in t
      ensures SpelledRight(k)
      ensures k != "headers" && t[k].Object? ==> forall j | j in t[k].fields :: SpelledRight(j)
    {}
    match law
    case NoRouting =>
      forall k, j, g | k in t && t[k].Object? && (EqualFold(k, "sockopt") || EqualFold(k, "echSockopt"))
                       && j in t[k].fields && g in ROUTING
        ensures !EqualFold(j, g)
      {
        SpelledLookup(k);
        SpelledLookup(j);
      }
    case NoDialer =>
      forall k, j | k in t && t[k].Object? && (EqualFold(k, "sockopt") || EqualFold(k, "echSockopt"))
                    && j in t[k].fields && EqualFold(j, "dialerProxy")
        ensures !t[k].fields[j].Text? || t[k].fields[j].s == ""
      {
        SpelledLookup(k);
        SpelledLookup(j);
      }
    case NoKeyLog =>
      forall k, j | k in t && t[k].Object? && (EqualFold(k, "tlsSettings") || EqualFold(k, "realitySettings"))
          && j in t[k].fields
        ensures !EqualFold(j, "masterKeyLog")
      {
        SpelledLookup(k);
        SpelledLookup(j);
      }
    case NoInsecure =>
      forall q, k, j | q in t && EqualFold(q, "security") && t[q].Text? && AsciiLower(t[q].s) == "tls"
                       && k in t && t[k].Object? && EqualFold(k, "tlsSettings") && j in t[k].fields
        ensures !EqualFold(j, "allowInsecure")
      {
        SpelledLookup(q);
        SpelledLookup(k);
        SpelledLookup(j);
      }
  }

  lemma {:induction false} ExactIsEnough(law: Law, v: Json)
    requires law == NoRouting || law == NoDialer || law == NoKeyLog || law == NoInsecure
    requires Everywhere(law, v) && Everywhere(KeysSpelled, v) && Everywhere(NamesLowered, v)
    ensures FoldedEverywhere(law, v)
  {
    match v
    case Object(t) =>
      forall k | k in t && k != "headers" ensures FoldedEverywhere(law, t[k]) { ExactIsEnough(law, t[k]); }
      forall k | k in t && k != "headers" && t[k].Object? ensures Holds(KeysSpelled, t[k].fields) {
        assert Everywhere(KeysSpelled, t[k]);
      }
      ExactHolds(law, t);
    case Items(a) => forall i | 0 <= i < |a| ensures FoldedEverywhere(law, a[i]) { ExactIsEnough(law, a[i]); }
    case _ =>
  }

  // ---------------------------------------------------------------- what an entry becomes

  /** The passes xrayEntry runs on the proxy outbound it accepts, in its order. */
  function Stored(ob: Json): Json
    requires ob.Object?
  {
    var lowered := Lower(ob);
    var secured := SanitizeTLS(lowered);
    var untagged := Object(secured.fields - {"tag", "sendThrough"});
    DropKeyLog(Scrub(untagged))
  }

  /** Each law an earlier pass establishes outlives the later ones. */
  lemma StoredHolds(ob: Json)
    requires ob.Object? && KeysClean(ob) && !HasDialerProxy(Lower(ob))
    ensures forall law: Law :: Everywhere(law, Stored(ob))
  {
    hide Everywhere, Shrinks, Lower, SanitizeTLS, Scrub, DropKeyLog, HasDialerProxy, KeysClean;
    var lowered := Lower(ob);
    LoweredIs(ob);
    SecuredIs(lowered);
    var secured := SanitizeTLS(lowered);
    var untagged := Object(secured.fields - {"tag", "sendThrough"});
    var scrubbed := Scrub(untagged);
    CleanIsSpelled(ob);
    LowerKeepsKeys(ob);
    LowerLowers(ob);
    NoProxyEverywhere(lowered);
    SanitizeShrinks(lowered);
    SanitizeSecures(lowered);
    ScrubShrinks(untagged);
    ScrubUnroutes(untagged);
    DropKeyLogShrinks(scrubbed);
    DropKeyLogDrops(scrubbed);
    forall law: Law ensures Everywhere(law, Stored(ob)) {
      if law == KeysSpelled || law == NamesLowered || law == NoDialer { ShrinkKeeps(law, lowered, secured); }
      if law != NoRouting && law != NoKeyLog {
        LessKeeps(law, secured, untagged.fields);
        ShrinkKeeps(law, untagged, scrubbed);
      }
      if law != NoKeyLog { ShrinkKeeps(law, scrubbed, Stored(ob)); }
    }
  }

  /** The stored outbound, as Xray reads it, outside "headers" objects and at any
      depth: no socket routes around the router's rules or names an outbound to
      dial through, no settings log keys, and no TLS stream is insecure. */
  lemma StoredIsSafe(ob: Json)
    requires ob.Object? && KeysClean(ob) && !HasDialerProxy(Lower(ob))
    ensures FoldedEverywhere(NoRouting, Stored(ob)) && FoldedEverywhere(NoDialer, Stored(ob))
    ensures FoldedEverywhere(NoKeyLog, Stored(ob)) && FoldedEverywhere(NoInsecure, Stored(ob))
  {
    hide Everywhere, FoldedEverywhere, Stored, KeysClean, HasDialerProxy;
    StoredHolds(ob);
    ExactIsEnough(NoRouting, Stored(ob));
    ExactIsEnough(NoDialer, Stored(ob));
    ExactIsEnough(NoKeyLog, Stored(ob));
    ExactIsEnough(NoInsecure, Stored(ob));
  }

  // ---------------------------------------------------------------- the loops of the passes

  datatype Pass = ScrubPass | KeyLogPass | TLSPass

  function Passed(pass: Pass, v: Json): Json {
    match pass
    case ScrubPass => Scrub(v)
    case KeyLogPass => DropKeyLog(v)
    case TLSPass => SanitizeTLS(v)
  }

  /** Key is one that Xray would read as a guarded name it is not. */
  ghost predicate MiscasedIn(v: Json, key: string) {
    match v
    case Object(t) =>
      (key in t && !SpelledRight(key)) || exists k :: k in t && k != "headers" && MiscasedIn(t[k], key)
    case Items(a) => exists i :: 0 <= i < |a| && MiscasedIn(a[i], key)
    case _ => false
  }

  lemma {:induction false} CleanIsNoneMiscased(v: Json)
    ensures KeysClean(v) <==> forall key :: !MiscasedIn(v, key)
  {
    hide SpelledRight;
    match v
    case Object(t) =>
      forall k | k in t ensures KeysClean(t[k]) <==> forall key :: !MiscasedIn(t[k], key) { CleanIsNoneMiscased(t[k]); }
      if !KeysClean(v) {
        var k :| k in t && !(SpelledRight(k) && (k == "headers" || KeysClean(t[k])));
        if !SpelledRight(k) {
          assert MiscasedIn(v, k);
        } else {
          var key :| MiscasedIn(t[k], key);
          assert MiscasedIn(v, key);
        }
      }
    case Items(a) =>
      forall i | 0 <= i < |a| ensures KeysClean(a[i]) <==> forall key :: !MiscasedIn(a[i], key)
      {
        CleanIsNoneMiscased(a[i]);
      }
      if !KeysClean(v) {
        var i :| 0 <= i < |a| && !KeysClean(a[i]);
        var key :| MiscasedIn(a[i], key);
        assert MiscasedIn(v, key);
      }
    case _ =>
  }

  /** The order of sorted keys. */
  predicate Less(a: string, b: string) {
    b != [] && (a == [] || a[0] < b[0] || (a[0] == b[0] && Less(a[1..], b[1..])))
  }

  lemma {:induction false} LessOrders(a: string, b: string, c: string)
    ensures Less(a, b) && Less(b, c) ==> Less(a, c)
    ensures !Less(a, a)
    ensures a != b ==> Less(a, b) || Less(b, a)
  {
    if a != [] {
      LessOrders(a[1..], if b == [] then [] else b[1..], if c == [] then [] else c[1..]);
      if b != [] && a[0] == b[0] && a[1..] == b[1..] { assert a == [a[0]] + a[1..] && b == [b[0]] + b[1..]; }
    }
  }

  /** miscased. */
  method Miscased(v: Json) returns (keys: seq<string>)
    ensures forall key :: key in keys <==> MiscasedIn(v, key)
    decreases v
  {
    hide SpelledRight;
    keys := [];
    match v {
      case Object(t) =>
        var left: set<string> := t.Keys;
        while left != {}
          invariant left <= t.Keys
          invariant forall key :: key in keys <==>
                      (key in t && key !in left && !SpelledRight(key))
                      || exists k :: k in t && k !in left && k != "headers" && MiscasedIn(t[k], key)
          decreases |left|
        {
          InhabitedStrings(left);
          var k :| k in left;
          var name := FoldsTo(k);
          SpelledIs(k);
          if name != "" && name != k {
            keys := keys + [k];
          }
          if k != "headers" {
            var below := Miscased(t[k]);
            keys := keys + below;
          }
          left := left - {k};
        }
      case Items(a) =>
        for i := 0 to |a|
          invariant forall key :: key in keys <==> exists j | 0 <= j < i :: MiscasedIn(a[j], key)
        {
          var below := Miscased(a[i]);
          keys := keys + below;
        }
      case _ =>
    }
  }

  /** keyCase: the first of those keys, and the name Xray reads it as. */
  method KeyCase(v: Json) returns (key: string, canonical: string)
    ensures key == "" <==> KeysClean(v)
    ensures key == "" ==> canonical == ""
    ensures key != "" ==>
              && MiscasedIn(v, key) && (forall k | MiscasedIn(v, k) :: !Less(k, key))
              && canonical == FoldsFrom(key, 0) && canonical != "" && canonical != key
  {
    hide SpelledRight;
    CleanIsNoneMiscased(v);
    var keys := Miscased(v);
    if |keys| == 0 { return "", ""; }
    key := keys[0];
    LessOrders(key, key, key);
    for i := 1 to |keys|
      invariant key in keys && forall j | 0 <= j < i :: !Less(keys[j], key)
    {
      LessOrders(keys[i], keys[i], keys[i]);
      forall j | 0 <= j < i ensures Less(keys[i], key) ==> !Less(keys[j], keys[i])
      {
        LessOrders(keys[j], keys[i], key);
      }
      if Less(keys[i], key) {
        key := keys[i];
      }
    }
    canonical := FoldsTo(key);
    assert MiscasedIn(v, key);
    OnlyMiscased(v, key);
    SpelledIs(key);
    EmptyFolds();
  }

  lemma {:induction false} OnlyMiscased(v: Json, key: string)
    requires MiscasedIn(v, key)
    ensures !SpelledRight(key)
  {
    hide SpelledRight;
    match v
    case Object(t) =>
      if !(key in t && !SpelledRight(key)) {
        var k :| k in t && k != "headers" && MiscasedIn(t[k], key);
        OnlyMiscased(t[k], key);
      }
    case Items(a) =>
      var i :| 0 <= i < |a| && MiscasedIn(a[i], key);
      OnlyMiscased(a[i], key);
    case _ =>
  }

  lemma EmptyFolds()
    ensures SpelledRight("")
  {
    FoldedLength("", 0);
  }

  lemma SpelledIs(k: string)
    ensures SpelledRight(k) <==> FoldsFrom(k, 0) == "" || FoldsFrom(k, 0) == k
  {}

  method FindDialerProxy(v: Json) returns (found: bool)
    ensures found <==> HasDialerProxy(v)
    decreases v
  {
    match v {
      case Object(t) =>
        if DialsThrough(t, "sockopt") || DialsThrough(t, "echSockopt") { return true; }
        hide DialsThrough;
        var left: set<string> := t.Keys;
        while left != {}
          invariant left <= t.Keys && forall k | k in t && k !in left :: !HasDialerProxy(t[k])
          decreases |left|
        {
          InhabitedStrings(left);
          var k :| k in left;
          var below := FindDialerProxy(t[k]);
          if below { return true; }
          left := left - {k};
        }
        return false;
      case Items(a) =>
        for i := 0 to |a|
          invariant forall j | 0 <= j < i :: !HasDialerProxy(a[j])
        {
          var below := FindDialerProxy(a[i]);
          if below { return true; }
        }
        return false;
      case _ => return false;
    }
  }

  method LowerStreamNames(v: Json) returns (r: Json)
    ensures r == Lower(v)
    decreases v
  {
    match v {
      case Object(t) =>
        var u := t;
        var left: set<string> := t.Keys;
        while left != {}
          invariant left <= t.Keys
          invariant u == map k | k in t :: if k in left then t[k] else Lower(v).fields[k]
          decreases |left|
        {
          InhabitedStrings(left);
          var k :| k in left;
          left := left - {k};
          if k == "headers" { continue; }
          if t[k].Text? && (k == "security" || k == "network") {
            u := u[k := Text(AsciiLower(t[k].s))];
            continue;
          }
          var below := LowerStreamNames(t[k]);
          u := u[k := below];
        }
        r := Object(u);
      case Items(a) =>
        var b: seq<Json> := [];
        for i := 0 to |a|
          invariant b == seq(i, j requires 0 <= j < i => Lower(a[j]))
        {
          var below := LowerStreamNames(a[i]);
          b := b + [below];
        }
        r := Items(b);
      case _ => r := v;
    }
  }

  /** The loop over the children that the passes share. */
  method Children(pass: Pass, t: map<string, Json>, v: Json) returns (u: map<string, Json>)
    requires v == Object(t)
    ensures u == map k | k in t :: Passed(pass, t[k])
    decreases v, 0
  {
    hide Passed;
    u := t;
    var left: set<string> := t.Keys;
    while left != {}
      invariant left <= t.Keys && u == map k | k in t :: if k in left then t[k] else Passed(pass, t[k])
      decreases |left|
    {
      InhabitedStrings(left);
      var k :| k in left;
      var below := RunPass(pass, t[k]);
      u := u[k := below];
      left := left - {k};
    }
  }

  /** scrubSockopt, dropKeyLog and sanitizeTLS: children, then the keys of this level. */
  method RunPass(pass: Pass, v: Json) returns (r: Json)
    ensures r == Passed(pass, v)
    decreases v, 1
  {
    match v {
      case Object(t) =>
        hide Passed;
        var u := Children(pass, t, v);
        var w := OwnLevel(pass, t, u);
        LevelIs(pass, t, u);
        r := Object(w);
      case Items(a) =>
        var b: seq<Json> := [];
        for i := 0 to |a|
          invariant b == seq(i, j requires 0 <= j < i => Passed(pass, a[j]))
        {
          var below := RunPass(pass, a[i]);
          b := b + [below];
        }
        ItemsIs(pass, a);
        r := Items(b);
      case _ =>
        LeafIs(pass, v);
        r := v;
    }
  }

  lemma LeafIs(pass: Pass, v: Json)
    requires !v.Object? && !v.Items?
    ensures Passed(pass, v) == v
  {
    match pass
    case ScrubPass =>
    case KeyLogPass =>
    case TLSPass =>
  }

  lemma ItemsIs(pass: Pass, a: seq<Json>)
    ensures Passed(pass, Items(a)) == Items(seq(|a|, i requires 0 <= i < |a| => Passed(pass, a[i])))
  {
    var b := seq(|a|, i requires 0 <= i < |a| => Passed(pass, a[i]));
    match pass
    case ScrubPass => assert b == Scrub(Items(a)).items;
    case KeyLogPass => assert b == DropKeyLog(Items(a)).items;
    case TLSPass => assert b == SanitizeTLS(Items(a)).items;
  }

  /** What a pass does to an object whose children it has been through. */
  function LevelOf(pass: Pass, t: map<string, Json>, u: map<string, Json>): map<string, Json> {
    match pass
    case ScrubPass => ScrubSocket(ScrubSocket(u, "sockopt"), "echSockopt")
    case KeyLogPass => Drop(Drop(u, "tlsSettings", "masterKeyLog"), "realitySettings", "masterKeyLog")
    case TLSPass => if IsTLS(t) then Drop(u, "tlsSettings", "allowInsecure") else u
  }

  lemma LevelIs(pass: Pass, t: map<string, Json>, u: map<string, Json>)
    requires u.Keys == t.Keys && forall k | k in t :: u[k] == Passed(pass, t[k])
    ensures Passed(pass, Object(t)) == Object(LevelOf(pass, t, u))
  {
    hide ScrubSocket, Drop;
    match pass
    case ScrubPass =>
      var v: map<string, Json> := map k | k in t :: Scrub(t[k]);
      var one := ScrubSocket(v, "sockopt");
      assert u == v;
      assert Scrub(Object(t)) == Object(ScrubSocket(one, "echSockopt"));
    case KeyLogPass =>
      var v: map<string, Json> := map k | k in t :: DropKeyLog(t[k]);
      var one := Drop(v, "tlsSettings", "masterKeyLog");
      assert u == v;
      assert DropKeyLog(Object(t)) == Object(Drop(one, "realitySettings", "masterKeyLog"));
    case TLSPass =>
      var v: map<string, Json> := map k | k in t :: SanitizeTLS(t[k]);
      assert u == v;
      assert SanitizeTLS(Object(t)) == Object(if IsTLS(t) then Drop(v, "tlsSettings", "allowInsecure") else v);
  }

  /** The keys of one level. */
  method OwnLevel(pass: Pass, t: map<string, Json>, u: map<string, Json>) returns (w: map<string, Json>)
    ensures w == LevelOf(pass, t, u)
  {
    w := u;
    match pass {
      case ScrubPass =>
        w := ScrubOne(w, "sockopt");
        w := ScrubOne(w, "echSockopt");
      case KeyLogPass =>
        w := Delete(w, "tlsSettings", "masterKeyLog");
        w := Delete(w, "realitySettings", "masterKeyLog");
      case TLSPass =>
        if IsTLS(t) {
          w := Delete(w, "tlsSettings", "allowInsecure");
        }
    }
  }

  method ScrubOne(t: map<string, Json>, key: string) returns (w: map<string, Json>)
    ensures w == ScrubSocket(t, key)
  {
    w := t;
    if key in t && t[key].Object? {
      var socket := t[key].fields - {"mark"};
      socket := socket - {"interface"};
      socket := socket - {"tproxy"};
      socket := socket - {"customSockopt"};
      RoutingGone(t[key].fields);
      w := if |socket| == 0 then t - {key} else t[key := Object(socket)];
    }
  }

  lemma RoutingGone(m: map<string, Json>)
    ensures m - {"mark"} - {"interface"} - {"tproxy"} - {"customSockopt"} == m - ROUTING
  {}

  method Delete(t: map<string, Json>, key: string, name: string) returns (w: map<string, Json>)
    ensures w == Drop(t, key, name)
  {
    w := t;
    if key in t && t[key].Object? {
      w := w[key := Object(t[key].fields - {name})];
    }
  }

  /** What sanitizeTLS reports. */
  method FindInsecure(v: Json, settled: bool) returns (insecure: bool)
    ensures insecure <==> Insecure(v, settled)
    decreases v
  {
    insecure := false;
    match v {
      case Object(t) =>
        insecure := InsecureHere(t);
        hide InsecureHere, IsTLS;
        var left: set<string> := if settled then t.Keys - {"allowInsecure"} else t.Keys;
        while left != {}
          invariant left <= t.Keys && !(settled && "allowInsecure" in left)
          invariant insecure <==> || InsecureHere(t)
                                  || exists k :: k in t && k !in left && !(settled && k == "allowInsecure")
                                      && Insecure(t[k], Settles(t, k))
          decreases |left|
        {
          InhabitedStrings(left);
          var k :| k in left;
          var below := FindInsecure(t[k], Settles(t, k));
          if below {
            insecure := true;
          }
          left := left - {k};
        }
      case Items(a) =>
        for i := 0 to |a|
          invariant insecure <==> exists j | 0 <= j < i :: Insecure(a[j], false)
        {
          var below := FindInsecure(a[i], false);
          if below {
            insecure := true;
          }
        }
      case _ =>
    }
  }

  /** A stream nobody asks about: it lies under an allowInsecure that is deleted first. */
  lemma DeletedFirst()
    ensures var inner := map["security" := Text("tls"), "tlsSettings" := Object(map["allowInsecure" := Flag(true)])];
            var v := Object(inner["tlsSettings" := Object(map["allowInsecure" := Object(inner)])]);
            InsecureHere(inner) && !Insecure(v, false)
  {
    var inner := map["security" := Text("tls"), "tlsSettings" := Object(map["allowInsecure" := Flag(true)])];
    var tls := Object(map["allowInsecure" := Object(inner)]);
    var v := Object(inner["tlsSettings" := tls]);
    assert IsTLS(v.fields) && Settles(v.fields, "tlsSettings");
    assert !Insecure(tls, true) && !Insecure(Text("tls"), false);
  }

  lemma LoweredIs(v: Json)
    requires v.Object?
    ensures Lower(v).Object?
  {}

  lemma SecuredIs(v: Json)
    requires v.Object?
    ensures SanitizeTLS(v).Object?
  {}
}
