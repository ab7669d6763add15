/** Servers, the records that name them, and the writes of config.json and the
    record in one transaction under the config lock. */
module Servers {
  datatype Server = Server(
    name: string, address: string, port: int, subscription: string, group: string, identity: string,
    ips: seq<string>, outbound: string)

  /** active_server and preferred_server; `number` is the write counter. */
  datatype Record = Record(
    name: string, address: string, port: int, subscription: string, group: string, identity: string, number: nat)

  datatype Named = Nobody | Names(r: Record)

  /** The fields of the VPN Director config these writes touch. */
  datatype Config = Config(active: Named, preferred: Named)

  // ---------------------------------------------------------------- identities

  function Digits(n: nat): string {
    if n < 10 then [('0' as int + n) as char] else Digits(n / 10) + [('0' as int + n % 10) as char]
  }

  function Decimal(n: int): string { if n < 0 then "-" + Digits(-n) else Digits(n) }

  const SEPARATOR: string := [31 as char]

  function ServerID(s: Server): string {
    s.subscription + SEPARATOR + s.name + SEPARATOR + s.address + SEPARATOR + Decimal(s.port)
  }

  predicate NoAddress(r: Record) { r.address == "" && r.port == 0 }

  function ActiveID(a: Named): string {
    match a
    case Nobody => ""
    case Names(r) =>
      if NoAddress(r) then r.subscription + SEPARATOR + r.name
      else r.subscription + SEPARATOR + r.name + SEPARATOR + r.address + SEPARATOR + Decimal(r.port)
  }

  function Counter(a: Named): nat { if a.Nobody? then 0 else a.r.number }

  /** sameServer: the name of the record, at its address if it has one. */
  predicate SameServer(s: Server, r: Record) {
    && s.subscription == r.subscription && s.name == r.name
    && (NoAddress(r) || (s.address == r.address && s.port == r.port))
  }

  /** SameChoice: the subscription, the name and, where the record knows it, the kind. */
  predicate SameChoice(r: Record, s: Server) {
    r.subscription == s.subscription && r.name == s.name && (r.group == "" || s.group == r.group)
  }

  // ---------------------------------------------------------------- writes

  function RecordOf(s: Server, number: nat): Record {
    Record(s.name, s.address, s.port, s.subscription, s.group, s.identity, number)
  }

  /** RecordActiveServer: every record moves the counter one on. */
  function RecordActive(prev: Named, s: Server): Named {
    Names(RecordOf(s, Counter(prev) + 1))
  }

  /** A user's selection. */
  function Selected(c: Config, s: Server): Config {
    Config(RecordActive(c.active, s), Nobody)
  }

  /** RecordWalkedServer: the server the user chose is kept while another is tried. */
  function Walked(c: Config, s: Server): Config {
    var preferred :=
      if c.preferred.Names? && SameChoice(c.preferred.r, s) then Nobody
      else if c.preferred.Nobody? && c.active.Names? && !SameChoice(c.active.r, s) then Names(c.active.r.(number := 0))
      else c.preferred;
    Config(RecordActive(c.active, s), preferred)
  }

  /** The choice the config keeps: preferred_server, or active_server without one. */
  ghost function Choice(c: Config): Named {
    if c.preferred.Names? then c.preferred else c.active
  }

  /** Record r is of the choice the record u made: of its subscription and name and,
      where u knows one, of its kind. */
  ghost predicate OfChoice(u: Record, r: Record) {
    r.subscription == u.subscription && r.name == u.name && (u.group == "" || r.group == u.group)
  }

  /** superseded: the config names a server the walk did not record. */
  predicate Superseded(c: Config, started: string, lastRecorded: string, expected: nat) {
    if Counter(c.active) != expected then true
    else
      var cur := ActiveID(c.active);
      if lastRecorded == "" then cur != "" && cur != started
      else if cur == "" || cur == lastRecorded then false
      else !(c.active.Names? && NoAddress(c.active.r))
  }

  // ---------------------------------------------------------------- the transaction

  /** How a transaction that generates and records goes: the config does not
      load, the guard refuses, the generator rejects the server, or config.json
      is written and the record of it is saved or not. */
  datatype Outcome = LoadFails | Refused | Rejected | Unsaved | Saved

  datatype Kind = Selection | Walk

  /** The files a transaction works on, under the config lock. */
  class Files {
    var config: Config
    var running: seq<Server>   // the server config.json was built from, [] for none

    constructor (config: Config, running: seq<Server>)
      ensures this.config == config && this.running == running
    {
      this.config, this.running := config, running;
    }

    /** recordGenerated: `generated` says config.json is written, and `number`
        is the counter the record in the file carries after it. A selection is the
        choice from then on; a write of the walk puts the choice aside as preferred
        while another server runs, and clears it when it is back. */
    method RecordGenerated(s: Server, kind: Kind, outcome: Outcome) returns (generated: bool, number: nat, ok: bool)
      modifies this
      ensures generated <==> outcome == Unsaved || outcome == Saved
      ensures ok <==> outcome == Saved
      ensures running == if generated then [s] else old(running)
      ensures config == if ok then (if kind == Selection then Selected(old(config), s) else Walked(old(config), s))
              else old(config)
      ensures generated ==> number == Counter(config.active)
      ensures ok ==> config.active == Names(RecordOf(s, Counter(old(config).active) + 1))
      ensures ok ==>
                var kept := Choice(old(config));
                config.preferred ==
                  if kind == Selection || kept.Nobody? || OfChoice(kept.r, RecordOf(s, 0)) then Nobody
                  else if kept == old(config).preferred then kept else Names(kept.r.(number := 0))
    {
      generated, number, ok := false, 0, false;
      var prev, written := 0, 0;
      if outcome == LoadFails || outcome == Refused || outcome == Rejected {
        return;
      }
      var cfg := config;
      running := [s];
      generated := true;
      prev := Counter(cfg.active);
      cfg := if kind == Selection then Selected(cfg, s) else Walked(cfg, s);
      written := Counter(cfg.active);
      if outcome == Unsaved {
        return generated, prev, false;
      }
      config := cfg;
      return generated, written, true;
    }
  }

  // ---------------------------------------------------------------- which server a record means

  /** 0 at the record's address with its mark, 1 there without it, 2 elsewhere
      with its mark, 3 elsewhere without it, 4 not its choice. */
  function Rank(s: Server, r: Record): nat {
    if !SameChoice(r, s) then 4
    else (if SameServer(s, r) then 0 else 2) + (if r.identity == "" || s.identity != r.identity then 1 else 0)
  }

  // What the ranks prefer, from the records themselves.

  ghost predicate AtAddress(s: Server, r: Record) {
    (r.address == "" && r.port == 0) || (s.address == r.address && s.port == r.port)
  }

  ghost predicate Marked(s: Server, r: Record) {
    r.identity != "" && s.identity == r.identity
  }

  /** Entries at the record's address come first, and of two in either place one with its mark. */
  ghost predicate Nearer(a: Server, b: Server, r: Record) {
    if AtAddress(a, r) != AtAddress(b, r) then AtAddress(a, r) else Marked(a, r) && !Marked(b, r)
  }

  /** The first of the nearest entries of the record's choice, if there is one. */
  ghost predicate FirstNearest(servers: seq<Server>, a: Named, best: int) {
    if a.Nobody? || a.r.name == "" || forall i | 0 <= i < |servers| :: !OfChoice(a.r, RecordOf(servers[i], 0))
    then best == -1
    else
      && 0 <= best < |servers| && OfChoice(a.r, RecordOf(servers[best], 0))
      && forall i | 0 <= i < |servers| && OfChoice(a.r, RecordOf(servers[i], 0)) ::
           !Nearer(servers[i], servers[best], a.r) && (i < best ==> Nearer(servers[best], servers[i], a.r))
  }

  lemma RankTells(a: Server, b: Server, r: Record)
    ensures Rank(a, r) == 4 <==> !OfChoice(r, RecordOf(a, 0))
    ensures Rank(a, r) < 4 && Rank(b, r) < 4 ==> (Rank(a, r) < Rank(b, r) <==> Nearer(a, b, r))
  {}

  method ChosenIndex(servers: seq<Server>, a: Named) returns (best: int)
    ensures FirstNearest(servers, a, best)
  {
    best := -1;
    if a.Nobody? || a.r.name == "" { return; }
    forall i, j | 0 <= i < |servers| && 0 <= j < |servers|
      ensures Rank(servers[i], a.r) == 4 <==> !OfChoice(a.r, RecordOf(servers[i], 0))
      ensures Rank(servers[i], a.r) < 4 && Rank(servers[j], a.r) < 4 ==>
                (Rank(servers[i], a.r) < Rank(servers[j], a.r) <==> Nearer(servers[i], servers[j], a.r))
    {
      RankTells(servers[i], servers[j], a.r);
    }
    var rank := 4;
    for i := 0 to |servers|
      invariant rank == if best < 0 then 4 else rank
      invariant best < 0 ==> best == -1 && forall j | 0 <= j < i :: Rank(servers[j], a.r) == 4
      invariant best >= 0 ==> best < i && rank == Rank(servers[best], a.r) && 0 < rank < 4
      invariant forall j | 0 <= j < i :: rank <= Rank(servers[j], a.r)
      invariant best >= 0 ==> forall j | 0 <= j < best :: rank < Rank(servers[j], a.r)
    {
      var s := servers[i];
      if !SameChoice(a.r, s) { continue; }
      var r := 2;
      if SameServer(s, a.r) {
        r := 0;
      }
      if a.r.identity == "" || s.identity != a.r.identity {
        r := r + 1;
      }
      if r < rank {
        best, rank := i, r;
      }
      if rank == 0 { return; }
    }
  }
}
