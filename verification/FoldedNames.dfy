/** The keys of an Xray outbound the importer looks up, and how Xray itself would
    read a key: as any of them it folds to. */
module FoldedNames {
  /** The keys that are looked up somewhere, as they are spelled there. */
  const GUARDED: seq<string> := [
    "protocol", "settings", "vnext", "servers", "address", "port", "streamSettings", "network",
    "security", "tlsSettings", "realitySettings", "serverName", "alpn", "fingerprint", "publicKey",
    "password", "allowInsecure", "pinnedPeerCertSha256", "masterKeyLog", "sockopt", "echSockopt",
    "mark", "interface", "tproxy", "customSockopt", "dialerProxy", "proxySettings", "tag",
    "sendThrough", "xhttpSettings", "splithttpSettings", "wsSettings", "httpupgradeSettings",
    "grpcSettings", "authority", "host", "mode", "extra", "downloadSettings", "scMaxEachPostBytes"]

  /** Case folding, as far as it can end in a letter of a guarded name: the long
      s is an s, the Kelvin sign a k. */
  function FoldChar(c: char): char {
    if 'A' <= c <= 'Z' then (c as int + 32) as char
    else if c == '\U{017F}' then 's'
    else if c == '\U{212A}' then 'k'
    else c
  }

  predicate EqualFold(a: string, b: string) {
    |a| == |b| && forall i | 0 <= i < |a| :: FoldChar(a[i]) == FoldChar(b[i])
  }

  function FoldsFrom(k: string, i: nat): string
    requires i <= |GUARDED|
    decreases |GUARDED| - i
  {
    if i == |GUARDED| then "" else if EqualFold(k, GUARDED[i]) then GUARDED[i] else FoldsFrom(k, i + 1)
  }

  /** foldsTo: the guarded name Xray reads k as, or "". */
  method FoldsTo(k: string) returns (name: string)
    ensures name == FoldsFrom(k, 0)
  {
    for i := 0 to |GUARDED|
      invariant FoldsFrom(k, 0) == FoldsFrom(k, i)
    {
      if EqualFold(k, GUARDED[i]) { return GUARDED[i]; }
    }
    return "";
  }

  /** What tells the guarded names apart: the length and the first three letters. */
  datatype Mark = Mark(length: nat, a: char, b: char, c: char)

  function MarkOf(s: string): Mark
    requires |s| >= 3
  {
    Mark(|s|, FoldChar(s[0]), FoldChar(s[1]), FoldChar(s[2]))
  }

  function NameOf(m: Mark): string {
    if m.length == 8 then
      if m.a == 'p' then if m.c == 'o' then "protocol" else "password"
      else if m.c == 't' then "settings" else "security"
    else if m.length == 5 then if m.a == 'v' then "vnext" else "extra"
    else if m.length == 7 then
      if m.a == 'a' then "address" else if m.a == 'n' then "network" else if m.b == 'e' then "servers" else "sockopt"
    else if m.length == 4 then
      if m.a == 'p' then "port" else if m.a == 'a' then "alpn" else if m.a == 'h' then "host"
      else if m.b == 'a' then "mark" else "mode"
    else if m.length == 10 then
      if m.a == 's' then "serverName" else if m.a == 'e' then "echSockopt" else "wsSettings"
    else if m.length == 11 then
      if m.a == 't' then "tlsSettings" else if m.a == 'f' then "fingerprint" else if m.a == 'd' then "dialerProxy"
          else "sendThrough"
    else if m.length == 9 then
      if m.a == 'p' then "publicKey" else if m.a == 'i' then "interface" else "authority"
    else if m.length == 13 then
      if m.a == 'a' then "allowInsecure" else if m.a == 'c' then "customSockopt"
          else if m.a == 'p' then "proxySettings" else "xhttpSettings"
    else if m.length == 12 then if m.a == 'm' then "masterKeyLog" else "grpcSettings"
    else if m.length == 14 then "streamSettings"
    else if m.length == 15 then "realitySettings"
    else if m.length == 20 then "pinnedPeerCertSha256"
    else if m.length == 6 then "tproxy"
    else if m.length == 3 then "tag"
    else if m.length == 17 then "splithttpSettings"
    else if m.length == 19 then "httpupgradeSettings"
    else if m.length == 16 then "downloadSettings"
    else "scMaxEachPostBytes"
  }

  predicate Marked(i: nat)
    requires i < |GUARDED|
  {
    |GUARDED[i]| >= 3 && NameOf(MarkOf(GUARDED[i])) == GUARDED[i]
  }

  lemma Marked0()
    ensures Marked(0) && Marked(1) && Marked(2) && Marked(3) && Marked(4)
  {}

  lemma Marked5()
    ensures Marked(5) && Marked(6) && Marked(7) && Marked(8) && Marked(9)
  {}

  lemma Marked10()
    ensures Marked(10) && Marked(11) && Marked(12) && Marked(13) && Marked(14)
  {}

  lemma Marked15()
    ensures Marked(15) && Marked(16) && Marked(17) && Marked(18) && Marked(19)
  {}

  lemma Marked20()
    ensures Marked(20) && Marked(21) && Marked(22) && Marked(23) && Marked(24)
  {}

  lemma Marked25()
    ensures Marked(25) && Marked(26) && Marked(27) && Marked(28) && Marked(29)
  {}

  lemma Marked30()
    ensures Marked(30) && Marked(31) && Marked(32) && Marked(33) && Marked(34)
  {}

  lemma Marked35()
    ensures Marked(35) && Marked(36) && Marked(37) && Marked(38) && Marked(39)
  {}

  lemma Forty()
    ensures |GUARDED| == 40
  {}

  lemma AllMarked(i: nat)
    requires i < |GUARDED|
    ensures Marked(i)
  {
    hide *;
    Forty();
    Marked0();
    Marked5();
    Marked10();
    Marked15();
    Marked20();
    Marked25();
    Marked30();
    Marked35();
  }

  /** No two guarded names fold alike. */
  lemma NamesDiffer(k: string, i: nat, j: nat)
    requires i < |GUARDED| && j < |GUARDED| && EqualFold(k, GUARDED[i]) && EqualFold(k, GUARDED[j])
    ensures GUARDED[i] == GUARDED[j]
  {
    AllMarked(i);
    AllMarked(j);
    hide NameOf;
    assert MarkOf(GUARDED[i]) == MarkOf(GUARDED[j]);
  }

  /** A key is read as a guarded name exactly if it folds to it. */
  lemma {:induction false} FoldsToName(k: string, i: nat, j: nat)
    requires i <= j < |GUARDED| && EqualFold(k, GUARDED[j])
    ensures FoldsFrom(k, i) == GUARDED[j]
    decreases |GUARDED| - i
  {
    hide EqualFold;
    if EqualFold(k, GUARDED[i]) {
      NamesDiffer(k, i, j);
    } else {
      FoldsToName(k, i + 1, j);
    }
  }

  lemma {:induction false} FoldedLength(k: string, i: nat)
    requires i <= |GUARDED|
    ensures FoldsFrom(k, i) == "" || |FoldsFrom(k, i)| == |k|
    decreases |GUARDED| - i
  {
    if i < |GUARDED| && !EqualFold(k, GUARDED[i]) { FoldedLength(k, i + 1); }
  }

  /** A key spelled as a guarded name, or as nothing that folds to one. */
  predicate SpelledRight(k: string) {
    FoldsFrom(k, 0) == "" || FoldsFrom(k, 0) == k
  }

  /** Where keys are spelled right, the one that folds to a guarded name is it. */
  lemma ExactIsFolded(k: string, j: nat)
    requires j < |GUARDED| && SpelledRight(k)
    ensures EqualFold(k, GUARDED[j]) ==> k == GUARDED[j]
  {
    AllMarked(j);
    hide EqualFold, NameOf;
    if EqualFold(k, GUARDED[j]) { FoldsToName(k, 0, j); }
  }

  /** A guarded name is spelled right. */
  lemma NameIsRight(j: nat)
    requires j < |GUARDED|
    ensures SpelledRight(GUARDED[j])
  {
    FoldsToName(GUARDED[j], 0, j);
  }

  /** The same for the names the sanitizers look up. */
  lemma LookedUp(k: string)
    requires SpelledRight(k)
    ensures forall g | g in {"sockopt", "echSockopt", "mark", "interface", "tproxy", "customSockopt", "dialerProxy"} ::
              EqualFold(k, g) ==> k == g
    ensures forall g | g in {"tlsSettings", "realitySettings", "masterKeyLog", "allowInsecure"} ::
              EqualFold(k, g) ==> k == g
    ensures forall g | g in {"security", "network"} :: EqualFold(k, g) ==> k == g
  {
    hide EqualFold, SpelledRight, FoldsFrom;
    Places();
    ExactIsFolded(k, 7);
    ExactIsFolded(k, 8);
    ExactIsFolded(k, 9);
    ExactIsFolded(k, 10);
    ExactIsFolded(k, 16);
    ExactIsFolded(k, 18);
    ExactIsFolded(k, 19);
    ExactIsFolded(k, 20);
    ExactIsFolded(k, 21);
    ExactIsFolded(k, 22);
    ExactIsFolded(k, 23);
    ExactIsFolded(k, 24);
    ExactIsFolded(k, 25);
    hide GUARDED;
  }

  lemma Places()
    ensures |GUARDED| == 40
    ensures GUARDED[7] == "network" && GUARDED[8] == "security" && GUARDED[9] == "tlsSettings"
            && GUARDED[10] == "realitySettings"
    ensures GUARDED[16] == "allowInsecure" && GUARDED[18] == "masterKeyLog" && GUARDED[19] == "sockopt"
            && GUARDED[20] == "echSockopt"
    ensures GUARDED[21] == "mark" && GUARDED[22] == "interface" && GUARDED[23] == "tproxy"
            && GUARDED[24] == "customSockopt"
    ensures GUARDED[25] == "dialerProxy" && GUARDED[27] == "tag"
    ensures GUARDED[0] == "protocol" && GUARDED[1] == "settings" && GUARDED[4] == "address" && GUARDED[5] == "port"
            && GUARDED[6] == "streamSettings"
  {
    PlacesTo10();
    PlacesTo20();
    PlacesTo27();
    hide GUARDED;
  }

  lemma PlacesTo10()
    ensures |GUARDED| == 40
    ensures GUARDED[0] == "protocol" && GUARDED[1] == "settings" && GUARDED[4] == "address" && GUARDED[5] == "port"
            && GUARDED[6] == "streamSettings"
    ensures GUARDED[7] == "network" && GUARDED[8] == "security" && GUARDED[9] == "tlsSettings"
            && GUARDED[10] == "realitySettings"
  {}

  lemma PlacesTo20()
    ensures |GUARDED| == 40
    ensures GUARDED[16] == "allowInsecure" && GUARDED[18] == "masterKeyLog" && GUARDED[19] == "sockopt"
            && GUARDED[20] == "echSockopt"
  {}

  lemma PlacesTo27()
    ensures |GUARDED| == 40
    ensures GUARDED[21] == "mark" && GUARDED[22] == "interface" && GUARDED[23] == "tproxy"
            && GUARDED[24] == "customSockopt"
    ensures GUARDED[25] == "dialerProxy" && GUARDED[27] == "tag"
  {}

  /** The names xrayEntry looks up. */
  const LOOKED: set<string> := {
    "protocol", "settings", "vnext", "servers", "address", "streamSettings", "security", "realitySettings",
    "serverName", "fingerprint", "publicKey", "password", "proxySettings", "tag", "sendThrough"}

  lemma LookedAreGuarded(name: string) returns (j: nat)
    requires name in LOOKED
    ensures j < |GUARDED| && GUARDED[j] == name
  {
    Places();
    MorePlaces();
    j := if name == "protocol" then 0 else if name == "settings" then 1 else if name == "vnext" then 2
         else if name == "servers" then 3 else if name == "address" then 4 else if name == "streamSettings" then 6
         else if name == "security" then 8 else if name == "realitySettings" then 10
         else if name == "serverName" then 11 else if name == "fingerprint" then 13
         else if name == "publicKey" then 14 else if name == "password" then 15
         else if name == "proxySettings" then 26 else if name == "tag" then 27 else 28;
    hide GUARDED;
  }

  lemma MorePlaces()
    ensures |GUARDED| == 40
    ensures GUARDED[2] == "vnext" && GUARDED[3] == "servers" && GUARDED[11] == "serverName"
            && GUARDED[13] == "fingerprint" && GUARDED[14] == "publicKey" && GUARDED[15] == "password"
            && GUARDED[26] == "proxySettings" && GUARDED[28] == "sendThrough"
  {}

  /** Spelled right is what no guarded name is misspelled as. */
  lemma SpelledIff(k: string)
    ensures SpelledRight(k) <==> forall g | g in GUARDED :: EqualFold(k, g) ==> k == g
  {
    hide EqualFold, GUARDED;
    if SpelledRight(k) {
      forall g | g in GUARDED && EqualFold(k, g) ensures k == g {
        var j :| 0 <= j < |GUARDED| && GUARDED[j] == g;
        ExactIsFolded(k, j);
      }
    } else {
      FoldsToOne(k, 0);
    }
  }

  lemma {:induction false} FoldsToOne(k: string, i: nat)
    requires i <= |GUARDED| && FoldsFrom(k, i) != ""
    ensures FoldsFrom(k, i) in GUARDED && EqualFold(k, FoldsFrom(k, i))
    decreases |GUARDED| - i
  {
    hide EqualFold, GUARDED;
    if !EqualFold(k, GUARDED[i]) { FoldsToOne(k, i + 1); }
  }
}
