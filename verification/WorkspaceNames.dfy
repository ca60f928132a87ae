/** Names of the Roles and RoleBindings a control plane creates in workspace namespaces. */
module WorkspaceNames {
  import opened Results
  import opened Text

  const MAX_NAME: nat := 253
  const ROLE_SUFFIX := "-workspace-perms"

  predicate DashOrDot(c: char) {
    c == '-' || c == '.'
  }

  /** The base name, the scope hash and the suffix, the base cut short where the whole would be
      too long for a Kubernetes object name. Lengths are in bytes. */
  function ScopedName(baseName: string, scopeHash: string, suffix: string): Option<string> {
    var base := TrimSpace(baseName);
    var candidate := base + "-" + scopeHash + suffix;
    var available := MAX_NAME - |scopeHash| - |suffix| - 1;
    if base == "" || TrimSpace(scopeHash) == "" then None
    else if |candidate| <= MAX_NAME then Some(candidate)
    else if available < 1 then None
    else
      var cut := Trim(if |base| > available then base[..available] else base, DashOrDot);
      var prefix := if cut == "" then "workspace" else cut;
      var result := prefix + "-" + scopeHash + suffix;
      if |result| > MAX_NAME then None else Some(result)
  }

  /** With an eight-character hash and the suffixes in use a name always exists, except for a
      blank base; it is short enough, ends with the hash and suffix, and a name that had to be
      cut starts with neither a dash nor a dot. */
  lemma ScopedNameMeaning(baseName: string, scopeHash: string, suffix: string)
    requires |scopeHash| == 8 && Trimmed(scopeHash) && |suffix| <= |ROLE_SUFFIX|
    ensures var r := ScopedName(baseName, scopeHash, suffix);
            && (r.None? <==> TrimSpace(baseName) == "")
            && (r.Some? ==> EndsWith(r.value, "-" + scopeHash + suffix) && |r.value| <= MAX_NAME)
            && (r.Some? && |TrimSpace(baseName) + "-" + scopeHash + suffix| > MAX_NAME ==> !DashOrDot(r.value[0]))
    ensures var r, base, tail := ScopedName(baseName, scopeHash, suffix), TrimSpace(baseName), "-" + scopeHash + suffix;
            && (r.Some? && |base| + |tail| <= MAX_NAME ==> r.value == base + tail)
            && (r.Some? && |base| + |tail| > MAX_NAME ==> exists prefix :: ShortBase(base, MAX_NAME - |tail|, prefix) && r.value == prefix + tail)
  {
    hide ScopedName, TrimSpace, ShortBase, Prefix;
    var base, tail := TrimSpace(baseName), "-" + scopeHash + suffix;
    NameShape(baseName, scopeHash, suffix);
    assert base + "-" + scopeHash + suffix == base + tail;
    if base != "" {
      PrefixMeaning(base, MAX_NAME - |tail|);
      assert (Prefix(base, MAX_NAME - |tail|) + tail)[|Prefix(base, MAX_NAME - |tail|)|..] == tail;
    }
  }

  /** The part of the name before the hash. */
  function Prefix(base: string, room: nat): string {
    if |base| <= room then base
    else
      var cut := Trim(base[..room], DashOrDot);
      if cut == "" then "workspace" else cut
  }

  lemma NameShape(baseName: string, scopeHash: string, suffix: string)
    requires |scopeHash| == 8 && Trimmed(scopeHash) && |suffix| <= |ROLE_SUFFIX|
    ensures var base, tail := TrimSpace(baseName), "-" + scopeHash + suffix;
            ScopedName(baseName, scopeHash, suffix) == if base == "" then None else Some(Prefix(base, MAX_NAME - |tail|) + tail)
  {
    hide Trim, TrimSpace;
    var base, tail := TrimSpace(baseName), "-" + scopeHash + suffix;
    TrimMeaning(scopeHash);
    if |base| > MAX_NAME - |tail| {
      TrimByMeaning(base[..MAX_NAME - |tail|], DashOrDot);
    }
    assert Prefix(base, MAX_NAME - |tail|) + "-" + scopeHash + suffix == Prefix(base, MAX_NAME - |tail|) + tail;
  }

  lemma PrefixMeaning(base: string, room: nat)
    requires base != "" && room >= 9
    ensures var p := Prefix(base, room);
            && 1 <= |p| <= room
            && (|base| <= room ==> p == base)
            && (|base| > room ==> ShortBase(base, room, p) && !DashOrDot(p[0]))
  {
    hide Trim;
    if |base| > room {
      var short := base[..room];
      TrimByMeaning(short, DashOrDot);
      var i, j :| Surrounds(short, i, j, DashOrDot) && short[i..j] == Trim(short, DashOrDot);
      assert short[i..j] == base[i..j];
    }
  }

  /** What is left of a base name cut to `room` bytes: all of it but outer dashes and dots, or a
      stand-in when nothing else is there. */
  ghost predicate ShortBase(base: string, room: int, prefix: string) {
    && 0 < room < |base|
    && exists i, j :: Surrounds(base[..room], i, j, DashOrDot) &&
                      prefix == if i == j then "workspace" else base[i..j]
  }

  predicate EndsWith(s: string, tail: string) {
    |tail| <= |s| && s[|s| - |tail|..] == tail
  }

  /** Control planes with different scope hashes never use the same object name. */
  lemma ScopesDoNotMeet(base1: string, base2: string, hash1: string, hash2: string, suffix: string)
    requires |hash1| == 8 && |hash2| == 8 && Trimmed(hash1) && Trimmed(hash2) && |suffix| <= |ROLE_SUFFIX|
    requires ScopedName(base1, hash1, suffix).Some? && ScopedName(base1, hash1, suffix) == ScopedName(base2, hash2, suffix)
    ensures hash1 == hash2
  {
    ScopedNameMeaning(base1, hash1, suffix);
    ScopedNameMeaning(base2, hash2, suffix);
    var t1, t2 := "-" + hash1 + suffix, "-" + hash2 + suffix;
    assert t1[1..9] == hash1 && t2[1..9] == hash2;
  }
}
