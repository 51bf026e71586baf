/** What the hash chain is for: equal heads mean equal histories, and exactly which purges keep it valid. */
module AuditTheorems {
  import opened Domain
  import opened Text
  import opened AuditHash
  import opened Seqs
  import opened AuditChain

  ghost predicate GoodHasher(h: Hasher) {
    HexDigests(h) && CollisionFree(h) && FaithfulClock(h)
  }

  // What a base always is: the genesis marker or a digest.
  predicate BaseText(base: string) {
    base != "" && Free('|', base)
  }

  predicate AllNoBars(es: seq<AuditEntry>) {
    forall i :: 0 <= i < |es| ==> NoBars(es[i])
  }

  predicate AllBarFree(es: seq<AuditEntry>) {
    forall i :: 0 <= i < |es| ==> BarFree(es[i])
  }

  // One of the logs has no bars at all, or neither has one outside its details.
  predicate Telling(a: seq<AuditEntry>, b: seq<AuditEntry>) {
    AllNoBars(a) || AllNoBars(b) || (AllBarFree(a) && AllBarFree(b))
  }

  // ----- Tamper evidence -----

  lemma {:induction false} LinkedToSomething(h: Hasher, es: seq<AuditEntry>, base: string, i: nat)
    requires HexDigests(h) && ChainOk(h, es, base) && BaseText(base) && i < |es|
    ensures BaseText(es[i].prevHash)
  {
    assert LinkOk(h, es, base, i);
    assert i + 1 < |es| ==> LinkOk(h, es, base, i + 1);
  }

  lemma {:induction false} PayloadDecides(h: Hasher, x: AuditEntry, y: AuditEntry)
    requires FaithfulClock(h) && BaseText(x.prevHash) && BaseText(y.prevHash)
    requires Payload(h, x.prevHash, x) == Payload(h, y.prevHash, y)
    requires NoBars(x) || NoBars(y) || (BarFree(x) && BarFree(y))
    ensures x.prevHash == y.prevHash && SameContent(x, y)
  {
    AmbiguousIff(h, x);
    AmbiguousIff(h, y);
    assert NoBars(x) ==> !Doubles(h, x, y);
    assert NoBars(y) ==> !Doubles(h, y, x);
    if BarFree(x) && BarFree(y) {
      PayloadInjective(h, x, y);
    }
  }

  lemma {:induction false} AgreeAt(
    h: Hasher, a: seq<AuditEntry>, baseA: string, b: seq<AuditEntry>, baseB: string, i: nat)
    requires GoodHasher(h) && Telling(a, b) && BaseText(baseA) && BaseText(baseB)
    requires ChainOk(h, a, baseA) && ChainOk(h, b, baseB)
    requires i < |a| <= |b| && HeadHash(a) == HeadHash(b)
    ensures a[i] == b[i]
  {
    hide Payload;
    assert LinkOk(h, a, baseA, i) && LinkOk(h, b, baseB, i);
    if i > 0 {
      AgreeAt(h, a, baseA, b, baseB, i - 1);
      assert LinkOk(h, a, baseA, i - 1) && LinkOk(h, b, baseB, i - 1);
    }
    assert a[i].entryHash == b[i].entryHash;
    LinkedToSomething(h, a, baseA, i);
    LinkedToSomething(h, b, baseB, i);
    PayloadDecides(h, a[i], b[i]);
  }

  /**
    Two chains that verify with the same head: the shorter is the newest part of the longer. It is enough
    that one of them, whichever, holds no bars; the other may be anybody's forgery.
   */
  lemma {:induction false} SameHeadSameHistory(
    h: Hasher, a: seq<AuditEntry>, baseA: string, b: seq<AuditEntry>, baseB: string)
    requires GoodHasher(h) && Telling(a, b) && BaseText(baseA) && BaseText(baseB)
    requires ChainOk(h, a, baseA) && ChainOk(h, b, baseB)
    requires |a| <= |b| && HeadHash(a) == HeadHash(b)
    ensures a == b[..|a|]
  {
    forall i | 0 <= i < |a| ensures a[i] == b[i] {
      AgreeAt(h, a, baseA, b, baseB, i);
    }
  }

  lemma {:induction false} GenesisIsBase()
    ensures BaseText(GENESIS)
  {
    assert forall i :: 0 <= i < |GENESIS| ==> GENESIS[i] != '|';
  }

  /** Two chains that both go back to the genesis marker and have the same head are the same chain. */
  lemma {:induction false} SameHeadSameChain(h: Hasher, a: seq<AuditEntry>, b: seq<AuditEntry>)
    requires GoodHasher(h) && Telling(a, b)
    requires ChainOk(h, a, GENESIS) && ChainOk(h, b, GENESIS)
    requires HeadHash(a) == HeadHash(b)
    ensures a == b
    decreases |b| < |a|
  {
    if |b| < |a| {
      SameHeadSameChain(h, b, a);
    } else {
      GenesisIsBase();
      SameHeadSameHistory(h, a, GENESIS, b, GENESIS);
      var n := |a|;
      if n > 0 {
        assert LinkOk(h, a, GENESIS, n - 1) && LinkOk(h, b, GENESIS, n - 1);
        assert n < |b| ==> LinkOk(h, b, GENESIS, n);
      } else {
        assert b != [] ==> LinkOk(h, b, GENESIS, 0);
      }
    }
  }

  // Another chain of the same length that verifies on the same base with the same head.
  ghost predicate Forges(h: Hasher, a: seq<AuditEntry>, base: string, b: seq<AuditEntry>) {
    |b| == |a| && b != a && ChainOk(h, b, base) && HeadHash(b) == HeadHash(a)
  }

  // A bar in one entry lets that entry be rewritten under its own hash.
  lemma {:induction false} ForgeAt(h: Hasher, a: seq<AuditEntry>, base: string, i: nat) returns (b: seq<AuditEntry>)
    requires ChainOk(h, a, base) && i < |a| && !NoBars(a[i])
    ensures Forges(h, a, base, b)
  {
    hide Payload;
    var other := ShiftedEntry(h, a[i]);
    var x := other.(entryHash := a[i].entryHash);
    assert Payload(h, a[i].prevHash, x) == Payload(h, a[i].prevHash, other) by { SamePayload(h, x, other); }
    b := a[i := x];
    assert LinkOk(h, a, base, i);
    forall j | 0 <= j < |b| ensures LinkOk(h, b, base, j) {
      assert LinkOk(h, a, base, j);
    }
  }

  lemma {:induction false} SamePayload(h: Hasher, x: AuditEntry, y: AuditEntry)
    requires SameContent(x, y)
    ensures Payload(h, x.prevHash, x) == Payload(h, x.prevHash, y)
  {
  }

  /** The exact strength of the head hash: a verifying chain can be forged under it iff an entry holds a bar. */
  lemma {:induction false} ForgeableIff(h: Hasher, a: seq<AuditEntry>, base: string)
    requires GoodHasher(h) && ChainOk(h, a, base) && BaseText(base)
    ensures (exists b :: Forges(h, a, base, b)) <==> exists i :: 0 <= i < |a| && !NoBars(a[i])
  {
    if i :| 0 <= i < |a| && !NoBars(a[i]) {
      var b := ForgeAt(h, a, base, i);
    } else {
      forall b | |b| == |a| && ChainOk(h, b, base) && HeadHash(b) == HeadHash(a) ensures b == a {
        SameHeadSameHistory(h, a, base, b, base);
        assert b[..|a|] == b;
      }
    }
  }

  // ----- Exactly which purges keep a chain valid -----

  // No hash occurs twice along the chain, and none is the base or the genesis marker.
  ghost predicate DistinctHashes(es: seq<AuditEntry>, base: string) {
    && (forall i, j :: 0 <= i < j < |es| ==> es[i].entryHash != es[j].entryHash)
    && (forall i :: 0 <= i < |es| ==> es[i].entryHash != base && es[i].entryHash != GENESIS)
  }

  /** The chain is what is left of one that goes back to the genesis marker, cut at its base. */
  ghost predicate FromGenesis(h: Hasher, es: seq<AuditEntry>, base: string) {
    exists older :: CutFrom(h, es, base, older)
  }

  ghost predicate CutFrom(h: Hasher, es: seq<AuditEntry>, base: string, older: seq<AuditEntry>) {
    Strict(h, es + older, GENESIS) && base == if older == [] then GENESIS else older[0].entryHash
  }

  // Equal hashes would be followed down to the base and meet the genesis marker there.
  lemma {:induction false} NoHashTwice(h: Hasher, es: seq<AuditEntry>, i: nat, j: nat)
    requires HexDigests(h) && CollisionFree(h) && Strict(h, es, GENESIS) && i < j < |es|
    ensures es[i].entryHash != es[j].entryHash
    decreases |es| - j
  {
    hide Joined;
    assert StrictLink(h, es, GENESIS, i) && StrictLink(h, es, GENESIS, j) && StrictLink(h, es, GENESIS, i + 1);
    if es[i].entryHash == es[j].entryHash {
      GenesisIsBase();
      assert j + 1 < |es| ==> StrictLink(h, es, GENESIS, j + 1);
      SamePredecessor(h, es[i], es[j]);
      if j + 1 < |es| {
        NoHashTwice(h, es, i + 1, j + 1);
      }
    }
  }

  lemma {:induction false} SamePredecessor(h: Hasher, x: AuditEntry, y: AuditEntry)
    requires CollisionFree(h) && BaseText(x.prevHash) && BaseText(y.prevHash)
    requires ComputeAuditEntryHash(h, x.prevHash, x) == ComputeAuditEntryHash(h, y.prevHash, y)
    ensures x.prevHash == y.prevHash
  {
    var px, py := Payload(h, x.prevHash, x), Payload(h, y.prevHash, y);
    assert px == py;
    assert px[|x.prevHash| + 1..] == px[|x.prevHash| + 1..];
    SplitAtFirst('|', x.prevHash, px[|x.prevHash| + 1..], y.prevHash, py[|y.prevHash| + 1..]);
  }

  /** A chain that comes from the genesis marker is strict and repeats no hash. */
  lemma {:induction false} FromGenesisDistinct(h: Hasher, es: seq<AuditEntry>, base: string)
    requires HexDigests(h) && CollisionFree(h) && FromGenesis(h, es, base)
    ensures Strict(h, es, base) && DistinctHashes(es, base)
  {
    var older :| CutFrom(h, es, base, older);
    var all := es + older;
    forall i, j | 0 <= i < j < |all| ensures all[i].entryHash != all[j].entryHash {
      NoHashTwice(h, all, i, j);
    }
    forall i | 0 <= i < |es| ensures StrictLink(h, es, base, i) {
      assert StrictLink(h, all, GENESIS, i);
    }
    assert older != [] ==> all[|es|] == older[0];
    forall i | 0 <= i < |es| ensures es[i].entryHash != base && es[i].entryHash != GENESIS {
      assert StrictLink(h, all, GENESIS, i) && all[i] == es[i];
      assert es[i].entryHash == h.sha(Payload(h, es[i].prevHash, es[i]));
      assert older != [] ==> all[i].entryHash != all[|es|].entryHash;
    }
    forall i, j | 0 <= i < j < |es| ensures es[i].entryHash != es[j].entryHash {
      assert all[i] == es[i] && all[j] == es[j];
    }
  }

  lemma {:induction false} EmptyFromGenesis(h: Hasher, p: string)
    ensures FromGenesis(h, ForProject(EMPTY, p), Base(EMPTY, p))
  {
    assert ForProject(EMPTY, p) + [] == [];
    assert CutFrom(h, ForProject(EMPTY, p), Base(EMPTY, p), []);
  }

  /** Appending an unhashed entry, dated however, keeps every chain cut from one that goes back to genesis. */
  lemma {:induction false} AppendFromGenesis(h: Hasher, l: Ledger, e: AuditEntry, now: int, q: string)
    requires HexDigests(h) && !Hashed(e) && FromGenesis(h, ForProject(l, q), Base(l, q))
    ensures var l' := Append(h, l, e, now).0; FromGenesis(h, ForProject(l', q), Base(l', q))
  {
    hide FromGenesis;
    AppendShape(h, l, e, now, q);
    var (l', e') := Append(h, l, e, now);
    if ForProject(l', q) != ForProject(l, q) {
      assert e' == Linked(h, l, Stamped(e, now));
      GrowFromGenesis(h, ForProject(l, q), Base(l, q), e');
    }
  }

  lemma {:induction false} GrowFromGenesis(h: Hasher, es: seq<AuditEntry>, base: string, e: AuditEntry)
    requires HexDigests(h) && FromGenesis(h, es, base)
    requires e.entryHash == ComputeAuditEntryHash(h, e.prevHash, e)
    requires e.prevHash == if es != [] && es[0].entryHash != "" then es[0].entryHash else base
    ensures FromGenesis(h, [e] + es, base)
  {
    var older :| CutFrom(h, es, base, older);
    var all := es + older;
    assert all != [] ==> StrictLink(h, all, GENESIS, 0);
    assert StrictLink(h, [e] + all, GENESIS, 0);
    StrictCons(h, all, GENESIS, e);
    assert [e] + all == [e] + es + older;
    assert CutFrom(h, [e] + es, base, older);
  }

  // The purge takes away the oldest part of the project's chain, possibly nothing or all.
  ghost predicate PurgesOldest(l: Ledger, p: string, before: int) {
    exists c :: 0 <= c <= |ForProject(l, p)| && Block(ForProject(l, p), before, 0, c)
  }

  lemma {:induction false} PurgeFromGenesis(h: Hasher, l: Ledger, p: string, before: int, q: string)
    requires HexDigests(h) && FromGenesis(h, ForProject(l, q), Base(l, q)) && PurgesOldest(l, p, before)
    ensures var l' := Purge(l, p, before).0; FromGenesis(h, ForProject(l', q), Base(l', q))
  {
    hide FromGenesis;
    hide Filter;
    hide FirstHash;
    PurgeFilters(l, p, before, q);
    if q == p {
      var es, base := ForProject(l, p), Base(l, p);
      var c :| 0 <= c <= |es| && Block(es, before, 0, c);
      ProjectOnly(l, p);
      OldestGone(es, p, before, c);
      CutFromGenesis(h, es, base, c);
    }
  }

  lemma {:induction false} OldestGone(es: seq<AuditEntry>, p: string, before: int, c: nat)
    requires c <= |es| && Block(es, before, 0, c) && forall i :: 0 <= i < |es| ==> es[i].projectId == p
    ensures Filter(Kept(p, before), es) == es[..c] && Filter(Expired(p, before), es) == es[c..]
  {
    FilterBlock(Kept(p, before), es, 0, c);
    FilterBlock(Expired(p, before), es, c, |es|);
    assert es[0..c] == es[..c] && es[c..|es|] == es[c..];
  }

  lemma {:induction false} CutFromGenesis(h: Hasher, es: seq<AuditEntry>, base: string, c: nat)
    requires HexDigests(h) && FromGenesis(h, es, base) && c <= |es|
    ensures FromGenesis(h, es[..c], if c < |es| then es[c].entryHash else base)
    ensures c < |es| ==> FirstHash(es[c..]) == es[c].entryHash != ""
  {
    var older :| CutFrom(h, es, base, older);
    assert es[..c] + (es[c..] + older) == es + older;
    assert c < |es| ==> StrictLink(h, es + older, GENESIS, c);
    assert CutFrom(h, es[..c], if c < |es| then es[c].entryHash else base, es[c..] + older);
  }

  // The survivors are one block of the chain.
  ghost predicate Block(es: seq<AuditEntry>, before: int, a: nat, b: nat)
    requires a <= b <= |es|
  {
    && (forall i :: a <= i < b ==> es[i].timestamp >= before)
    && (forall i :: 0 <= i < a || b <= i < |es| ==> es[i].timestamp < before)
  }

  /**
    The condition on timestamps alone: the survivors (possibly none) are the newest block of the chain,
    or they are its oldest block and the chain still goes back to the genesis marker.
   */
  ghost predicate PurgeSafe(es: seq<AuditEntry>, base: string, before: int) {
    || (exists c :: 0 <= c <= |es| && Block(es, before, 0, c))
    || (base == GENESIS && exists c :: 0 <= c <= |es| && Block(es, before, c, |es|))
  }

  lemma {:induction false} FirstHashOf(es: seq<AuditEntry>)
    requires es != [] && Hashed(es[0])
    ensures FirstHash(es) == es[0].entryHash
  {
  }

  ghost function NewBase(es: seq<AuditEntry>, base: string, p: string, before: int): string {
    var gone := Filter(Expired(p, before), es);
    if gone != [] && FirstHash(gone) != "" then FirstHash(gone) else base
  }

  /** A surviving block: where its oldest entry points, and where the new anchor is. */
  lemma {:induction false} BlockValid(
    h: Hasher, es: seq<AuditEntry>, base: string, p: string, before: int, a: nat, b: nat)
    requires Strict(h, es, base) && DistinctHashes(es, base)
    requires forall i :: 0 <= i < |es| ==> es[i].projectId == p
    requires a < b <= |es| && Block(es, before, a, b)
    ensures ChainOk(h, Filter(Kept(p, before), es), NewBase(es, base, p, before)) <==>
            a == 0 || (b == |es| && base == GENESIS)
  {
    FilterBlock(Kept(p, before), es, a, b);
    var kept, base' := es[a..b], NewBase(es, base, p, before);
    NewestGone(h, es, base, p, before, a, b);
    assert StrictLink(h, es, base, b - 1);
    forall i | 0 <= i < |kept| ensures LinkOk(h, kept, base', i) <==>
        (i + 1 < |kept| || es[b - 1].prevHash == base' || es[b - 1].prevHash == GENESIS)
    {
      assert StrictLink(h, es, base, a + i);
    }
    assert ChainOk(h, kept, base') <==> LinkOk(h, kept, base', |kept| - 1);
  }

  lemma {:induction false} NewestGone(
    h: Hasher, es: seq<AuditEntry>, base: string, p: string, before: int, a: nat, b: nat)
    requires Strict(h, es, base)
    requires forall i :: 0 <= i < |es| ==> es[i].projectId == p
    requires a < b <= |es| && Block(es, before, a, b)
    ensures NewBase(es, base, p, before) ==
            if a > 0 then es[0].entryHash else if b < |es| then es[b].entryHash else base
  {
    var gone := Filter(Expired(p, before), es);
    FilterOutside(Expired(p, before), es, a, b);
    if gone != [] {
      assert StrictLink(h, es, base, if a > 0 then 0 else b);
      FirstHashOf(gone);
    }
  }

  /** In a valid surviving chain nothing older survives behind a purged entry that follows a survivor. */
  lemma {:induction false} NoGap(h: Hasher, es: seq<AuditEntry>, base: string, p: string, before: int, i: nat, j: nat)
    requires Strict(h, es, base) && DistinctHashes(es, base)
    requires forall k :: 0 <= k < |es| ==> es[k].projectId == p
    requires ChainOk(h, Filter(Kept(p, before), es), NewBase(es, base, p, before))
    requires i + 1 < j < |es| && es[i].timestamp >= before && es[i + 1].timestamp < before
    ensures es[j].timestamp < before
  {
    hide Filter;
    hide ComputeAuditEntryHash;
    var f := Kept(p, before);
    var newer, older := Filter(f, es[..i]), Filter(f, es[i + 2..]);
    FilterStep(f, es, i);
    var kept := Filter(f, es);
    assert StrictLink(h, es, base, i) && es[i].prevHash == es[i + 1].entryHash;
    forall x | x in es[i + 2..] ensures x.entryHash != es[i + 1].entryHash {
      var k :| 0 <= k < |es| - i - 2 && es[i + 2..][k] == x;
      assert x == es[i + 2 + k];
    }
    if older != [] {
      assert LinkOk(h, kept, NewBase(es, base, p, before), |newer|);
      assert kept[|newer|] == es[i] && kept[|newer| + 1] == older[0];
      FilterMember(f, es[i + 2..], older[0]);
      assert false;
    }
    FilterMember(f, es[i + 2..], es[j]);
    assert es[j] == es[i + 2..][j - i - 2];
  }

  /** Survivors that verify form one block. */
  lemma {:induction false} SurvivorsAreABlock(h: Hasher, es: seq<AuditEntry>, base: string, p: string, before: int)
    returns (a: nat, b: nat)
    requires Strict(h, es, base) && DistinctHashes(es, base)
    requires forall k :: 0 <= k < |es| ==> es[k].projectId == p
    requires ChainOk(h, Filter(Kept(p, before), es), NewBase(es, base, p, before))
    ensures a <= b <= |es| && Block(es, before, a, b) && (a == b ==> a == |es|)
  {
    a := 0;
    while a < |es| && es[a].timestamp < before
      invariant a <= |es| && forall i :: 0 <= i < a ==> es[i].timestamp < before
    {
      a := a + 1;
    }
    b := a;
    while b < |es| && es[b].timestamp >= before
      invariant a <= b <= |es| && forall i :: a <= i < b ==> es[i].timestamp >= before
      invariant a < |es| ==> es[a].timestamp >= before
    {
      b := b + 1;
    }
    forall j | b <= j < |es| ensures es[j].timestamp < before {
      if j > b {
        NoGap(h, es, base, p, before, b - 1, j);
      }
    }
  }

  /**
    For a chain that comes from the genesis marker, a purge at any time leaves a log that verifies if and
    only if the timestamps put the survivors in one of the blocks named by PurgeSafe.
   */
  lemma {:induction false} PurgeValidIff(h: Hasher, l: Ledger, p: string, before: int)
    requires HexDigests(h) && CollisionFree(h) && FromGenesis(h, ForProject(l, p), Base(l, p))
    ensures var l' := Purge(l, p, before).0;
            ChainOk(h, ForProject(l', p), Base(l', p)) <==> PurgeSafe(ForProject(l, p), Base(l, p), before)
  {
    FromGenesisDistinct(h, ForProject(l, p), Base(l, p));
    var es, base, l' := ForProject(l, p), Base(l, p), Purge(l, p, before).0;
    PurgeFilters(l, p, before, p);
    ProjectOnly(l, p);
    assert Base(l', p) == NewBase(es, base, p, before);
    var kept := Filter(Kept(p, before), es);
    if ChainOk(h, kept, Base(l', p)) {
      var a, b := SurvivorsAreABlock(h, es, base, p, before);
      if a < b {
        BlockValid(h, es, base, p, before, a, b);
      } else {
        assert Block(es, before, 0, 0);
      }
    }
    if PurgeSafe(es, base, before) {
      SafeIsValid(h, es, base, p, before);
    }
  }

  lemma {:induction false} SafeIsValid(h: Hasher, es: seq<AuditEntry>, base: string, p: string, before: int)
    requires Strict(h, es, base) && DistinctHashes(es, base) && PurgeSafe(es, base, before)
    requires forall i :: 0 <= i < |es| ==> es[i].projectId == p
    ensures ChainOk(h, Filter(Kept(p, before), es), NewBase(es, base, p, before))
  {
    if c :| 0 <= c <= |es| && Block(es, before, 0, c) {
      if c > 0 {
        BlockValid(h, es, base, p, before, 0, c);
      } else {
        FilterNone(Kept(p, before), es);
      }
    } else {
      var c :| 0 <= c <= |es| && Block(es, before, c, |es|);
      if c < |es| {
        BlockValid(h, es, base, p, before, c, |es|);
      } else {
        FilterNone(Kept(p, before), es);
      }
    }
  }

  function EntryAt(p: string, id: string, at: int): AuditEntry {
    AuditEntry(id, p, at, "ann", "FLAG_UPDATED", "checkout", "all", "", "", "")
  }

  function Recorded(h: Hasher, l: Ledger, p: string, id: string, at: int): Ledger {
    Append(h, l, EntryAt(p, id, at), at).0
  }

  lemma {:induction false} RecordedShape(h: Hasher, l: Ledger, p: string, id: string, at: int)
    requires HexDigests(h) && p != "" && at != ZERO_TIME && FromGenesis(h, ForProject(l, p), Base(l, p))
    requires forall e :: e in l.logs ==> e.id != id
    ensures var l' := Recorded(h, l, p, id, at);
            && FromGenesis(h, ForProject(l', p), Base(l', p))
            && (exists e :: ForProject(l', p) == [e] + ForProject(l, p) && e.timestamp == at)
            && (forall e :: e in l'.logs ==> e in l.logs || e.id == id)
  {
    hide FromGenesis;
    hide Append;
    NotFoundIfNew(l.logs, id, p);
    AppendFromGenesis(h, l, EntryAt(p, id, at), at, p);
    AppendNew(h, l, EntryAt(p, id, at), at, p);
  }

  /** A clock that goes back breaks the chain: entries of times 20, 10 and 30, and a purge up to 15. */
  lemma {:induction false} BackwardClockBreaksChain(h: Hasher, p: string)
    requires HexDigests(h) && CollisionFree(h) && p != ""
    ensures var l := Recorded(h, Recorded(h, Recorded(h, EMPTY, p, "1", 20), p, "2", 10), p, "3", 30);
            var l' := Purge(l, p, 15).0;
            |ForProject(l, p)| == 3 && !ChainOk(h, ForProject(l', p), Base(l', p))
  {
    hide Recorded;
    hide Filter;
    hide FromGenesis;
    var l1 := Recorded(h, EMPTY, p, "1", 20);
    var l2 := Recorded(h, l1, p, "2", 10);
    var l := Recorded(h, l2, p, "3", 30);
    EmptyFromGenesis(h, p);
    EmptyProject(p);
    RecordedShape(h, EMPTY, p, "1", 20);
    RecordedShape(h, l1, p, "2", 10);
    RecordedShape(h, l2, p, "3", 30);
    PurgeValidIff(h, l, p, 15);
    var es := ForProject(l, p);
    assert es[0].timestamp >= 15 && es[1].timestamp < 15 && es[2].timestamp >= 15;
  }

  lemma {:induction false} EmptyProject(p: string)
    ensures ForProject(EMPTY, p) == []
  {
  }
}
