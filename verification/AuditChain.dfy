/** The per-project hash chain, its purge anchors and its verification (pkg/store/memory.go). */
module AuditChain {
  import opened Domain
  import opened AuditHash
  import opened Seqs

  // `logs` is newest first and mixes all projects; an anchor is the hash of the last purged entry.
  datatype Ledger = Ledger(logs: seq<AuditEntry>, anchors: map<string, string>)

  const EMPTY := Ledger([], map[])

  function InProject(p: string): AuditEntry -> bool {
    (e: AuditEntry) => e.projectId == p
  }

  function Expired(p: string, before: int): AuditEntry -> bool {
    (e: AuditEntry) => e.projectId == p && e.timestamp < before
  }

  function Kept(p: string, before: int): AuditEntry -> bool {
    (e: AuditEntry) => !(e.projectId == p && e.timestamp < before)
  }

  function ForProject(l: Ledger, p: string): seq<AuditEntry> {
    Filter(InProject(p), l.logs)
  }

  function Base(l: Ledger, p: string): string {
    if p in l.anchors && l.anchors[p] != "" then l.anchors[p] else GENESIS
  }

  function FindEntry(logs: seq<AuditEntry>, id: string, p: string): Option<AuditEntry> {
    if logs == [] then None
    else if logs[0].id == id && logs[0].projectId == p then Some(logs[0])
    else FindEntry(logs[1..], id, p)
  }

  // ----- appendAuditLogLocked -----

  function Stamped(e: AuditEntry, now: int): AuditEntry {
    e.(projectId := ProjectOrDefault(e.projectId),
       timestamp := if e.timestamp == ZERO_TIME then now else e.timestamp)
  }

  predicate Hashed(e: AuditEntry) {
    e.prevHash != "" && e.entryHash != ""
  }

  function NewestHash(l: Ledger, p: string): string {
    var es := ForProject(l, p);
    if es != [] && es[0].entryHash != "" then es[0].entryHash else Base(l, p)
  }

  function Linked(h: Hasher, l: Ledger, e: AuditEntry): AuditEntry {
    if Hashed(e) then e
    else
      var prev := NewestHash(l, e.projectId);
      e.(prevHash := prev, entryHash := ComputeAuditEntryHash(h, prev, e))
  }

  function Append(h: Hasher, l: Ledger, e: AuditEntry, now: int): (Ledger, AuditEntry) {
    var e' := Linked(h, l, Stamped(e, now));
    match FindEntry(l.logs, e'.id, e'.projectId)
    case Some(known) => (l, known)
    case None => (l.(logs := [e'] + l.logs), e')
  }

  // ----- PurgeAuditLogs -----

  function FirstHash(es: seq<AuditEntry>): string {
    if es == [] then "" else if es[0].entryHash != "" then es[0].entryHash else FirstHash(es[1..])
  }

  function Purge(l: Ledger, p: string, before: int): (Ledger, nat) {
    var gone := Filter(Expired(p, before), l.logs);
    var anchor := FirstHash(gone);
    (Ledger(Filter(Kept(p, before), l.logs),
            if gone != [] && anchor != "" then l.anchors[p := anchor] else l.anchors),
     |gone|)
  }

  // ----- VerifyAuditLogIntegrity -----

  datatype IntegrityResult = IntegrityResult(valid: bool, total: nat, head: string, brokenId: string)

  /** What one entry must satisfy: its own hash, and its link to the next older entry or to the base. */
  predicate LinkOk(h: Hasher, es: seq<AuditEntry>, base: string, i: nat)
    requires i < |es|
  {
    && es[i].entryHash == ComputeAuditEntryHash(h, es[i].prevHash, es[i])
    && if i + 1 < |es| then es[i].prevHash == es[i + 1].entryHash
       else es[i].prevHash == base || es[i].prevHash == GENESIS
  }

  ghost predicate ChainOk(h: Hasher, es: seq<AuditEntry>, base: string) {
    forall i :: 0 <= i < |es| ==> LinkOk(h, es, base, i)
  }

  function HeadHash(es: seq<AuditEntry>): string {
    if es == [] then "" else es[0].entryHash
  }

  /** The report on a chain: valid exactly when every link holds, and otherwise the oldest broken one. */
  ghost predicate Reports(h: Hasher, es: seq<AuditEntry>, base: string, r: IntegrityResult) {
    && (r.valid <==> ChainOk(h, es, base))
    && (r.valid ==> r.total == |es| && r.head == HeadHash(es) && r.brokenId == "")
    && (!r.valid ==>
      && r.total < |es|
      && r.head == ""
      && r.brokenId == es[|es| - 1 - r.total].id
      && !LinkOk(h, es, base, |es| - 1 - r.total)
      && forall i :: |es| - r.total <= i < |es| ==> LinkOk(h, es, base, i))
  }

  // ----- What every run keeps -----

  predicate StrictLink(h: Hasher, es: seq<AuditEntry>, base: string, i: nat)
    requires i < |es|
  {
    && Hashed(es[i])
    && es[i].entryHash == ComputeAuditEntryHash(h, es[i].prevHash, es[i])
    && es[i].prevHash == if i + 1 < |es| then es[i + 1].entryHash else base
  }

  ghost predicate Strict(h: Hasher, es: seq<AuditEntry>, base: string) {
    forall i :: 0 <= i < |es| ==> StrictLink(h, es, base, i)
  }

  ghost predicate NewestFirst(es: seq<AuditEntry>) {
    forall i, j :: 0 <= i < j < |es| ==> es[i].timestamp >= es[j].timestamp
  }

  ghost predicate Sound(h: Hasher, l: Ledger, p: string) {
    && Strict(h, ForProject(l, p), Base(l, p))
    && NewestFirst(ForProject(l, p))
  }

  // The clock has not gone back, for this project, since its newest surviving entry.
  ghost predicate NotEarlier(l: Ledger, p: string, t: int) {
    ForProject(l, p) != [] ==> t >= ForProject(l, p)[0].timestamp
  }

  lemma {:induction false} SoundVerifies(h: Hasher, l: Ledger, p: string)
    requires Sound(h, l, p)
    ensures ChainOk(h, ForProject(l, p), Base(l, p))
  {
    var es := ForProject(l, p);
    forall i | 0 <= i < |es| ensures LinkOk(h, es, Base(l, p), i) {
      assert StrictLink(h, es, Base(l, p), i);
    }
  }

  lemma {:induction false} AppendShape(h: Hasher, l: Ledger, e: AuditEntry, now: int, q: string)
    ensures var (l', e') := Append(h, l, e, now); var p := Stamped(e, now).projectId;
            && l'.anchors == l.anchors
            && ForProject(l', q) ==
               if q == p && FindEntry(l.logs, e.id, p) == None then [e'] + ForProject(l, q) else ForProject(l, q)
  {
    var (l', e') := Append(h, l, e, now);
    if FindEntry(l.logs, e.id, Stamped(e, now).projectId) == None {
      FilterCat(InProject(q), [e'], l.logs);
      assert [e'][..0] == [];
    }
  }

  // A dated entry of a named project whose ID is new there.
  lemma {:induction false} AppendNew(h: Hasher, l: Ledger, e: AuditEntry, now: int, q: string)
    requires e.projectId != "" && e.timestamp != ZERO_TIME && FindEntry(l.logs, e.id, e.projectId) == None
    ensures var (l', e') := Append(h, l, e, now);
            && l' == Ledger([e'] + l.logs, l.anchors)
            && e' == e.(prevHash := e'.prevHash, entryHash := e'.entryHash)
            && ForProject(l', q) == if q == e.projectId then [e'] + ForProject(l, q) else ForProject(l, q)
  {
    AppendShape(h, l, e, now, q);
  }

  lemma {:induction false} StrictCons(h: Hasher, es: seq<AuditEntry>, base: string, e: AuditEntry)
    requires Strict(h, es, base) && StrictLink(h, [e] + es, base, 0)
    ensures Strict(h, [e] + es, base)
  {
    forall i | 0 <= i < |es| + 1 ensures StrictLink(h, [e] + es, base, i) {
      assert i > 0 ==> StrictLink(h, es, base, i - 1);
    }
  }

  /** An unhashed entry extends its own project's chain by one when its ID is new, and changes no other. */
  lemma {:induction false} AppendKeepsSound(h: Hasher, l: Ledger, e: AuditEntry, now: int, q: string)
    requires HexDigests(h) && !Hashed(e) && Sound(h, l, q)
    requires NotEarlier(l, Stamped(e, now).projectId, Stamped(e, now).timestamp)
    ensures var (l', e') := Append(h, l, e, now); var p := Stamped(e, now).projectId;
            && Sound(h, l', q)
            && Base(l', q) == Base(l, q)
            && ForProject(l', q) ==
               if q == p && FindEntry(l.logs, e.id, p) == None then [e'] + ForProject(l, q) else ForProject(l, q)
  {
    AppendShape(h, l, e, now, q);
    var (l', e') := Append(h, l, e, now);
    var es := ForProject(l, q);
    if ForProject(l', q) != es {
      assert es != [] ==> StrictLink(h, es, Base(l, q), 0);
      StrictCons(h, es, Base(l, q), e');
    }
  }

  lemma {:induction false} PurgeFilters(l: Ledger, p: string, before: int, q: string)
    ensures var (l', n) := Purge(l, p, before);
            && ForProject(l', q) == Filter(Kept(p, before), ForProject(l, q))
            && (q != p ==> ForProject(l', q) == ForProject(l, q) && Base(l', q) == Base(l, q))
            && Filter(Expired(p, before), l.logs) == Filter(Expired(p, before), ForProject(l, p))
  {
    FilterCommute(InProject(q), Kept(p, before), l.logs);
    var es := ForProject(l, q);
    forall i | 0 <= i < |es| ensures es[i].projectId == q {
      FilterMember(InProject(q), l.logs, es[i]);
    }
    if q != p {
      FilterAll(Kept(p, before), es);
    }
    ExpiredInProject(l.logs, p, before);
  }

  lemma {:induction false} ExpiredInProject(logs: seq<AuditEntry>, p: string, before: int)
    ensures Filter(Expired(p, before), Filter(InProject(p), logs)) == Filter(Expired(p, before), logs)
  {
    FilterCommute(Expired(p, before), InProject(p), logs);
    var gone := Filter(Expired(p, before), logs);
    forall i | 0 <= i < |gone| ensures InProject(p)(gone[i]) {
      FilterMember(Expired(p, before), logs, gone[i]);
    }
    FilterAll(InProject(p), gone);
  }

  /** Position of the newest expired entry of a newest-first chain. */
  lemma {:induction false} ExpiryCut(es: seq<AuditEntry>, p: string, before: int) returns (c: nat)
    requires NewestFirst(es) && forall i :: 0 <= i < |es| ==> es[i].projectId == p
    ensures c <= |es|
    ensures Filter(Kept(p, before), es) == es[..c] && Filter(Expired(p, before), es) == es[c..]
  {
    c := 0;
    while c < |es| && es[c].timestamp >= before
      invariant c <= |es| && forall i :: 0 <= i < c ==> es[i].timestamp >= before
    {
      c := c + 1;
    }
    FilterBlock(Kept(p, before), es, 0, c);
    FilterBlock(Expired(p, before), es, c, |es|);
    assert es[0..c] == es[..c] && es[c..|es|] == es[c..];
  }

  lemma {:induction false} ProjectOnly(l: Ledger, p: string)
    ensures forall i :: 0 <= i < |ForProject(l, p)| ==> ForProject(l, p)[i].projectId == p
  {
    forall i | 0 <= i < |ForProject(l, p)| ensures ForProject(l, p)[i].projectId == p {
      FilterMember(InProject(p), l.logs, ForProject(l, p)[i]);
    }
  }

  /**
    A purge removes the oldest part of its own project's chain, moves the anchor so that what is left
    still links, lowers the verified total by exactly the purged count and changes no other project.
   */
  lemma {:induction false} PurgeKeepsSound(h: Hasher, l: Ledger, p: string, before: int, q: string)
    requires Sound(h, l, p) && Sound(h, l, q)
    ensures var (l', n) := Purge(l, p, before);
            && Sound(h, l', q)
            && (q != p ==> ForProject(l', q) == ForProject(l, q) && Base(l', q) == Base(l, q))
            && n <= |ForProject(l, p)|
            && ForProject(l', p) == ForProject(l, p)[..|ForProject(l, p)| - n]
  {
    hide Filter;
    PurgeFilters(l, p, before, q);
    PurgeFilters(l, p, before, p);
    ProjectOnly(l, p);
    var es := ForProject(l, p);
    var c := ExpiryCut(es, p, before);
    if q == p {
      CutStrict(h, es, Base(l, p), c);
    }
  }

  /** The newest part of a chain is a chain on top of the entry below it. */
  lemma {:induction false} CutStrict(h: Hasher, es: seq<AuditEntry>, base: string, c: nat)
    requires Strict(h, es, base) && c <= |es|
    ensures Strict(h, es[..c], if c < |es| then es[c].entryHash else base)
    ensures c < |es| ==> FirstHash(es[c..]) == es[c].entryHash != ""
  {
    var top, base' := es[..c], if c < |es| then es[c].entryHash else base;
    forall i | 0 <= i < c ensures StrictLink(h, top, base', i) {
      assert StrictLink(h, es, base, i);
    }
    assert c < |es| ==> StrictLink(h, es, base, c);
  }

  // ----- The shape of the log -----

  predicate DistinctIds(es: seq<AuditEntry>) {
    forall i, j :: 0 <= i < j < |es| ==> es[i].id != es[j].id
  }

  // Every entry has a project, a date and both hashes.
  predicate Settled(es: seq<AuditEntry>) {
    forall i :: 0 <= i < |es| ==> es[i].projectId != "" && es[i].timestamp != ZERO_TIME && Hashed(es[i])
  }

  /** What appending leaves behind: settled entries, and no ID twice within a project. */
  ghost predicate Shaped(l: Ledger) {
    Settled(l.logs) && forall p :: DistinctIds(ForProject(l, p))
  }

  lemma {:induction false} FilterDistinct(f: AuditEntry -> bool, es: seq<AuditEntry>)
    requires DistinctIds(es)
    ensures DistinctIds(Filter(f, es))
  {
    if es != [] {
      var init, e := es[..|es| - 1], es[|es| - 1];
      FilterDistinct(f, init);
      var fi := Filter(f, init);
      forall i | 0 <= i < |fi| ensures fi[i].id != e.id {
        FilterMember(f, init, fi[i]);
        var k :| 0 <= k < |init| && init[k] == fi[i];
        assert es[k].id != es[|es| - 1].id;
      }
    }
  }

  lemma {:induction false} FilterSettled(f: AuditEntry -> bool, es: seq<AuditEntry>)
    requires Settled(es)
    ensures Settled(Filter(f, es))
  {
    var fs := Filter(f, es);
    forall i | 0 <= i < |fs| ensures fs[i].projectId != "" && fs[i].timestamp != ZERO_TIME && Hashed(fs[i]) {
      FilterMember(f, es, fs[i]);
    }
  }

  lemma {:induction false} NotFoundIfNew(logs: seq<AuditEntry>, id: string, p: string)
    requires forall e :: e in logs ==> e.id != id
    ensures FindEntry(logs, id, p) == None
  {
    if logs != [] {
      assert logs[0] in logs && forall e :: e in logs[1..] ==> e in logs;
      NotFoundIfNew(logs[1..], id, p);
    }
  }

  lemma {:induction false} UnfoundIsNew(logs: seq<AuditEntry>, id: string, p: string)
    requires FindEntry(logs, id, p) == None
    ensures forall e :: e in logs && e.projectId == p ==> e.id != id
  {
    if logs != [] {
      UnfoundIsNew(logs[1..], id, p);
      assert forall e :: e in logs ==> e == logs[0] || e in logs[1..];
    }
  }

  /** Appending any entry at a known time keeps the shape. */
  lemma {:induction false} AppendKeepsShape(h: Hasher, l: Ledger, e: AuditEntry, now: int)
    requires HexDigests(h) && Shaped(l) && now != ZERO_TIME
    ensures Shaped(Append(h, l, e, now).0)
  {
    hide Settled;
    var (l', e') := Append(h, l, e, now);
    var p := Stamped(e, now).projectId;
    if FindEntry(l.logs, e.id, p) == None {
      UnfoundIsNew(l.logs, e.id, p);
      LinkedSettled(h, l, Stamped(e, now));
      SettledCons(e', l.logs);
      forall q ensures DistinctIds(ForProject(l', q)) {
        AppendShape(h, l, e, now, q);
        var es := ForProject(l, q);
        assert DistinctIds(es);
        forall i | 0 <= i < |es| && q == p ensures es[i].id != e'.id {
          FilterMember(InProject(q), l.logs, es[i]);
        }
      }
    }
  }

  lemma {:induction false} SettledCons(e: AuditEntry, es: seq<AuditEntry>)
    requires Settled(es) && e.projectId != "" && e.timestamp != ZERO_TIME && Hashed(e)
    ensures Settled([e] + es)
  {
  }

  lemma {:induction false} LinkedSettled(h: Hasher, l: Ledger, e: AuditEntry)
    requires HexDigests(h)
    ensures Hashed(Linked(h, l, e)) && Linked(h, l, e).id == e.id
    ensures Linked(h, l, e).projectId == e.projectId && Linked(h, l, e).timestamp == e.timestamp
  {
  }

  lemma {:induction false} PurgeKeepsShape(l: Ledger, p: string, before: int)
    requires Shaped(l)
    ensures Shaped(Purge(l, p, before).0)
  {
    FilterSettled(Kept(p, before), l.logs);
    forall q ensures DistinctIds(ForProject(Purge(l, p, before).0, q)) {
      PurgeFilters(l, p, before, q);
      assert DistinctIds(ForProject(l, q));
      FilterDistinct(Kept(p, before), ForProject(l, q));
    }
  }
}
