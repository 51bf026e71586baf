/** The hashed payload of an audit entry (pkg/domain/audit.go). */
module AuditHash {
  import opened Domain
  import opened Text

  const GENESIS := "GENESIS"

  // SHA-256 in hexadecimal and the RFC 3339 rendering of a time are parameters of the model.
  datatype Hasher = Hasher(sha: string -> string, rfc3339: int -> string)

  function Joined(a: string, rest: string): string {
    a + ['|'] + rest
  }

  function OrGenesis(prevHash: string): string {
    if prevHash == "" then GENESIS else prevHash
  }

  function Payload(h: Hasher, prevHash: string, e: AuditEntry): string {
    Joined(OrGenesis(prevHash), Joined(e.id, Joined(e.projectId, Joined(e.flagKey, Joined(e.action,
      Joined(e.environment, Joined(e.actor, Joined(e.details, h.rfc3339(e.timestamp)))))))))
  }

  function ComputeAuditEntryHash(h: Hasher, prevHash: string, e: AuditEntry): string {
    h.sha(Payload(h, prevHash, e))
  }

  // What a hexadecimal SHA-256 digest always looks like, as far as the chain needs it.
  ghost predicate HexDigests(h: Hasher) {
    forall x :: h.sha(x) != "" && h.sha(x) != GENESIS && Free('|', h.sha(x))
  }

  ghost predicate CollisionFree(h: Hasher) {
    forall x, y :: h.sha(x) == h.sha(y) ==> x == y
  }

  // RFC 3339 text holds no bar and determines the instant.
  ghost predicate FaithfulClock(h: Hasher) {
    && (forall t :: Free('|', h.rfc3339(t)))
    && (forall t, u :: h.rfc3339(t) == h.rfc3339(u) ==> t == u)
  }

  // Every field but the free-text details is without the separator.
  predicate BarFree(e: AuditEntry) {
    && Free('|', e.prevHash) && Free('|', e.id) && Free('|', e.projectId) && Free('|', e.flagKey)
    && Free('|', e.action) && Free('|', e.environment) && Free('|', e.actor)
  }

  predicate SameContent(a: AuditEntry, b: AuditEntry) {
    a == b.(prevHash := a.prevHash, entryHash := a.entryHash)
  }

  /** The bar-joined payload is injective although the details may hold any text, bars included. */
  lemma {:induction false} PayloadInjective(h: Hasher, a: AuditEntry, b: AuditEntry)
    requires FaithfulClock(h) && BarFree(a) && BarFree(b)
    requires Payload(h, a.prevHash, a) == Payload(h, b.prevHash, b)
    ensures OrGenesis(a.prevHash) == OrGenesis(b.prevHash) && SameContent(a, b)
  {
    var a7, b7 := Joined(a.details, h.rfc3339(a.timestamp)), Joined(b.details, h.rfc3339(b.timestamp));
    var a6, b6 := Joined(a.actor, a7), Joined(b.actor, b7);
    var a5, b5 := Joined(a.environment, a6), Joined(b.environment, b6);
    var a4, b4 := Joined(a.action, a5), Joined(b.action, b5);
    var a3, b3 := Joined(a.flagKey, a4), Joined(b.flagKey, b4);
    var a2, b2 := Joined(a.projectId, a3), Joined(b.projectId, b3);
    var a1, b1 := Joined(a.id, a2), Joined(b.id, b2);
    SplitAtFirst('|', OrGenesis(a.prevHash), a1, OrGenesis(b.prevHash), b1);
    SplitAtFirst('|', a.id, a2, b.id, b2);
    SplitAtFirst('|', a.projectId, a3, b.projectId, b3);
    SplitAtFirst('|', a.flagKey, a4, b.flagKey, b4);
    SplitAtFirst('|', a.action, a5, b.action, b5);
    SplitAtFirst('|', a.environment, a6, b.environment, b6);
    SplitAtFirst('|', a.actor, a7, b.actor, b7);
    SplitAtLast('|', a.details, h.rfc3339(a.timestamp), b.details, h.rfc3339(b.timestamp));
  }

  /** The payload to the letter: the nine parts in their order, a bar between any two. */
  lemma {:induction false} PayloadText(h: Hasher, e: AuditEntry)
    ensures Payload(h, e.prevHash, e) ==
              (if e.prevHash ==
                  "" then "GENESIS" else e.prevHash) + "|" + e.id + "|" + e.projectId + "|" + e.flagKey + "|"
              + e.action + "|" + e.environment + "|" + e.actor + "|" + e.details + "|" + h.rfc3339(e.timestamp)
  {
    var e8 := h.rfc3339(e.timestamp);
    var e7 := e.details + "|" + e8;
    var e6 := e.actor + "|" + e7;
    var e5 := e.environment + "|" + e6;
    var e4 := e.action + "|" + e5;
    var e3 := e.flagKey + "|" + e4;
    var e2 := e.projectId + "|" + e3;
    assert Payload(h, e.prevHash, e) == OrGenesis(e.prevHash) + "|" + (e.id + "|" + e2);
  }

  // ----- Exactly which entries share their payload with another -----

  // Everything in the payload but the predecessor's hash and the time.
  predicate NoBars(e: AuditEntry) {
    && Free('|', e.id) && Free('|', e.projectId) && Free('|', e.flagKey) && Free('|', e.action)
    && Free('|', e.environment) && Free('|', e.actor) && Free('|', e.details)
  }

  // The other entry stands for something else and is hashed as the same text.
  predicate Doubles(h: Hasher, e: AuditEntry, other: AuditEntry) {
    && Payload(h, other.prevHash, other) == Payload(h, e.prevHash, e)
    && !(OrGenesis(other.prevHash) == OrGenesis(e.prevHash) && SameContent(e, other))
  }

  lemma {:induction false} JoinedBars(a: string, rest: string)
    ensures Count('|', Joined(a, rest)) == Count('|', a) + 1 + Count('|', rest)
  {
    CountCat('|', a + ['|'], rest);
    CountCat('|', a, ['|']);
    assert ['|'][1..] == [];
  }

  lemma {:induction false} PayloadBars(h: Hasher, e: AuditEntry)
    requires FaithfulClock(h)
    ensures Count('|', Payload(h, e.prevHash, e)) >= 8
    ensures Count('|', Payload(h, e.prevHash, e)) == 8 <==> Free('|', OrGenesis(e.prevHash)) && NoBars(e)
  {
    hide Joined;
    var e8 := h.rfc3339(e.timestamp);
    var e7 := Joined(e.details, e8);
    var e6 := Joined(e.actor, e7);
    var e5 := Joined(e.environment, e6);
    var e4 := Joined(e.action, e5);
    var e3 := Joined(e.flagKey, e4);
    var e2 := Joined(e.projectId, e3);
    var e1 := Joined(e.id, e2);
    JoinedBars(OrGenesis(e.prevHash), e1);
    JoinedBars(e.id, e2);
    JoinedBars(e.projectId, e3);
    JoinedBars(e.flagKey, e4);
    JoinedBars(e.action, e5);
    JoinedBars(e.environment, e6);
    JoinedBars(e.actor, e7);
    JoinedBars(e.details, e8);
    CountFree('|', OrGenesis(e.prevHash));
    CountFree('|', e.id);
    CountFree('|', e.projectId);
    CountFree('|', e.flagKey);
    CountFree('|', e.action);
    CountFree('|', e.environment);
    CountFree('|', e.actor);
    CountFree('|', e.details);
    CountFree('|', e8);
  }

  /** A bar inside a field reads like the boundary to the next one. */
  lemma {:induction false} BarShifts(x: string, y: string, z: string, rest: string)
    ensures Joined(Joined(x, y), Joined(z, rest)) == Joined(x, Joined(Joined(y, z), rest))
  {
  }

  // Moves the first bar of a field over the boundary to its neighbour.
  lemma {:induction false} ShiftedEntry(h: Hasher, e: AuditEntry) returns (other: AuditEntry)
    requires !NoBars(e)
    ensures other.prevHash == e.prevHash && Payload(h, e.prevHash, other) == Payload(h, e.prevHash, e)
    ensures !SameContent(e, other)
  {
    hide Joined;
    var e8 := h.rfc3339(e.timestamp);
    var e7 := Joined(e.details, e8);
    var e6 := Joined(e.actor, e7);
    var e5 := Joined(e.environment, e6);
    var e4 := Joined(e.action, e5);
    var e3 := Joined(e.flagKey, e4);
    if !Free('|', e.id) {
      var x, y := Halves(e.id);
      other := e.(id := x, projectId := Joined(y, e.projectId));
      BarShifts(x, y, e.projectId, e3);
    } else if !Free('|', e.projectId) {
      var x, y := Halves(e.projectId);
      other := e.(projectId := x, flagKey := Joined(y, e.flagKey));
      BarShifts(x, y, e.flagKey, e4);
    } else if !Free('|', e.flagKey) {
      var x, y := Halves(e.flagKey);
      other := e.(flagKey := x, action := Joined(y, e.action));
      BarShifts(x, y, e.action, e5);
    } else if !Free('|', e.action) {
      var x, y := Halves(e.action);
      other := e.(action := x, environment := Joined(y, e.environment));
      BarShifts(x, y, e.environment, e6);
    } else if !Free('|', e.environment) {
      var x, y := Halves(e.environment);
      other := e.(environment := x, actor := Joined(y, e.actor));
      BarShifts(x, y, e.actor, e7);
    } else if !Free('|', e.actor) {
      var x, y := Halves(e.actor);
      other := e.(actor := x, details := Joined(y, e.details));
      BarShifts(x, y, e.details, e8);
    } else {
      var x, y := Halves(e.details);
      other := e.(actor := Joined(e.actor, x), details := y);
      BarShifts(e.actor, x, y, e8);
    }
  }

  lemma {:induction false} Halves(s: string) returns (x: string, y: string)
    requires !Free('|', s)
    ensures s == Joined(x, y) && |x| < |s| && |y| < |s|
  {
    x, y := CutAtFirst('|', s);
  }

  /**
    The exact ambiguity of the payload: an entry on top of a bar-free hash shares its payload with another
    entry or another predecessor if and only if one of its fields, the details included, holds a bar.
   */
  lemma {:induction false} AmbiguousIff(h: Hasher, e: AuditEntry)
    requires FaithfulClock(h) && Free('|', e.prevHash)
    ensures (exists other: AuditEntry :: Doubles(h, e, other)) <==> !NoBars(e)
  {
    if NoBars(e) {
      forall other: AuditEntry | Payload(h, other.prevHash, other) == Payload(h, e.prevHash, e)
        ensures OrGenesis(other.prevHash) == OrGenesis(e.prevHash) && SameContent(e, other)
      {
        PayloadBars(h, e);
        PayloadBars(h, other);
        PayloadInjective(h, e, other);
      }
    } else {
      var other := ShiftedEntry(h, e);
      assert Doubles(h, e, other);
    }
  }

  /** So a bar in any field makes a different entry hash alike, whatever the hash function. */
  lemma {:induction false} BarCollides(h: Hasher, e: AuditEntry) returns (other: AuditEntry)
    requires !NoBars(e)
    ensures !SameContent(e, other)
    ensures ComputeAuditEntryHash(h, e.prevHash, other) == ComputeAuditEntryHash(h, e.prevHash, e)
  {
    other := ShiftedEntry(h, e);
  }

  /** One such pair: the actor "eve|root" and the actor "eve" with another text. */
  lemma {:induction false} BarInActorCollides(h: Hasher, e: AuditEntry)
    ensures var a := e.(actor := "eve|root", details := "ok");
            var b := e.(actor := "eve", details := "root|ok");
            !NoBars(a) && !SameContent(a, b)
            && ComputeAuditEntryHash(h, e.prevHash, a) == ComputeAuditEntryHash(h, e.prevHash, b)
  {
    assert "eve|root" == Joined("eve", "root") && "root|ok" == Joined("root", "ok");
    assert "eve|root"[3] == '|' && |"eve|root"| != |"eve"|;
    BarShifts("eve", "root", "ok", h.rfc3339(e.timestamp));
  }
}
