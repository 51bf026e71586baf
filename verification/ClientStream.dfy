/** The SDK's flag cache behind the event stream (pkg/client/stream.go). */
module ClientStreams {
  import opened Domain
  import opened Text
  import opened Seqs
  import opened Flags
  import opened Evaluator
  import opened Sse

  // Decoding the JSON of a payload is a parameter: None is malformed text or a missing list.
  type Decoder = string -> Option<seq<FeatureFlag>>

  // ----- updateFlags -----

  predicate IsFlagEvent(e: Event) {
    e.name == "flags_init" || e.name == "flags_update"
  }

  function FlagPayloads(es: seq<Event>): seq<string> {
    if es == [] then []
    else FlagPayloads(es[..|es| - 1]) + (if IsFlagEvent(es[|es| - 1]) then [es[|es| - 1].data] else [])
  }

  function Cached(fs: seq<FeatureFlag>): map<string, FeatureFlag> {
    if fs == [] then map[]
    else
      var f := fs[|fs| - 1];
      Cached(fs[..|fs| - 1])[f.key := f][f.id := f]
  }

  predicate Fresh(had: map<string, FeatureFlag>, f: FeatureFlag) {
    f.key in had ==> had[f.key].updatedAt != f.updatedAt
  }

  // The keys that listeners are told about.
  function ChangedKeys(had: map<string, FeatureFlag>, fs: seq<FeatureFlag>): seq<string> {
    if fs == [] then []
    else ChangedKeys(had, fs[..|fs| - 1]) + (if Fresh(had, fs[|fs| - 1]) then [fs[|fs| - 1].key] else [])
  }

  function Updated(flags: map<string, FeatureFlag>, decode: Decoder, payload: string): map<string, FeatureFlag> {
    match decode(payload)
    case None => flags
    case Some(fs) => Cached(fs)
  }

  function UpdatedAll(
    flags: map<string, FeatureFlag>, decode: Decoder, payloads: seq<string>): map<string, FeatureFlag>
  {
    if payloads == [] then flags
    else Updated(UpdatedAll(flags, decode, payloads[..|payloads| - 1]), decode, payloads[|payloads| - 1])
  }

  // The cache after the client has read the text of a stream.
  function CacheAfter(flags: map<string, FeatureFlag>, decode: Decoder, text: string): map<string, FeatureFlag> {
    UpdatedAll(flags, decode, FlagPayloads(Dispatched(text)))
  }

  lemma {:induction false} NothingDispatched(flags: map<string, FeatureFlag>, decode: Decoder)
    ensures UpdatedAll(flags, decode, FlagPayloads([])) == flags
  {
  }

  lemma {:induction false} DispatchStep(flags: map<string, FeatureFlag>, decode: Decoder, es: seq<Event>, e: Event)
    ensures var was := UpdatedAll(flags, decode, FlagPayloads(es));
            UpdatedAll(flags, decode, FlagPayloads(es + [e])) ==
                if IsFlagEvent(e) then Updated(was, decode, e.data) else was
  {
    var payloads := FlagPayloads(es);
    assert (es + [e])[..|es|] == es && (payloads + [e.data])[..|payloads|] == payloads;
    assert FlagPayloads(es + [e]) == if IsFlagEvent(e) then payloads + [e.data] else payloads;
  }

  class StreamClient {
    var flags: map<string, FeatureFlag>

    constructor ()
      ensures flags == map[]
    {
      flags := map[];
    }

    method UpdateFlags(fs: seq<FeatureFlag>) returns (changed: seq<string>)
      modifies this
      ensures flags == Cached(fs) && changed == ChangedKeys(old(flags), fs)
    {
      var newMap: map<string, FeatureFlag> := map[];
      changed := [];
      for i := 0 to |fs|
        invariant newMap == Cached(fs[..i]) && changed == ChangedKeys(flags, fs[..i]) && flags == old(flags)
      {
        var f := fs[i];
        assert fs[..i + 1][..i] == fs[..i];
        newMap := newMap[f.key := f][f.id := f];
        if f.key !in flags || flags[f.key].updatedAt != f.updatedAt {
          changed := changed + [f.key];
        }
      }
      assert fs[..|fs|] == fs;
      flags := newMap;
    }

    method Dispatch(e: Event, decode: Decoder)
      modifies this
      ensures flags == if IsFlagEvent(e) then Updated(old(flags), decode, e.data) else old(flags)
    {
      if e.name == "flags_init" || e.name == "flags_update" {
        var payload := decode(e.data);
        if payload.Some? {
          var changed := UpdateFlags(payload.value);
        }
      }
    }

    /** The scanner loop: it dispatches what the line parser says, and flag events replace the cache. */
    method Listen(text: string, decode: Decoder) returns (dispatched: seq<Event>)
      modifies this
      ensures dispatched == Dispatched(text)
      ensures flags == CacheAfter(old(flags), decode, text)
    {
      hide Scan;
      hide UpdatedAll;
      hide FlagPayloads;
      hide TrimSpace;
      assert UpdatedAll(flags, decode, FlagPayloads([])) == flags by { NothingDispatched(flags, decode); }
      var lines := Scan(text);
      var event, data := "", "";
      dispatched := [];
      var i := 0;
      while i < |lines|
        invariant 0 <= i <= |lines|
        invariant FeedAll(FRESH, lines) == FeedAll(Parser(event, data, dispatched), lines[i..])
        invariant flags == UpdatedAll(old(flags), decode, FlagPayloads(dispatched))
      {
        var line := lines[i];
        assert lines[i..][0] == line && lines[i..][1..] == lines[i + 1..];
        i := i + 1;
        if ":" <= line {
          continue;
        }
        if "event:" <= line {
          event := TrimSpace(line[6..]);
          continue;
        }
        if "data:" <= line {
          var content := line[5..];
          if |data| + |content| > MAX_PAYLOAD {
            event, data := "", "";
            continue;
          }
          data := data + TrimSpace(content);
          continue;
        }
        if line == "" && |data| > 0 {
          DispatchStep(old(flags), decode, dispatched, Event(event, data));
          Dispatch(Event(event, data), decode);
          dispatched := dispatched + [Event(event, data)];
          event, data := "", "";
        }
      }
    }
  }

  // ----- What the cache holds -----

  /** The cache of one project's flags finds by key and by ID exactly what the server's lookup finds. */
  lemma {:induction false} CacheIsLookup(fs: seq<FeatureFlag>, p: string, name: string)
    requires forall i :: 0 <= i < |fs| ==> fs[i].projectId == p
    ensures LastNamed(fs, p, name) == if name in Cached(fs) then Some(Cached(fs)[name]) else None
  {
    if fs != [] {
      CacheIsLookup(fs[..|fs| - 1], p, name);
    }
  }

  /** Listeners hear of a key exactly when the cache had no flag, or one of another update time, under it. */
  lemma {:induction false} ChangedIff(had: map<string, FeatureFlag>, fs: seq<FeatureFlag>, key: string)
    ensures key in ChangedKeys(had, fs) <==> exists i :: 0 <= i < |fs| && fs[i].key == key
                                              && (key in had ==> had[key].updatedAt != fs[i].updatedAt)
  {
    if fs != [] {
      var init := fs[..|fs| - 1];
      ChangedIff(had, init, key);
      assert forall i :: 0 <= i < |init| ==> init[i] == fs[i];
      assert Fresh(had, fs[|fs| - 1]) <==>
             (fs[|fs| - 1].key in had ==> had[fs[|fs| - 1].key].updatedAt != fs[|fs| - 1].updatedAt);
    }
  }

  lemma {:induction false} PayloadsCat(a: seq<Event>, b: seq<Event>)
    ensures FlagPayloads(a + b) == FlagPayloads(a) + FlagPayloads(b)
  {
    if b == [] {
      assert a + b == a;
    } else {
      assert (a + b)[..|a + b| - 1] == a + b[..|b| - 1];
      PayloadsCat(a, b[..|b| - 1]);
    }
  }

  lemma {:induction false} UndecodableSkipped(
    flags: map<string, FeatureFlag>, decode: Decoder, a: seq<string>, b: seq<string>)
    requires forall i :: 0 <= i < |b| ==> decode(b[i]) == None
    ensures UpdatedAll(flags, decode, a + b) == UpdatedAll(flags, decode, a)
  {
    if b == [] {
      assert a + b == a;
    } else {
      assert (a + b)[..|a + b| - 1] == a + b[..|b| - 1];
      UndecodableSkipped(flags, decode, a, b[..|b| - 1]);
    }
  }

  // One of the server's two flag events, with flags that can be read.
  predicate Readable(m: Message, decode: Decoder) {
    m.Sent? && (m.event.name == "flags_init" || m.event.name == "flags_update") && decode(m.event.data).Some?
  }

  lemma {:induction false} NoNewPayloads(ms: seq<Message>, decode: Decoder)
    requires forall i :: 0 <= i < |ms| ==> !Readable(ms[i], decode)
    ensures forall i :: 0 <= i < |FlagPayloads(Events(ms))| ==> decode(FlagPayloads(Events(ms))[i]) == None
  {
    if ms != [] {
      NoNewPayloads(ms[1..], decode);
      var head := if ms[0].Sent? then [ms[0].event] else [];
      PayloadsCat(head, Events(ms[1..]));
      assert head != [] ==> head[..0] == [];
      assert !Readable(ms[0], decode);
    }
  }

  /** Pings, events of any other name and payloads that cannot be read leave the cache as it was. */
  lemma {:induction false} OtherEventsIgnored(flags: map<string, FeatureFlag>, decode: Decoder, ms: seq<Message>)
    requires forall i :: 0 <= i < |ms| ==> Printable(ms[i]) && !Readable(ms[i], decode)
    ensures CacheAfter(flags, decode, Print(ms)) == flags
  {
    hide Dispatched;
    RoundTrip(ms);
    NoNewPayloads(ms, decode);
    UndecodableSkipped(flags, decode, [], FlagPayloads(Events(ms)));
    assert [] + FlagPayloads(Events(ms)) == FlagPayloads(Events(ms));
  }

  /**
    Whatever the cache held and whatever came before, once the server has printed its flags, in a
    "flags_init" or a "flags_update" event, the cache is exactly those flags, until the next readable one.
   */
  lemma {:induction false} CacheConverges(
    flags: map<string, FeatureFlag>, decode: Decoder, ms: seq<Message>, k: nat, fs: seq<FeatureFlag>)
    requires k < |ms| && forall i :: 0 <= i < |ms| ==> Printable(ms[i])
    requires ms[k].Sent? && (ms[k].event.name == "flags_init" || ms[k].event.name == "flags_update")
    requires decode(ms[k].event.data) == Some(fs) && forall i :: k < i < |ms| ==> !Readable(ms[i], decode)
    ensures CacheAfter(flags, decode, Print(ms)) == Cached(fs)
  {
    hide Dispatched;
    var before, e, after := ms[..k], ms[k].event, ms[k + 1..];
    assert ms == before + [Sent(e)] + after;
    RoundTrip(ms);
    EventsCat(before + [Sent(e)], after);
    EventsCat(before, [Sent(e)]);
    assert Events([Sent(e)]) == [e] by { assert [Sent(e)][1..] == []; }
    PayloadsCat(Events(before) + [e], Events(after));
    assert (Events(before) + [e])[..|Events(before)|] == Events(before);
    var seen := FlagPayloads(Events(before));
    assert FlagPayloads(Events(before) + [e]) == seen + [e.data];
    NoNewPayloads(after, decode);
    UndecodableSkipped(flags, decode, seen + [e.data], FlagPayloads(Events(after)));
    assert (seen + [e.data])[..|seen|] == seen;
  }

  /** The server's usual stream, a "flags_init" and any number of "flags_update": the last readable one counts. */
  lemma {:induction false} UpdatesFollowInit(
    flags: map<string, FeatureFlag>, decode: Decoder, payloads: seq<string>, fs: seq<FeatureFlag>)
    requires payloads != [] && decode(payloads[|payloads| - 1]) == Some(fs)
    requires forall i :: 0 <= i < |payloads| ==> Printable(Pushed(payloads, i))
    ensures CacheAfter(flags, decode,
                       Print(seq(|payloads|, i requires 0 <= i < |payloads| => Pushed(payloads, i)))) == Cached(fs)
  {
    hide CacheAfter;
    var ms := seq(|payloads|, i requires 0 <= i < |payloads| => Pushed(payloads, i));
    CacheConverges(flags, decode, ms, |payloads| - 1, fs);
  }

  function Pushed(payloads: seq<string>, i: nat): Message
    requires i < |payloads|
  {
    Sent(Event(if i == 0 then "flags_init" else "flags_update", payloads[i]))
  }

  lemma {:induction false} LastNamedSnoc(fs: seq<FeatureFlag>, f: FeatureFlag, p: string, name: string)
    ensures LastNamed(fs + [f], p, name) == if Named(f, p, name) then Some(f) else LastNamed(fs, p, name)
  {
    assert (fs + [f])[..|fs|] == fs;
  }

  lemma {:induction false} FilterFind(all: seq<FeatureFlag>, p: string, name: string)
    ensures LastNamed(Filter(OfProject(p), all), p, name) == LastNamed(all, p, name)
  {
    if all != [] {
      var init, f := all[..|all| - 1], all[|all| - 1];
      FilterFind(init, p, name);
      var kept := Filter(OfProject(p), init);
      FilterSnoc(OfProject(p), all, |all| - 1);
      assert all == init + [f] && kept + [] == kept && all[..|all|] == all;
      hide LastNamed;
      LastNamedSnoc(init, f, p, name);
      LastNamedSnoc(kept, f, p, name);
    }
  }

  lemma {:induction false} FilterProject(all: seq<FeatureFlag>, p: string)
    ensures forall i :: 0 <= i < |Filter(OfProject(p), all)| ==> Filter(OfProject(p), all)[i].projectId == p
  {
    var fs := Filter(OfProject(p), all);
    forall i | 0 <= i < |fs| ensures fs[i].projectId == p {
      FilterMember(OfProject(p), all, fs[i]);
    }
  }

  function CacheLookup(cache: map<string, FeatureFlag>, name: string): Option<FeatureFlag> {
    if name in cache then Some(cache[name]) else None
  }

  /**
    From the server's list of all projects to the client's answer: after a stream whose last readable flag
    event holds the flags of one project, the client finds under a name what the server's own index finds
    if and only if every flag, of whatever project, that is filed under the composite text bears the name
    or stands before one that does; and then both evaluate alike.
   */
  lemma {:induction false} LocalIsServerEvaluation(
    g: Engine, flags: map<string, FeatureFlag>, decode: Decoder, ms: seq<Message>, k: nat,
    all: seq<FeatureFlag>, p: string, name: string, ctx: Context)
    requires k < |ms| && (forall i :: 0 <= i < |ms| ==> Printable(ms[i])) && Readable(ms[k], decode)
    requires decode(ms[k].event.data) == Some(Filter(OfProject(p), all))
    requires forall i :: k < i < |ms| ==> !Readable(ms[i], decode)
    requires name != "" || Identified(all)
    ensures var cache := CacheAfter(flags, decode, Print(ms));
            var local, served := CacheLookup(cache, name), Lookup(BuildIndex(all), p, name);
            && (local == served <==>
                  forall i :: 0 <= i < |all| && Filed(all[i], IndexKey(p, name)) ==> !Unborne(all, i, p, name))
            && (local == served && served.Some? ==> Evaluate(g, cache[name], ctx) == Evaluate(g, served.value, ctx))
  {
    hide Evaluate;
    hide CacheAfter;
    var fs := Filter(OfProject(p), all);
    CacheConverges(flags, decode, ms, k, fs);
    FilterProject(all, p);
    CacheIsLookup(fs, p, name);
    FilterFind(all, p, name);
    LookupExactIff(all, p, name);
  }

  /** Colon-free keys and IDs meet that condition for every colon-free name. */
  lemma {:induction false} LocalIsServerLookup(all: seq<FeatureFlag>, p: string, name: string)
    requires ColonFree(all) && Free(':', name)
    ensures CacheLookup(Cached(Filter(OfProject(p), all)), name) == Lookup(BuildIndex(all), p, name)
  {
    FilterProject(all, p);
    CacheIsLookup(Filter(OfProject(p), all), p, name);
    FilterFind(all, p, name);
    IndexIsLastMatch(all, p, name);
  }

  /** An input where they differ: another tenant's flag whose ID is the composite key answers on the server only. */
  lemma {:induction false} LocalDiffersFromServer(mine: FeatureFlag, other: FeatureFlag)
    requires mine.id == "f1" && mine.key == "checkout" && mine.projectId == "acme"
    requires other.id == "acme:checkout" && other.projectId == "evil"
    ensures CacheLookup(Cached(Filter(OfProject("acme"), [mine, other])), "checkout") == Some(mine)
    ensures Lookup(BuildIndex([mine, other]), "acme", "checkout") == Some(other) != Some(mine)
  {
    var all := [mine, other];
    assert other.projectId != "acme" by { assert other.projectId[0] != "acme"[0]; }
    assert LastNamed(all, "acme", "checkout") == Some(mine) by {
      assert all[..1] == [mine] && [mine][..0] == [];
      assert LastNamed([mine], "acme", "checkout") == Some(mine);
    }
    FilterProject(all, "acme");
    CacheIsLookup(Filter(OfProject("acme"), all), "acme", "checkout");
    FilterFind(all, "acme", "checkout");
    assert other.id == IndexKey("acme", "checkout");
    var k := LastFiled(all, IndexKey("acme", "checkout"));
    assert Filed(all[1], IndexKey("acme", "checkout"));
  }
}
