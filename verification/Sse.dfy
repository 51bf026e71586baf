/**
  The event stream: what the server prints (pkg/api/stream.go) and what the client's line parser makes of
  it (pkg/client/stream.go). The framing is that of section 9.2 of the WHATWG HTML Living Standard.
  Text is a sequence of characters; the scanner's limit, which Go counts in bytes, is counted in them.
 */
module Sse {
  import opened Text

  const MAX_PAYLOAD := 10 * 1024 * 1024

  // ----- The printer -----

  datatype Event = Event(name: string, data: string)

  datatype Message = Sent(event: Event) | Ping

  function Frame(m: Message): string {
    match m
    case Sent(e) => "event: " + e.name + ['\n'] + ("data: " + e.data + ['\n'] + (['\n'] + []))
    case Ping => ": ping" + ['\n'] + (['\n'] + [])
  }

  function Print(ms: seq<Message>): string {
    if ms == [] then [] else Frame(ms[0]) + Print(ms[1..])
  }

  function Events(ms: seq<Message>): seq<Event> {
    if ms == [] then [] else (if ms[0].Sent? then [ms[0].event] else []) + Events(ms[1..])
  }

  // ----- The line scanner (bufio.ScanLines) -----

  function DropCR(line: string): string {
    if line != [] && line[|line| - 1] == '\r' then line[..|line| - 1] else line
  }

  // A line that does not fit the buffer together with its newline ends the scan.
  function Scan(text: string): seq<string>
    decreases |text|
  {
    var i := First('\n', text);
    FirstBound('\n', text);
    if text == [] || i >= MAX_PAYLOAD then []
    else if i == |text| then [DropCR(text)]
    else [DropCR(text[..i])] + Scan(text[i + 1..])
  }

  lemma {:induction false} FirstBound(c: char, s: string)
    ensures First(c, s) <= |s|
  {
    if s != [] && s[0] != c {
      FirstBound(c, s[1..]);
    }
  }

  // ----- The parser -----

  datatype Parser = Parser(event: string, data: string, dispatched: seq<Event>)

  const FRESH := Parser("", "", [])

  function Feed(p: Parser, line: string): Parser {
    if ":" <= line then p
    else if "event:" <= line then p.(event := TrimSpace(line[6..]))
    else if "data:" <= line then
      if |p.data| + |line[5..]| > MAX_PAYLOAD then p.(event := "", data := "")
      else p.(data := p.data + TrimSpace(line[5..]))
    else if line == "" && p.data != "" then Parser("", "", p.dispatched + [Event(p.event, p.data)])
    else p
  }

  function FeedAll(p: Parser, lines: seq<string>): Parser
    decreases |lines|
  {
    if lines == [] then p else FeedAll(Feed(p, lines[0]), lines[1..])
  }

  function Dispatched(text: string): seq<Event> {
    FeedAll(FRESH, Scan(text)).dispatched
  }

  // ----- Lines of printed text -----

  predicate Line(s: string) {
    Free('\n', s) && |s| < MAX_PAYLOAD
  }

  lemma {:induction false} ScanLine(line: string, rest: string)
    requires Line(line)
    ensures Scan(line + ['\n'] + rest) == [DropCR(line)] + Scan(rest)
  {
    var text := line + ['\n'] + rest;
    FirstAfterFree('\n', line, rest);
    assert text[..|line|] == line && text[|line| + 1..] == rest;
  }

  lemma {:induction false} FirstAbsent(c: char, s: string)
    requires Free(c, s)
    ensures First(c, s) == |s|
  {
    if s != [] {
      FirstAbsent(c, s[1..]);
    }
  }

  lemma {:induction false} ScanTail(line: string)
    requires Line(line)
    ensures Scan(line) == if line == [] then [] else [DropCR(line)]
  {
    FirstAbsent('\n', line);
  }

  lemma {:induction false} ScanTooLong(line: string, rest: string)
    requires Free('\n', line) && |line| >= MAX_PAYLOAD
    ensures Scan(line + ['\n'] + rest) == []
  {
    FirstAfterFree('\n', line, rest);
  }

  // ----- What a message must be to survive -----

  predicate Trimmed(s: string) {
    s == [] || (!IsSpace(s[0]) && !IsSpace(s[|s| - 1]))
  }

  predicate Clean(e: Event) {
    && Trimmed(e.name) && Free('\n', e.name)
    && e.data != "" && Trimmed(e.data) && Free('\n', e.data)
  }

  predicate Fits(e: Event) {
    |"event: " + e.name| < MAX_PAYLOAD && |"data: " + e.data| < MAX_PAYLOAD
  }

  predicate Printable(m: Message) {
    m.Sent? ==> Clean(m.event) && Fits(m.event)
  }

  lemma {:induction false} TrimPadded(s: string)
    requires Trimmed(s)
    ensures TrimSpace(" " + s) == s
  {
    var t := " " + s;
    assert t[1..] == s && IsSpace(t[0]);
    assert TrimLeft(t) == TrimLeft(s) == s;
  }

  lemma {:induction false} FeedCat(p: Parser, a: seq<string>, b: seq<string>)
    ensures FeedAll(p, a + b) == FeedAll(FeedAll(p, a), b)
    decreases |a|
  {
    if a == [] {
      assert a + b == b;
    } else {
      assert (a + b)[1..] == a[1..] + b;
      FeedCat(Feed(p, a[0]), a[1..], b);
    }
  }

  lemma {:induction false} FeedThree(p: Parser, a: string, b: string, c: string)
    ensures FeedAll(p, [a, b, c]) == Feed(Feed(Feed(p, a), b), c)
  {
    var p1 := Feed(p, a);
    var p2 := Feed(p1, b);
    assert [a, b, c][1..] == [b, c] && [b, c][1..] == [c] && [c][1..] == [];
    assert FeedAll(p2, [c]) == FeedAll(Feed(p2, c), []);
    assert FeedAll(p1, [b, c]) == FeedAll(p2, [c]);
  }

  function EventLines(e: Event): seq<string> {
    ["event: " + e.name, "data: " + e.data, ""]
  }

  lemma {:induction false} HeadLine(e: Event)
    requires Clean(e)
    ensures var n, d := "event: " + e.name, "data: " + e.data;
            Free('\n', n) && Free('\n', d) && DropCR(n) == n && DropCR(d) == d
  {
    var n, d := "event: " + e.name, "data: " + e.data;
    assert n[|n| - 1] == (if e.name == "" then ' ' else e.name[|e.name| - 1]);
    assert d[|d| - 1] == e.data[|e.data| - 1];
    assert IsSpace('\r');
  }

  lemma {:induction false} ScanBlank(rest: string)
    ensures Scan(['\n'] + rest) == [""] + Scan(rest)
  {
    ScanLine([], rest);
    assert [] + ['\n'] + rest == ['\n'] + rest;
  }

  /** A printed event scans into its three lines, whatever follows it. */
  lemma {:induction false} ScanFrame(e: Event, rest: string)
    requires Clean(e) && Fits(e)
    ensures Scan(Frame(Sent(e)) + rest) == EventLines(e) + Scan(rest)
  {
    hide Scan;
    var n, d := "event: " + e.name, "data: " + e.data;
    HeadLine(e);
    ScanBlank(rest);
    ScanLine(d, ['\n'] + rest);
    ScanLine(n, d + ['\n'] + (['\n'] + rest));
    FrameShape(n, d, rest);
    assert [n] + ([d] + ([""] + Scan(rest))) == EventLines(e) + Scan(rest);
  }

  lemma {:induction false} FrameShape(n: string, d: string, rest: string)
    ensures n + ['\n'] + (d + ['\n'] + (['\n'] + [])) + rest == n + ['\n'] + (d + ['\n'] + (['\n'] + rest))
  {
    assert (['\n'] + []) + rest == ['\n'] + rest;
    assert (d + ['\n'] + (['\n'] + [])) + rest == d + ['\n'] + (['\n'] + rest);
  }

  lemma {:induction false} ScanPing(rest: string)
    ensures Scan(Frame(Ping) + rest) == [": ping", ""] + Scan(rest)
  {
    hide Scan;
    ScanBlank(rest);
    ScanLine(": ping", ['\n'] + rest);
    assert Frame(Ping) + rest == ": ping" + ['\n'] + (['\n'] + rest);
    assert DropCR(": ping") == ": ping";
    assert [": ping"] + ([""] + Scan(rest)) == [": ping", ""] + Scan(rest);
  }

  function After(p: Parser, m: Message): Parser {
    if m.Sent? then p.(dispatched := p.dispatched + [m.event]) else p
  }

  lemma {:induction false} FeedPing(p: Parser)
    requires p.event == "" && p.data == ""
    ensures FeedAll(p, [": ping", ""]) == p
  {
    assert [": ping", ""][1..] == [""] && [""][1..] == [];
    assert ":" <= ": ping";
    assert Feed(p, ": ping") == p && Feed(p, "") == p;
    assert FeedAll(p, [""]) == FeedAll(p, []);
  }

  /** Between messages the parser is empty, and one message takes it to the next such state. */
  lemma {:induction false} FeedFrame(p: Parser, m: Message, rest: string)
    requires Printable(m) && p.event == "" && p.data == ""
    ensures FeedAll(p, Scan(Frame(m) + rest)) == FeedAll(After(p, m), Scan(rest))
  {
    hide Scan;
    hide Frame;
    hide Feed;
    match m
    case Ping =>
      ScanPing(rest);
      FeedCat(p, [": ping", ""], Scan(rest));
      FeedPing(p);
    case Sent(e) =>
      ScanFrame(e, rest);
      FeedCat(p, EventLines(e), Scan(rest));
      FeedEvent(p, e);
  }

  lemma {:induction false} FeedEvent(p: Parser, e: Event)
    requires Clean(e) && Fits(e) && p.event == "" && p.data == ""
    ensures FeedAll(p, EventLines(e)) == p.(dispatched := p.dispatched + [e])
  {
    var n, d := "event: " + e.name, "data: " + e.data;
    FeedThree(p, n, d, "");
    assert n[0] == 'e' && d[0] == 'd';
    assert n[..6] == "event:" && n[6..] == " " + e.name;
    assert d[..5] == "data:" && d[5..] == " " + e.data;
    TrimPadded(e.name);
    TrimPadded(e.data);
    assert Feed(p, n) == p.(event := e.name);
    assert "" + e.data == e.data;
    assert Feed(Feed(p, n), d) == p.(event := e.name, data := e.data);
  }

  // ----- A stream cut anywhere -----

  // How many messages the first n characters hold in full.
  function WholeMessages(ms: seq<Message>, n: nat): nat {
    if ms == [] || n < |Frame(ms[0])| then 0 else 1 + WholeMessages(ms[1..], n - |Frame(ms[0])|)
  }

  lemma {:induction false} WholeBound(ms: seq<Message>, n: nat)
    ensures WholeMessages(ms, n) <= |ms|
  {
    if ms != [] && n >= |Frame(ms[0])| {
      WholeBound(ms[1..], n - |Frame(ms[0])|);
    }
  }

  // Lines without an empty one among them never dispatch.
  lemma {:induction false} NoBlankNoDispatch(p: Parser, lines: seq<string>)
    requires forall line :: line in lines ==> line != ""
    ensures FeedAll(p, lines).dispatched == p.dispatched
    decreases |lines|
  {
    if lines != [] {
      assert lines[0] in lines && forall line :: line in lines[1..] ==> line in lines;
      NoBlankNoDispatch(Feed(p, lines[0]), lines[1..]);
    }
  }

  lemma {:induction false} DropCRKeeps(line: string)
    requires line != [] && line[0] != '\r'
    ensures DropCR(line) != ""
  {
  }

  // A text of at most two lines, with non-blank beginnings, has no blank line.
  lemma {:induction false} CutLines(a: string, b: string, n: nat)
    requires Line(a) && Line(b) && a != [] && b != [] && a[0] != '\r' && b[0] != '\r'
    requires n <= |a + ['\n'] + (b + ['\n'])|
    ensures forall line :: line in Scan((a + ['\n'] + (b + ['\n']))[..n]) ==> line != ""
  {
    var text := a + ['\n'] + (b + ['\n']);
    DropCRKeeps(a);
    if n <= |a| {
      assert text[..n] == a[..n];
      CutLine(a, n);
    } else {
      var m := n - |a| - 1;
      assert text[..n] == a + ['\n'] + (b + ['\n'])[..m];
      ScanLine(a, (b + ['\n'])[..m]);
      CutOne(b, m);
    }
  }

  lemma {:induction false} CutLine(a: string, n: nat)
    requires Line(a) && (a != [] ==> a[0] != '\r') && n <= |a|
    ensures forall line :: line in Scan(a[..n]) ==> line != ""
  {
    ScanTail(a[..n]);
    if n > 0 {
      DropCRKeeps(a[..n]);
    }
  }

  lemma {:induction false} CutOne(a: string, n: nat)
    requires Line(a) && a != [] && a[0] != '\r' && n <= |a| + 1
    ensures forall line :: line in Scan((a + ['\n'])[..n]) ==> line != ""
  {
    if n <= |a| {
      assert (a + ['\n'])[..n] == a[..n];
      CutLine(a, n);
    } else {
      assert (a + ['\n'])[..n] == a + ['\n'] + [];
      ScanLine(a, []);
      DropCRKeeps(a);
      assert Scan([]) == [];
    }
  }

  lemma {:induction false} CutFrame(p: Parser, m: Message, n: nat)
    requires Printable(m) && n < |Frame(m)|
    ensures FeedAll(p, Scan(Frame(m)[..n])).dispatched == p.dispatched
  {
    match m
    case Ping =>
      var a := ": ping";
      assert Frame(m)[..n] == (a + ['\n'])[..n];
      CutOne(a, n);
      NoBlankNoDispatch(p, Scan(Frame(m)[..n]));
    case Sent(e) =>
      var a, b := "event: " + e.name, "data: " + e.data;
      HeadLine(e);
      assert Frame(m)[..n] == (a + ['\n'] + (b + ['\n']))[..n];
      assert a[0] == 'e' && b[0] == 'd';
      CutLines(a, b, n);
      NoBlankNoDispatch(p, Scan(Frame(m)[..n]));
  }

  lemma {:induction false} FeedNothing(p: Parser)
    ensures FeedAll(p, Scan([])) == p
  {
  }

  lemma {:induction false} ParseCut(p: Parser, ms: seq<Message>, n: nat)
    requires p.event == "" && p.data == "" && n <= |Print(ms)|
    requires forall i :: 0 <= i < |ms| ==> Printable(ms[i])
    ensures WholeMessages(ms, n) <= |ms|
    ensures FeedAll(p, Scan(Print(ms)[..n])).dispatched == p.dispatched + Events(ms[..WholeMessages(ms, n)])
    decreases |ms|
  {
    hide Scan;
    hide Feed;
    hide FeedAll;
    hide Frame;
    hide Printable;
    WholeBound(ms, n);
    if ms == [] {
      FeedNothing(p);
    } else {
      var m, rest, f := ms[0], ms[1..], Frame(ms[0]);
      if n < |f| {
        assert Print(ms)[..n] == f[..n];
        CutFrame(p, m, n);
      } else {
        var k := n - |f|;
        assert Print(ms)[..n] == f + Print(rest)[..k];
        FeedFrame(p, m, Print(rest)[..k]);
        ParseCut(After(p, m), rest, k);
        var w := WholeMessages(rest, k);
        assert ms[..w + 1][1..] == rest[..w];
        assert After(p, m).dispatched + Events(rest[..w]) == p.dispatched + Events(ms[..w + 1]);
      }
    }
  }

  /**
    Wherever the connection breaks, the client has dispatched exactly the events whose frames arrived
    whole, with their names and payloads, in order.
   */
  lemma {:induction false} CutAnywhere(ms: seq<Message>, n: nat)
    requires n <= |Print(ms)| && forall i :: 0 <= i < |ms| ==> Printable(ms[i])
    ensures WholeMessages(ms, n) <= |ms|
    ensures Dispatched(Print(ms)[..n]) == Events(ms[..WholeMessages(ms, n)])
  {
    ParseCut(FRESH, ms, n);
  }

  lemma {:induction false} AllWhole(ms: seq<Message>)
    ensures WholeMessages(ms, |Print(ms)|) == |ms|
  {
    if ms != [] {
      AllWhole(ms[1..]);
    }
  }

  /** What the server prints, the client recovers: the same events and payloads in the same order. */
  lemma {:induction false} RoundTrip(ms: seq<Message>)
    requires forall i :: 0 <= i < |ms| ==> Printable(ms[i])
    ensures Dispatched(Print(ms)) == Events(ms)
  {
    CutAnywhere(ms, |Print(ms)|);
    AllWhole(ms);
    assert Print(ms)[..|Print(ms)|] == Print(ms) && ms[..|ms|] == ms;
  }

  lemma {:induction false} PrintCat(a: seq<Message>, b: seq<Message>)
    ensures Print(a + b) == Print(a) + Print(b)
  {
    if a == [] {
      assert a + b == b;
    } else {
      assert (a + b)[1..] == a[1..] + b;
      PrintCat(a[1..], b);
    }
  }

  lemma {:induction false} PrintAhead(ms: seq<Message>, rest: string)
    requires ms != []
    ensures Print(ms) + rest == Frame(ms[0]) + (Print(ms[1..]) + rest)
  {
    hide Frame;
  }

  lemma {:induction false} EventsAhead(p: Parser, ms: seq<Message>)
    requires ms != []
    ensures After(p, ms[0]).dispatched + Events(ms[1..]) == p.dispatched + Events(ms)
  {
    var head := if ms[0].Sent? then [ms[0].event] else [];
    assert After(p, ms[0]).dispatched == p.dispatched + head;
    assert Events(ms) == head + Events(ms[1..]);
  }

  lemma {:induction false} FeedPrinted(p: Parser, ms: seq<Message>, rest: string)
    requires p.event == "" && p.data == "" && forall i :: 0 <= i < |ms| ==> Printable(ms[i])
    ensures FeedAll(p, Scan(Print(ms) + rest)) == FeedAll(p.(dispatched := p.dispatched + Events(ms)), Scan(rest))
    decreases |ms|
  {
    hide Scan;
    hide Feed;
    hide FeedAll;
    hide Frame;
    hide Printable;
    if ms == [] {
      assert Print(ms) + rest == rest && p.dispatched + Events(ms) == p.dispatched;
    } else {
      PrintAhead(ms, rest);
      FeedFrame(p, ms[0], Print(ms[1..]) + rest);
      FeedPrinted(After(p, ms[0]), ms[1..], rest);
      EventsAhead(p, ms);
    }
  }

  lemma {:induction false} OversizeFrame(p: Parser, e: Event, tail: string)
    requires Clean(e) && !Fits(e)
    ensures FeedAll(p, Scan(Frame(Sent(e)) + tail)).dispatched == p.dispatched
  {
    var n, d := "event: " + e.name, "data: " + e.data;
    HeadLine(e);
    assert Frame(Sent(e)) + tail == n + ['\n'] + (d + ['\n'] + (['\n'] + tail));
    if |n| < MAX_PAYLOAD {
      ScanLine(n, d + ['\n'] + (['\n'] + tail));
      ScanTooLong(d, ['\n'] + tail);
      assert Scan(Frame(Sent(e)) + tail) == [n];
      assert n[0] == 'e';
      NoBlankNoDispatch(p, [n]);
    } else {
      ScanTooLong(n, d + ['\n'] + (['\n'] + tail));
    }
  }

  /** A message that does not fit the scanner's buffer ends the stream: it and all that follows are lost. */
  lemma {:induction false} OversizeEndsStream(before: seq<Message>, e: Event, after: seq<Message>)
    requires (forall i :: 0 <= i < |before| ==> Printable(before[i])) && Clean(e) && !Fits(e)
    ensures Dispatched(Print(before + [Sent(e)] + after)) == Events(before)
  {
    hide Scan;
    hide Frame;
    var ms := [Sent(e)] + after;
    assert before + [Sent(e)] + after == before + ms;
    PrintCat(before, ms);
    assert ms[0] == Sent(e) && ms[1..] == after;
    FeedPrinted(FRESH, before, Frame(Sent(e)) + Print(after));
    OversizeFrame(FRESH.(dispatched := [] + Events(before)), e, Print(after));
  }

  lemma {:induction false} EventsCat(a: seq<Message>, b: seq<Message>)
    ensures Events(a + b) == Events(a) + Events(b)
  {
    if a == [] {
      assert a + b == b;
    } else {
      assert (a + b)[0] == a[0] && (a + b)[1..] == a[1..] + b;
      EventsCat(a[1..], b);
      var head := if a[0].Sent? then [a[0].event] else [];
      assert Events(a + b) == head + (Events(a[1..]) + Events(b));
    }
  }

  // The first message that is not printable, or the number of messages.
  lemma {:induction false} FirstUnprintable(ms: seq<Message>) returns (k: nat)
    ensures k <= |ms| && forall i :: 0 <= i < k ==> Printable(ms[i])
    ensures k < |ms| ==> !Printable(ms[k])
  {
    k := 0;
    while k < |ms| && Printable(ms[k])
      invariant k <= |ms| && forall i :: 0 <= i < k ==> Printable(ms[i])
    {
      k := k + 1;
    }
  }

  /** Clean messages are all recovered if and only if each of them fits the scanner's buffer. */
  lemma {:induction false} RecoveredIff(ms: seq<Message>)
    requires forall i :: 0 <= i < |ms| && ms[i].Sent? ==> Clean(ms[i].event)
    ensures Dispatched(Print(ms)) == Events(ms) <==> forall i :: 0 <= i < |ms| && ms[i].Sent? ==> Fits(ms[i].event)
  {
    hide Dispatched;
    var k := FirstUnprintable(ms);
    if k == |ms| {
      RoundTrip(ms);
    } else {
      var before, m, after := ms[..k], ms[k], ms[k + 1..];
      assert ms == before + [m] + after;
      OversizeEndsStream(before, m.event, after);
      EventsCat(before + [m], after);
      EventsCat(before, [m]);
      assert Events([m]) == [m.event] + Events([m][1..]);
    }
  }
}
