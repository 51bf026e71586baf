/**
  The event stream line by line: what is written to the letter, and what other writers may write
  (pkg/client/stream.go).
 */
module SseLines {
  import opened Text
  import opened Sse

  /** What goes over the wire, to the letter. */
  lemma {:induction false} FrameText(e: Event)
    ensures Frame(Sent(e)) == "event: " + e.name + "\ndata: " + e.data + "\n\n"
    ensures Frame(Ping) == ": ping\n\n"
  {
  }

  /** What each kind of line does: names and data are trimmed, data adds up until it is too long. */
  lemma {:induction false} LineMeans(p: Parser, s: string)
    ensures Feed(p, "event:" + s) == p.(event := TrimSpace(s))
    ensures |p.data| + |s| <= 10_485_760 ==> Feed(p, "data:" + s) == p.(data := p.data + TrimSpace(s))
    ensures |p.data| + |s| > 10_485_760 ==> Feed(p, "data:" + s) == p.(event := "", data := "")
    ensures Feed(p, ":" + s) == p
    ensures p.data != "" ==> Feed(p, "") == Parser("", "", p.dispatched + [Event(p.event, p.data)])
    ensures p.data == "" ==> Feed(p, "") == p
  {
    var n, d, c := "event:" + s, "data:" + s, ":" + s;
    assert n[0] == 'e' && d[0] == 'd' && c[0] == ':';
    assert n[..6] == "event:" && n[6..] == s && d[..5] == "data:" && d[5..] == s && c[..1] == ":";
  }

  // The same frame with the other line ending that the standard allows, and without the optional blank.
  function FrameCRLF(e: Event): string {
    "event:" + e.name + ['\r'] + ['\n'] + ("data:" + e.data + ['\r'] + ['\n'] + (['\r'] + ['\n'] + []))
  }

  lemma {:induction false} ScanLineCR(line: string, rest: string)
    requires Free('\n', line) && |line| + 1 < MAX_PAYLOAD
    ensures Scan(line + ['\r'] + ['\n'] + rest) == [line] + Scan(rest)
  {
    var text := line + ['\r'];
    assert DropCR(text) == line;
    ScanLine(text, rest);
  }

  lemma {:induction false} ScanCRLF(e: Event)
    requires Clean(e) && Fits(e)
    ensures Scan(FrameCRLF(e)) == ["event:" + e.name, "data:" + e.data, ""]
  {
    hide Scan;
    var n, d := "event:" + e.name, "data:" + e.data;
    assert Free('\n', n) && Free('\n', d);
    ScanNothing();
    ScanLineCR([], []);
    ScanLineCR(d, ['\r'] + ['\n'] + []);
    ScanLineCR(n, d + ['\r'] + ['\n'] + (['\r'] + ['\n'] + []));
    assert [] + ['\r'] + ['\n'] + [] == ['\r'] + ['\n'] + [];
    assert [n] + ([d] + ([""] + [])) == [n, d, ""];
  }

  lemma {:induction false} ScanNothing()
    ensures Scan([]) == []
  {
  }

  lemma {:induction false} TrimTrimmed(s: string)
    requires Trimmed(s)
    ensures TrimSpace(s) == s
  {
  }

  /** An event written with CRLF line endings and without blanks after the colons is recovered all the same. */
  lemma {:induction false} OtherLineEndings(e: Event)
    requires Clean(e) && Fits(e)
    ensures Dispatched(FrameCRLF(e)) == [e]
  {
    hide Scan;
    hide Feed;
    hide FeedAll;
    hide TrimSpace;
    hide FrameCRLF;
    ScanCRLF(e);
    FeedThree(FRESH, "event:" + e.name, "data:" + e.data, "");
    TrimTrimmed(e.name);
    TrimTrimmed(e.data);
    var named := FRESH.(event := e.name);
    LineMeans(FRESH, e.name);
    LineMeans(named, e.data);
    LineMeans(named.(data := e.data), "");
    assert "" + e.data == e.data;
    assert [] + [e] == [e];
  }

  /** A payload over several data lines is put together again, blanks around each part removed. */
  lemma {:induction false} SeveralDataLines(p: Parser, a: string, b: string)
    requires p.data == "" && a != "" && Trimmed(a) && Trimmed(b) && |a| + |b| < 10_485_760
    ensures FeedAll(p, ["data:" + a, "data:" + b, ""]).dispatched == p.dispatched + [Event(p.event, a + b)]
  {
    hide Feed;
    hide FeedAll;
    hide TrimSpace;
    FeedThree(p, "data:" + a, "data:" + b, "");
    TrimTrimmed(a);
    TrimTrimmed(b);
    LineMeans(p, a);
    assert "" + a == a;
    LineMeans(p.(data := a), b);
    LineMeans(p.(data := a + b), "");
  }
}
