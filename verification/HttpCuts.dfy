/**
 Messages cut where chunking does matter: inside a header line, inside a body, and
 in the first request of a connection before its keep-alive line.
 */
module HttpCuts {
  import opened HttpSpec
  import opened Wrappers
  import opened HttpUnits
  import opened HttpRoundTrip
  import opened HttpLimits
  import opened HttpDivergence

  // -------------------------------------------------------------- inside a head line

  /** A line of the head that arrives in two messages is read as though its first part had
      never been sent. */
  lemma CutLineForgotten(p: Parser, t: string, j: nat, files: Files)
    requires Wf(p) && p.check != CheckContent && p.state == NoRequest && Plain(t) && j <= |t|
    ensures InTwo(p, t + CRLF, j, files) == OnMessage(p, t[j..] + CRLF, files)
  {
    var bytes := t + CRLF;
    assert bytes[..j] == t[..j] && bytes[j..] == t[j..] + CRLF;
    assert forall c <- t[..j] :: c in t;
    FirstPart(p, t[..j], files);
    var q := OnMessage(p, t[..j], files).p;
    assert "" + (t[j..] + CRLF) == t[j..] + CRLF;
    assert TakeInput(q, t[j..] + CRLF) == TakeInput(p, t[j..] + CRLF);
  }

  /** Between its CR and its LF, the parser reads in front of its input. */
  lemma CutInsideCRLF(p: Parser, t: string, files: Files)
    requires Wf(p) && p.check != CheckContent && Plain(t)
    ensures InTwo(p, t + CRLF, |t| + 1, files).ReadsOutside?
  {
    var bytes := t + CRLF;
    assert bytes[..|t| + 1] == t + "\r" && bytes[|t| + 1..] == "\n";
    assert (t + "\r")[..|t + "\r"| - 1] == t;
    FirstPart(p, t + "\r", files);
    var q := OnMessage(p, t + "\r", files).p;
    OnlyLineFeed(TakeInput(q, "\n"), files);
  }

  /** What one whole line of the head does, as a message. */
  lemma LineReceived(p: Parser, t: string, files: Files)
    requires Wf(p) && p.check != CheckContent && Plain(t)
    ensures var o := OnMessage(p, t + CRLF, files); var (c, ret) := TakeLine(Control(p), UpToNul(t), files);
      && o.Returned? && Wf(o.p)
      && Control(o.p) == if ret == NoRequest then c.(state := NoRequest)
                         else if c.connecting then Init(Respond(c), false) else Respond(c)
  {
    var us := [Line(t)];
    assert us[1..] == [];
    assert Stream(us) == t + CRLF + "" == t + CRLF;
    var (c, ret) := FeedUnit(Control(p), us[0], files);
    assert AllFit(Control(p), us, files);
    if ret == NoRequest {
      assert Feed(Control(p), us, files) == Feed(c, [], files);
    } else if c.connecting {
      assert Feed(Control(p), us, files) == Feed(Init(Respond(c), false), [], files);
    }
    MessageRefinesFeed(p, us, files);
  }

  lemma FieldSuffix(f: Field, j: nat)
    requires FieldOk(f) && j <= |f.name|
    ensures FieldText(f)[j..] == FieldText(Field(f.name[j..], f.value)) && FieldOk(Field(f.name[j..], f.value))
  {
    var name := f.name[j..];
    assert FieldText(f) == f.name + (": " + f.value) && FieldText(Field(name, f.value)) == name + (": " + f.value);
    DropInto(f.name, ": " + f.value, j);
    SuffixMembers(f.name, j);
    forall i: nat | i <= |name|
      ensures !At(name, ": ", i)
    {
      assert !At(f.name, ": ", i + j);
      if i + 2 <= |name| {
        assert name[i..i + 2] == f.name[i + j..i + j + 2];
      }
    }
  }

  /** A header line cut in its name is silently taken as another field: the one its rest names. */
  lemma CutNameTaken(p: Parser, f: Field, j: nat, files: Files)
    requires Wf(p) && p.check == CheckHeader && p.state == NoRequest && FieldOk(f) && j <= |f.name|
    ensures var o := InTwo(p, FieldText(f) + CRLF, j, files);
      o.Returned? && Control(o.p) == AfterField(Control(p), Field(f.name[j..], f.value))
  {
    var rest := Field(f.name[j..], f.value);
    FieldPlain(f);
    FieldSuffix(f, j);
    FieldPlain(rest);
    CutLineForgotten(p, FieldText(f), j, files);
    LineReceived(p, FieldText(rest), files);
    FieldRecovered(Control(p), rest);
  }

  /** The field a line of the head stands for: name and value at its first separator. */
  function FieldIn(line: string): Option<Field> {
    match Find(line, ": ", 0)
    case None => None
    case Some(i) => if |line| <= i + 2 then None else Some(Field(line[..i], line[i + 2..]))
  }

  lemma LineTaken(p: Parser, line: string, files: Files)
    requires p.check == CheckHeader && line != ""
    ensures TakeLine(p, line, files) ==
      match FieldIn(line) case Some(g) => (AfterField(p, g), NoRequest) case None => (p, Invalid)
  {
  }

  /** Wherever a header line is cut, its rest counts as a field exactly when there is a
      separator in it with something behind; else it is answered as a bad request. */
  lemma CutFieldExactly(p: Parser, f: Field, j: nat, files: Files)
    requires Wf(p) && p.check == CheckHeader && p.state == NoRequest && FieldOk(f) && j < |FieldText(f)|
    ensures var o := InTwo(p, FieldText(f) + CRLF, j, files);
      o.Returned? && match FieldIn(FieldText(f)[j..])
        case Some(g) => Control(o.p) == AfterField(Control(p), g)
        case None => o.p.request == p.request && o.p.sent == p.sent + [Exchange(p.request, p.version, NoRequest, p.connecting)]
  {
    var line := FieldText(f);
    var s := line[j..];
    FieldPlain(f);
    assert Visible(line) by {
      assert forall c <- line :: c in f.name || c == ':' || c == ' ' || c in f.value;
    }
    SuffixMembers(line, j);
    VisibleUpToNul(s);
    CutLineForgotten(p, line, j, files);
    LineReceived(p, s, files);
    LineTaken(Control(p), s, files);
    var o := OnMessage(p, s + CRLF, files);
    assert Control(o.p).request == o.p.request && Control(o.p).sent == o.p.sent;
  }

  /** Cut just before its CRLF, the head of the request ends there, without the field. */
  lemma CutBeforeCRLF(p: Parser, f: Field, files: Files)
    requires Wf(p) && p.check == CheckHeader && p.state == NoRequest && FieldOk(f) && p.contentLength == 0
    ensures var o := InTwo(p, FieldText(f) + CRLF, |FieldText(f)|, files);
      && o.Returned?
      && o.p.sent == p.sent + [Exchange(p.request, p.version, DoRequest(p, files).state, p.connecting)]
  {
    var n := |FieldText(f)|;
    FieldPlain(f);
    assert FieldText(f)[n..] == "";
    CutLineForgotten(p, FieldText(f), n, files);
    LineReceived(p, "", files);
    var o := OnMessage(p, "" + CRLF, files);
    assert Control(o.p).sent == o.p.sent;
  }

  // ------------------------------------------------------------------- inside a body

  /** The body was taken whole: its request is the first one answered. */
  predicate BodyRecovered(p: Parser, body: string, o: HttpSpec.Outcome, files: Files) {
    var q := p.(request := p.request.(body := body));
    o.Returned? && |o.p.sent| > |p.sent| &&
    o.p.sent[|p.sent|] == Exchange(q.request, q.version, DoRequest(q, files).state, q.connecting)
  }

  lemma {:induction false} SentGrows(p: Parser, files: Files)
    requires Wf(p)
    ensures var o := Process(p, files); o.Returned? ==> p.sent <= o.p.sent
    decreases Remaining(p)
  {
    var round := Round(p, files);
    if round.Again? && Remaining(round.p) < Remaining(p) {
      SentGrows(round.p, files);
    }
  }

  /** Part of a body, as a message: the parser goes on waiting for the whole of it, or
      answers it as a bad request. */
  lemma PartReceived(p: Parser, part: string, files: Files)
    requires Wf(p) && p.check == CheckContent && |part| < p.contentLength
    ensures var o := OnMessage(p, part, files); o.Returned? ==>
      && Wf(o.p) && (part != "" ==> o.p.input != "")
      && (Control(o.p) == Control(p).(state := NoRequest) ||
          (|o.p.sent| == |p.sent| + 1 && p.sent <= o.p.sent && o.p.sent[|p.sent|].state == Invalid))
  {
    var q := TakeInput(p, part);
    assert "" + part == part && q.input == part && q.pos == 0;
    assert q.input[q.pos..] == part;
    RestReads(q, files);
    RestProcessed(q, files);
    assert Control(q) == Control(p);
  }

  lemma WholeBodyReceived(p: Parser, body: string, files: Files)
    requires Wf(p) && p.check == CheckContent && |body| == p.contentLength
    ensures BodyRecovered(p, body, OnMessage(p, body, files), files) && Wf(OnMessage(p, body, files).p)
  {
    var us := [Body(body)];
    assert us[1..] == [] && Stream(us) == body + "" == body;
    var (c, ret) := FeedUnit(Control(p), us[0], files);
    if c.connecting {
      assert Feed(Control(p), us, files) == Feed(Init(Respond(c), false), [], files);
    }
    MessageRefinesFeed(p, us, files);
    var o := OnMessage(p, body, files);
    assert Control(o.p).sent == o.p.sent;
  }

  /** A body that arrives in two messages is recovered exactly when it is not cut inside. */
  lemma CutBodyRecoveredExactly(p: Parser, body: string, j: nat, files: Files)
    requires Wf(p) && p.check == CheckContent && p.state == NoRequest && |body| == p.contentLength && j <= |body|
    ensures BodyRecovered(p, body, InTwo(p, body, j, files), files) <==> j == 0 || j == |body|
  {
    if j == 0 {
      assert body[..0] == "" && body[0..] == body;
      EmptyMessage(p, files);
      var q := OnMessage(p, "", files).p;
      assert TakeInput(q, body) == TakeInput(p, body) by {
        assert "" + body == body;
      }
      WholeBodyReceived(p, body, files);
    } else if j == |body| {
      assert body[..j] == body && body[j..] == "";
      WholeBodyReceived(p, body, files);
      EmptyMessage(OnMessage(p, body, files).p, files);
    } else {
      CutInsideBody(p, body, j, files);
    }
  }

  lemma CutInsideBody(p: Parser, body: string, j: nat, files: Files)
    requires Wf(p) && p.check == CheckContent && |body| == p.contentLength && 0 < j < |body|
    ensures !BodyRecovered(p, body, InTwo(p, body, j, files), files)
  {
    PartReceived(p, body[..j], files);
    var first := OnMessage(p, body[..j], files);
    if first.Returned? {
      var q := first.p;
      if Control(q) == Control(p).(state := NoRequest) {
        assert q.check == Control(q).check && q.contentLength == Control(q).contentLength && q.sent == Control(q).sent;
        PartReceived(q, body[j..], files);
        var o := OnMessage(q, body[j..], files);
        if o.Returned? && Control(o.p) == Control(q).(state := NoRequest) {
          assert o.p.sent == Control(o.p).sent;
        }
      } else {
        SentGrows(TakeInput(q, body[j..]), files);
      }
    }
  }

  // ------------------------------------------------------- the first request of a connection

  /** The request line and the first `k` header lines. */
  function HeadPart(r: HttpRequest, k: nat): seq<Unit>
    requires k <= |r.fields|
  {
    [Line(RequestLineText(r))] + FieldLines(r.fields[..k])
  }

  lemma {:induction false} FieldsPrefixOk(fields: seq<Field>, k: nat)
    requires FieldsOk(fields) && k <= |fields|
    ensures FieldsOk(fields[..k])
    decreases k
  {
    if k > 0 {
      FieldsPrefixOk(fields[1..], k - 1);
      assert fields[..k][1..] == fields[1..][..k - 1];
    }
  }

  lemma HeadPartFed(p: Parser, r: HttpRequest, k: nat, files: Files)
    requires Idle(p) && RequestOk(r) && k <= |r.fields|
    ensures AllFit(p, HeadPart(r, k), files)
    ensures var f := Feed(p, HeadPart(r, k), files);
      !f.halted && f.p.connecting == (p.connecting || Keeps(r.fields[..k]))
  {
    FieldsPrefixOk(r.fields, k);
    var us := FieldLines(r.fields[..k]);
    RequestLineFed(p, r, us, files);
    RequestLineRecovered(p, r);
    var h := ParseRequestLine(p, RequestLineText(r)).0;
    assert us + [] == us;
    FieldLinesFed(h, r.fields[..k], [], files);
    AfterFieldsIs(h, r.fields[..k]);
  }

  /** A first message that ends within the head keeps a fresh connection exactly when it
      already holds the keep-alive line. */
  lemma FirstMessageKeptExactly(p: Parser, r: HttpRequest, k: nat, files: Files)
    requires Wf(p) && Idle(p) && !p.connecting && RequestOk(r) && k <= |r.fields|
    ensures var o := OnMessage(p, Stream(HeadPart(r, k)), files);
      o.Returned? && o.p.sent == p.sent && (o.keep <==> Keeps(r.fields[..k]))
  {
    HeadPartFed(Control(p), r, k, files);
    MessageRefinesFeed(p, HeadPart(r, k), files);
    HeadPartSilent(Control(p), r, k, files);
    var o := OnMessage(p, Stream(HeadPart(r, k)), files);
    assert Control(o.p).sent == o.p.sent;
  }

  lemma HeadPartSilent(p: Parser, r: HttpRequest, k: nat, files: Files)
    requires Idle(p) && RequestOk(r) && k <= |r.fields|
    ensures Feed(p, HeadPart(r, k), files).p.sent == p.sent
  {
    FieldsPrefixOk(r.fields, k);
    var us := FieldLines(r.fields[..k]);
    RequestLineFed(p, r, us, files);
    var h := ParseRequestLine(p, RequestLineText(r)).0;
    RequestLineRecovered(p, r);
    assert us + [] == us;
    FieldLinesFed(h, r.fields[..k], [], files);
    AfterFieldsIs(h, r.fields[..k]);
  }

  /** Whether the first message is kept decides the rest: pipelined requests on a fresh
      connection, cut at line ends and around bodies with the first cut in the first head,
      give what they give in one message exactly when the first chunk holds the keep-alive line. */
  lemma FreshChunksExactly(p: Parser, rs: seq<HttpRequest>, chunks: seq<seq<Unit>>, k: nat, files: Files)
    requires Wf(p) && Idle(p) && !p.connecting && rs != [] && (forall r <- rs :: RequestOk(r)) && Keeps(rs[0].fields)
    requires chunks != [] && Flatten(chunks) == PrintAll(rs)
    requires k <= |rs[0].fields| && chunks[0] == HeadPart(rs[0], k)
    ensures var whole := OnMessage(p, Stream(PrintAll(rs)), files); var cut := Messages(p, chunks, files);
      && whole.Returned? && cut.Returned?
      && (cut.keep && Control(cut.p) == Control(whole.p) <==> Keeps(rs[0].fields[..k]))
  {
    assert rs[0] in rs;
    if Keeps(rs[0].fields[..k]) {
      HeadPartFed(Control(p), rs[0], k, files);
      FreshChunksKept(p, rs, chunks, files);
    } else {
      FirstMessageKeptExactly(p, rs[0], k, files);
      RefusedFirst(p, chunks, files);
      PipelinedRoundTrip(p, rs, files);
    }
  }

  lemma RefusedFirst(p: Parser, chunks: seq<seq<Unit>>, files: Files)
    requires Wf(p) && chunks != []
    requires var o := OnMessage(p, Stream(chunks[0]), files); o.Returned? && !o.keep
    ensures Messages(p, chunks, files) == OnMessage(p, Stream(chunks[0]), files)
  {
  }

  lemma FreshChunksKept(p: Parser, rs: seq<HttpRequest>, chunks: seq<seq<Unit>>, files: Files)
    requires Wf(p) && Idle(p) && rs != [] && (forall r <- rs :: RequestOk(r)) && Keeps(rs[0].fields)
    requires chunks != [] && Flatten(chunks) == PrintAll(rs)
    requires var f := Feed(Control(p), chunks[0], files); !f.halted && f.p.connecting
    ensures var whole := OnMessage(p, Stream(PrintAll(rs)), files); var cut := Messages(p, chunks, files);
      whole.Returned? && cut.Returned? && cut.keep && Control(cut.p) == Control(whole.p)
  {
    var rest := Flatten(chunks[1..]);
    RequestsFed(Control(p), rs, files);
    FitPrefix(Control(p), chunks[0], rest, files);
    FeedAppend(Control(p), chunks[0], rest, files);
    MessageRefinesFeed(p, PrintAll(rs), files);
    MessageRefinesFeed(p, chunks[0], files);
    var q := OnMessage(p, Stream(chunks[0]), files).p;
    KeptChunks(q, chunks[1..], files);
    assert Messages(p, chunks, files) == Messages(q, chunks[1..], files);
  }

  lemma KeptChunks(q: Parser, chunks: seq<seq<Unit>>, files: Files)
    requires Wf(q) && Control(q).connecting && Control(q).state == NoRequest && AllFit(Control(q), Flatten(chunks), files)
    ensures var cut := Messages(q, chunks, files);
      cut.Returned? && cut.keep && Control(cut.p) == Feed(Control(q), Flatten(chunks), files).p
  {
    assert q.state == Control(q).state && q.connecting == Control(q).connecting;
    ChunkingHarmless(q, chunks, files);
    MessageRefinesFeed(q, Flatten(chunks), files);
  }
}
