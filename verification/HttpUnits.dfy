/**
 The parser seen at the grain of the protocol: lines ended by CRLF, and bodies.

 A request stream is a sequence of units.  `Feed` says what the parser does with
 whole units and knows nothing of positions, blanking or buffering; the main
 lemma shows that running `process` on the bytes does exactly that.  Printing
 then parsing pipelined requests, and cutting a stream into chunks, are both
 read off from it.
 */
module HttpUnits {
  import opened HttpSpec

  datatype Unit = Line(text: string) | Body(bytes: string)

  const CRLF := "\r\n"

  function Bytes(u: Unit): string {
    match u
    case Line(t) => t + CRLF
    case Body(b) => b
  }

  function Stream(us: seq<Unit>): string {
    if us == [] then "" else Bytes(us[0]) + Stream(us[1..])
  }

  predicate Plain(t: string) { forall c <- t :: c != '\r' && c != '\n' }

  /** The parser without its input: all that lasts from one message to the next. */
  function Control(p: Parser): Parser { p.(input := "", pos := 0) }

  /** The unit is of the kind the parser waits for, and a body has the announced length. */
  predicate Fits(p: Parser, u: Unit) {
    if p.check == CheckContent then u.Body? && |u.bytes| == p.contentLength else u.Line? && Plain(u.text)
  }

  function FeedUnit(p: Parser, u: Unit, files: Files): (Parser, HttpState) {
    match u
    case Body(b) =>
      var d := DoRequest(p.(request := p.request.(body := b)), files);
      (d, d.state)
    case Line(t) => TakeLine(p, UpToNul(t), files)
  }

  /** A whole stream.  `halted`: a response was sent on a connection that is not kept. */
  datatype Fed = Fed(p: Parser, halted: bool)

  function Feed(p: Parser, us: seq<Unit>, files: Files): Fed
    decreases |us|
  {
    if us == [] then Fed(p.(state := NoRequest), false)
    else
      var (q, ret) := FeedUnit(p, us[0], files);
      if ret == NoRequest then Feed(q, us[1..], files)
      else
        var r := Respond(q);
        if !r.connecting then Fed(r, true) else Feed(Init(r, false), us[1..], files)
  }

  predicate AllFit(p: Parser, us: seq<Unit>, files: Files)
    decreases |us|
  {
    us == [] ||
    (Fits(p, us[0]) &&
     var (q, ret) := FeedUnit(p, us[0], files);
     if ret == NoRequest then AllFit(q, us[1..], files)
     else !q.connecting || AllFit(Init(Respond(q), false), us[1..], files))
  }

  // ------------------------------------------------------------- scanning one line

  lemma {:induction false} UpToNulStops(t: string, rest: string)
    requires rest != "" && rest[0] == '\0'
    ensures UpToNul(t + rest) == UpToNul(t)
  {
    if t == "" {
      assert t + rest == rest;
    } else {
      assert (t + rest)[1..] == t[1..] + rest;
      UpToNulStops(t[1..], rest);
    }
  }

  lemma {:induction false} ScanLine(input: string, pos: nat, t: string, rest: string)
    requires pos <= |input| && input[pos..] == t + CRLF + rest && Plain(t)
    ensures ParseLine(input, pos) == Scan(LineOK, Blank(input, pos + |t|), pos + |t| + 2)
    decreases |t|
  {
    assert input[pos] == (t + CRLF + rest)[0];
    if t == "" {
      assert input[pos + 1] == (t + CRLF + rest)[1];
    } else {
      assert t[0] in t && forall c <- t[1..] :: c in t;
      assert input[pos + 1..] == t[1..] + CRLF + rest by {
        assert input[pos..][1..] == input[pos + 1..];
        assert (t + CRLF + rest)[1..] == t[1..] + CRLF + rest;
      }
      ScanLine(input, pos + 1, t[1..], rest);
    }
  }

  /** Scanning a line leaves its text as a C string and the rest of the input untouched. */
  lemma ScannedLine(input: string, pos: nat, t: string, rest: string)
    requires pos <= |input| && input[pos..] == t + CRLF + rest && Plain(t)
    ensures var s := ParseLine(input, pos);
      && s == Scan(LineOK, Blank(input, pos + |t|), pos + |t| + 2) && s.pos <= |s.input|
      && s.input[s.pos..] == rest && UpToNul(s.input[pos..]) == UpToNul(t)
  {
    ScanLine(input, pos, t, rest);
    BlankedLine(input, pos, t, rest);
    var e := Blank(input, pos + |t|);
    UpToNulStops(t, "\0\0" + rest);
    assert e[pos + |t| + 2..] == e[pos..][|t| + 2..] == rest;
  }

  lemma BlankedLine(input: string, pos: nat, t: string, rest: string)
    requires pos <= |input| && input[pos..] == t + CRLF + rest
    ensures pos + |t| + 2 <= |input| && Blank(input, pos + |t|)[pos..] == t + ("\0\0" + rest)
  {
    var n := |t|;
    assert |input[pos..]| == n + 2 + |rest|;
    var e := Blank(input, pos + n);
    assert e[pos..] == input[pos..][n := '\0'][n + 1 := '\0'];
    assert input[pos..][n := '\0'] == t + ("\0" + CRLF[1..] + rest);
  }

  // ----------------------------------------------- parsing looks at nothing but control

  lemma TakeLineControl(p: Parser, line: string, input: string, pos: nat, files: Files)
    ensures var r := TakeLine(p, line, files);
      TakeLine(p.(input := input, pos := pos), line, files) == (r.0.(input := input, pos := pos), r.1)
  {
  }

  /** `q` is where the read loop is behind one whole unit: it either goes on from there,
      or answers what the unit calls for. */
  ghost predicate Consumed(p: Parser, u: Unit, rest: string, files: Files, q: Parser)
    requires Wf(p)
  {
    ConsumedAs(p, FeedUnit(Control(p), u, files), rest, files, q)
  }

  ghost predicate ConsumedAs(p: Parser, fed: (Parser, HttpState), rest: string, files: Files, q: Parser)
    requires Wf(p)
  {
    && Control(q) == fed.0 && p.pos < q.pos <= |q.input| == |p.input| && q.input[q.pos..] == rest
    && (q.input[q.pos - 1] == '\r' <==> p.input[q.pos - 1] == '\r')
    && (if fed.1 == NoRequest then Wf(q) && ReadLoop(p, p.pos, true, files) == ReadLoop(q, q.pos, true, files)
        else ReadLoop(p, p.pos, true, files) == Answer(q, fed.1))
  }

  lemma BodyStep(p: Parser, b: string, rest: string, files: Files) returns (q: Parser)
    requires Wf(p) && Fits(p, Body(b)) && p.input[p.pos..] == b + rest
    ensures Consumed(p, Body(b), rest, files, q)
  {
    var end := p.pos + |b|;
    assert |p.input[p.pos..]| == |b + rest|;
    assert p.input[p.pos..end] == p.input[p.pos..][..|b|] == b;
    assert p.input[end..] == p.input[p.pos..][|b|..] == rest;
    q := FeedUnit(Control(p), Body(b), files).0.(input := p.input, pos := end);
    assert ReadLoop(p, p.pos, true, files) == Content(p, files);
  }

  /** One turn of the read loop on a line of the head. */
  lemma LineTurn(p: Parser, input: string, pos: nat, files: Files)
    requires Wf(p) && p.check != CheckContent && ParseLine(p.input, p.pos) == Scan(LineOK, input, pos)
    ensures p.pos <= |input| && pos <= |input|
    ensures var (q, ret) := TakeLine(p.(input := input, pos := pos), UpToNul(input[p.pos..]), files);
      ReadLoop(p, p.pos, true, files) == if ret != NoRequest then Answer(q, ret) else ReadLoop(q, q.pos, true, files)
  {
    var (q, ret) := TakeLine(p.(input := input, pos := pos), UpToNul(input[p.pos..]), files);
    TurnWith(p, input, pos, UpToNul(input[p.pos..]), q, ret, files);
  }

  lemma TurnWith(p: Parser, input: string, pos: nat, line: string, q: Parser, ret: HttpState, files: Files)
    requires Wf(p) && p.check != CheckContent && ParseLine(p.input, p.pos) == Scan(LineOK, input, pos)
    requires p.pos <= |input| && pos <= |input| && line == UpToNul(input[p.pos..])
    requires TakeLine(p.(input := input, pos := pos), line, files) == (q, ret)
    ensures ReadLoop(p, p.pos, true, files) == if ret != NoRequest then Answer(q, ret) else ReadLoop(q, q.pos, true, files)
  {
  }

  lemma LineStep(p: Parser, t: string, rest: string, files: Files) returns (q: Parser)
    requires Wf(p) && p.check != CheckContent && Plain(t) && p.input[p.pos..] == t + CRLF + rest
    ensures Consumed(p, Line(t), rest, files, q)
  {
    ScannedLine(p.input, p.pos, t, rest);
    var s := ParseLine(p.input, p.pos);
    LineTurn(p, s.input, s.pos, files);
    TakeLineControl(p, UpToNul(t), "", 0, files);
    TakeLineControl(p, UpToNul(t), s.input, s.pos, files);
    q := FeedUnit(Control(p), Line(t), files).0.(input := s.input, pos := s.pos);
    assert p.input[s.pos - 1] == p.input[p.pos..][|t| + 1] == '\n';
  }

  lemma UnitStep(p: Parser, u: Unit, rest: string, files: Files) returns (q: Parser)
    requires Wf(p) && Fits(p, u) && p.input[p.pos..] == Bytes(u) + rest
    ensures Consumed(p, u, rest, files, q)
  {
    match u
    case Body(b) => q := BodyStep(p, b, rest, files);
    case Line(t) => q := LineStep(p, t, rest, files);
  }

  /** At the end of the input the read loop waits for more. */
  lemma NothingLeft(p: Parser, files: Files)
    requires Wf(p) && p.pos == |p.input|
    ensures ReadLoop(p, p.pos, true, files) == Answer(p.(state := NoRequest), NoRequest)
  {
    if p.check == CheckContent {
      assert ReadLoop(p, p.pos, true, files) == Content(p, files) == ReadLoop(p, p.pos, false, files);
    }
    assert p.(input := p.input, pos := p.pos) == p;
  }

  // ------------------------------------------------------------------ the main lemma

  /** What is fed behind a unit that does not halt. */
  lemma FeedStep(p: Parser, us: seq<Unit>, files: Files)
    requires us != [] && AllFit(p, us, files)
    ensures Fits(p, us[0])
    ensures var (c, ret) := FeedUnit(p, us[0], files);
      if ret != NoRequest && !c.connecting then Feed(p, us, files) == Fed(Respond(c), true)
      else var m := if ret == NoRequest then c else Init(Respond(c), false);
        AllFit(m, us[1..], files) && Feed(p, us, files) == Feed(m, us[1..], files)
  {
  }

  /** Running process on the bytes of whole units does to the parser exactly what feeding
      it the units does: same requests and responses in the same order, same control state;
      unless a response was sent on a connection that is not kept, all input is consumed,
      and behind a last response the parser's input is empty. */
  lemma {:induction false} ProcessRefinesFeed(p: Parser, us: seq<Unit>, files: Files)
    requires Wf(p) && p.input[p.pos..] == Stream(us) && AllFit(Control(p), us, files)
    ensures var o := Process(p, files); var f := Feed(Control(p), us, files);
      && o.Returned? && Control(o.p) == f.p && o.keep == (!f.halted && f.p.connecting)
      && (!f.halted ==> o.p.pos == |o.p.input|) && Wf(o.p)
      && (!f.halted && f.p.check == CheckRequestLine && (us != [] || p.input == "") ==> o.p.input == "")
    decreases |us|
  {
    if us == [] {
      assert p.input[p.pos..] == "";
      NothingLeft(p, files);
    } else {
      FeedStep(Control(p), us, files);
      var q := UnitStep(p, us[0], Stream(us[1..]), files);
      var f := FeedUnit(Control(p), us[0], files);
      if f.1 == NoRequest {
        SameRound(p, q, files);
        ProcessRefinesFeed(q, us[1..], files);
      } else {
        ResponseRound(p, q, f.1, files);
        if q.connecting {
          var t := Init(Respond(q), |q.input| == q.pos);
          assert t.input[t.pos..] == Stream(us[1..]);
          assert Control(t) == Init(Respond(f.0), false);
          ProcessRefinesFeed(t, us[1..], files);
        }
      }
    }
  }

  /** Where the read loop goes on from `q`, so does process. */
  lemma SameRound(p: Parser, q: Parser, files: Files)
    requires Wf(p) && Wf(q) && ProcessRead(p, files) == ProcessRead(q, files) && Remaining(q) < Remaining(p)
    ensures Process(p, files) == Process(q, files)
  {
    var round := Round(p, files);
    assert round == Round(q, files);
    if round.Again? && Remaining(round.p) == Remaining(q) {
      StuckDiverges(round.p, files);
    }
  }

  /** A message answered: process returns, or starts over behind it. */
  lemma ResponseRound(p: Parser, q: Parser, state: HttpState, files: Files)
    requires Wf(p) && Wf(q) && state != NoRequest && ProcessRead(p, files) == Answer(q, state) && Remaining(q) < Remaining(p)
    ensures Process(p, files) ==
      if q.connecting then Process(Init(Respond(q), |q.input| == q.pos), files) else Returned(Respond(q), false)
  {
  }

  // --------------------------------------------------------------------- messages

  /** hasData: despite its name, true when the parser holds no input. */
  predicate HasData(p: Parser) { p.input == "" && p.pos == 0 }

  function TakeInput(p: Parser, message: string): Parser {
    if HasData(p) then p.(input := p.input + message) else p.(input := message, pos := 0)
  }

  /** onMessage, up to what it does with the answer: take the input, then process. */
  function OnMessage(p: Parser, message: string, files: Files): Outcome
    requires Wf(p)
  {
    Process(TakeInput(p, message), files)
  }

  lemma MessageRefinesFeed(p: Parser, us: seq<Unit>, files: Files)
    requires Wf(p) && AllFit(Control(p), us, files)
    ensures var o := OnMessage(p, Stream(us), files); var f := Feed(Control(p), us, files);
      && o.Returned? && Control(o.p) == f.p && o.keep == (!f.halted && f.p.connecting)
      && (!f.halted ==> o.p.pos == |o.p.input|) && Wf(o.p)
      && (!f.halted && f.p.check == CheckRequestLine ==> o.p.input == "")
  {
    var q := TakeInput(p, Stream(us));
    assert "" + Stream(us) == Stream(us);
    assert q.input == Stream(us) && q.pos == 0 && Control(q) == Control(p);
    assert q.input[q.pos..] == Stream(us);
    ProcessRefinesFeed(q, us, files);
  }

  // ----------------------------------------------------------------------- chunks

  /** On a kept connection the parser never halts. */
  lemma {:induction false} KeptNeverHalts(p: Parser, us: seq<Unit>, files: Files)
    requires p.connecting
    ensures !Feed(p, us, files).halted && Feed(p, us, files).p.connecting
    decreases |us|
  {
    if us != [] {
      var (q, ret) := FeedUnit(p, us[0], files);
      KeptNeverHalts(if ret == NoRequest then q else Init(Respond(q), false), us[1..], files);
    }
  }

  lemma {:induction false} FitPrefix(p: Parser, us: seq<Unit>, vs: seq<Unit>, files: Files)
    requires AllFit(p, us + vs, files)
    ensures AllFit(p, us, files)
    decreases |us|
  {
    if us != [] {
      assert (us + vs)[1..] == us[1..] + vs;
      var (q, ret) := FeedUnit(p, us[0], files);
      if ret == NoRequest {
        FitPrefix(q, us[1..], vs, files);
      } else if q.connecting {
        FitPrefix(Init(Respond(q), false), us[1..], vs, files);
      }
    }
  }

  lemma {:induction false} FeedAppend(p: Parser, us: seq<Unit>, vs: seq<Unit>, files: Files)
    requires p.state == NoRequest && AllFit(p, us + vs, files)
    ensures var f := Feed(p, us, files);
      if f.halted then Feed(p, us + vs, files) == f
      else f.p.state == NoRequest && AllFit(f.p, vs, files) && Feed(p, us + vs, files) == Feed(f.p, vs, files)
    decreases |us|
  {
    if us == [] {
      assert us + vs == vs;
      assert p.(state := NoRequest) == p;
    } else {
      assert (us + vs)[1..] == us[1..] + vs && (us + vs)[0] == us[0];
      FitPrefix(p, us, vs, files);
      FeedStep(p, us, files);
      FeedStep(p, us + vs, files);
      var (c, ret) := FeedUnit(p, us[0], files);
      if ret == NoRequest {
        AnswerState(p, us[0], files);
        FeedAppend(c, us[1..], vs, files);
      } else if c.connecting {
        FeedAppend(Init(Respond(c), false), us[1..], vs, files);
      }
    }
  }

  /** A unit that is not answered leaves the state alone. */
  lemma AnswerState(p: Parser, u: Unit, files: Files)
    requires p.state == NoRequest
    ensures var (c, ret) := FeedUnit(p, u, files); ret == NoRequest ==> c.state == NoRequest
  {
  }

  function Flatten(chunks: seq<seq<Unit>>): seq<Unit> {
    if chunks == [] then [] else chunks[0] + Flatten(chunks[1..])
  }

  /** One message after the other, for as long as the connection is kept. */
  function Messages(p: Parser, chunks: seq<seq<Unit>>, files: Files): Outcome
    requires Wf(p)
    decreases |chunks|
  {
    if chunks == [] then Returned(p, p.connecting)
    else
      match OnMessage(p, Stream(chunks[0]), files)
      case Returned(q, keep) => if keep && Wf(q) then Messages(q, chunks[1..], files) else Returned(q, keep)
      case Diverges => Diverges
      case ReadsOutside => ReadsOutside
  }

  /** Chunking does not matter at unit edges: on a kept connection, a stream cut anywhere
      behind a line end or a body gives the same requests, responses and control state as
      the stream in one piece. */
  lemma {:induction false} ChunkingHarmless(p: Parser, chunks: seq<seq<Unit>>, files: Files)
    requires Wf(p) && p.connecting && p.state == NoRequest
    requires AllFit(Control(p), Flatten(chunks), files)
    ensures var whole := OnMessage(p, Stream(Flatten(chunks)), files); var cut := Messages(p, chunks, files);
      && whole.Returned? && cut.Returned? && whole.keep && cut.keep
      && Control(cut.p) == Control(whole.p)
    decreases |chunks|
  {
    MessageRefinesFeed(p, Flatten(chunks), files);
    KeptNeverHalts(Control(p), Flatten(chunks), files);
    if chunks == [] {
      assert Control(p).(state := NoRequest) == Control(p);
    } else {
      var rest := Flatten(chunks[1..]);
      FitPrefix(Control(p), chunks[0], rest, files);
      FeedAppend(Control(p), chunks[0], rest, files);
      MessageRefinesFeed(p, chunks[0], files);
      KeptNeverHalts(Control(p), chunks[0], files);
      var q := OnMessage(p, Stream(chunks[0]), files).p;
      assert q.state == Control(q).state && q.connecting == Control(q).connecting;
      ChunkingHarmless(q, chunks[1..], files);
      MessageRefinesFeed(q, rest, files);
    }
  }
}
