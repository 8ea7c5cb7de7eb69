/**
 The HTTP request parser as functions of values: the two-level state machine of
 HttpParser over an input string that it edits in place and a position in it.
 */
module HttpSpec {
  import opened Digits
  import opened Wrappers

  datatype Method = InvalidMethod | GET | POST | HEAD
  datatype Version = Unknown | Http10 | Http11

  datatype CheckState = CheckRequestLine | CheckHeader | CheckContent
  datatype LineState = LineOK | LineBad | LineOpen
  datatype HttpState = Invalid | NotFound | NoRequest | GetRequest | GetResource | OnlyHead | InternalError

  datatype Request = Request(meth: Method, version: Version, uri: string, body: string, headers: map<string, string>)

  /** One response, as processWrite and send see it: the request so far, the response
      version, the outcome and whether the connection is kept. */
  datatype Exchange = Exchange(request: Request, version: Version, state: HttpState, keepAlive: bool)

  /** The fields of HttpParser; `version` is the response's, `sent` what was sent so far. */
  datatype Parser = Parser(
    connecting: bool,
    pos: nat,
    check: CheckState,
    state: HttpState,
    contentLength: nat,
    input: string,
    request: Request,
    version: Version,
    sent: seq<Exchange>)

  // What the file system answers for a path under the resource root.  Missing: no file there,
  // or a directory, or one that others may not read.  Unreadable: it cannot be opened or read.
  datatype Lookup = Found | Missing | Unreadable
  type Files = string -> Lookup

  /** The position stays within the input, and a body is awaited only when it has a length. */
  predicate Wf(p: Parser) {
    p.pos <= |p.input| && (p.check == CheckContent ==> p.contentLength != 0)
  }

  // ------------------------------------------------------------------- strings

  predicate At(s: string, pat: string, i: nat) {
    i + |pat| <= |s| && s[i..i + |pat|] == pat
  }

  /** First occurrence of `pat` in `s` at or after `from`. */
  function Find(s: string, pat: string, from: nat): (r: Option<nat>)
    ensures r.Some? ==> from <= r.value && r.value + |pat| <= |s|
    decreases |s| - from
  {
    if from + |pat| > |s| then None
    else if At(s, pat, from) then Some(from)
    else Find(s, pat, from + 1)
  }

  lemma {:induction false} FindFirst(s: string, pat: string, from: nat)
    ensures var r := Find(s, pat, from);
      && (r.Some? ==> from <= r.value && At(s, pat, r.value))
      && forall i: nat :: from <= i && At(s, pat, i) ==> r.Some? && r.value <= i
    decreases |s| - from
  {
    if from + |pat| <= |s| && !At(s, pat, from) {
      FindFirst(s, pat, from + 1);
    }
  }

  /** The characters before the first NUL: what a C string starting here contains. */
  function UpToNul(s: string): string {
    if s == [] || s[0] == '\0' then [] else [s[0]] + UpToNul(s[1..])
  }

  /** atoi: white space, sign, digits; the library reads a 64-bit long (saturating) and
      returns its low 32 bits as a signed int. */
  function Atoi(s: string): int {
    var t := SkipSpace(s);
    var neg := t != [] && t[0] == '-';
    var u := if t != [] && (t[0] == '-' || t[0] == '+') then t[1..] else t;
    var v := Read(LeadingDigits(u), 10);
    ToInt32(ToLong(if neg then -v else v))
  }

  function SkipSpace(s: string): string {
    if s != [] && (s[0] == ' ' || 9 <= s[0] as int <= 13) then SkipSpace(s[1..]) else s
  }

  function LeadingDigits(s: string): string {
    if s != [] && IsDigit(s[0], 10) then [s[0]] + LeadingDigits(s[1..]) else []
  }

  function ToLong(v: int): int {
    if v < -0x8000_0000_0000_0000 then -0x8000_0000_0000_0000
    else if v > 0x7FFF_FFFF_FFFF_FFFF then 0x7FFF_FFFF_FFFF_FFFF else v
  }

  /** The signed 32-bit integer with the same low bits. */
  function ToInt32(v: int): (r: int)
    ensures -0x8000_0000 <= r < 0x8000_0000
    decreases if v < 0 then -2 * v else 2 * v + 1
  {
    if v >= 0x8000_0000 then ToInt32(v - 0x1_0000_0000)
    else if v < -0x8000_0000 then ToInt32(v + 0x1_0000_0000)
    else v
  }

  function ToSize(v: int): nat
    requires -0x8000_0000 <= v < 0x8000_0000
  {
    if v < 0 then 0x1_0000_0000_0000_0000 + v else v
  }

  // ------------------------------------------------------------ the line scanner

  /** A carriage return or a line feed that is not part of a CRLF. */
  predicate BareLineEnd(input: string, pos: nat) {
    pos < |input| &&
    if input[pos] == '\r' then pos + 1 < |input| && input[pos + 1] != '\n'
    else input[pos] == '\n' && pos > 0 && input[pos - 1] != '\r'
  }

  /** The scanner blanks a CRLF once it has found it. */
  function Blank(input: string, pos: nat): string
    requires pos + 1 < |input|
  {
    input[pos := '\0'][pos + 1 := '\0']
  }

  /** Scanning reads `input[-1]` when a line feed stands at position 0. */
  datatype Scan = Scan(line: LineState, input: string, pos: nat) | BeforeStart

  function ParseLine(input: string, pos: nat): (r: Scan)
    requires pos <= |input|
    ensures r.Scan? && r.line.LineBad? ==> BareLineEnd(input, r.pos)
    ensures r.Scan? ==> |r.input| == |input| && pos <= r.pos <= |input|
    ensures r.Scan? && r.line.LineOK? ==> pos < r.pos
    ensures r.Scan? && !r.line.LineOK? ==> r.input == input
    decreases |input| - pos
  {
    if pos == |input| then Scan(LineOpen, input, pos)
    else if input[pos] == '\r' then
      if pos == |input| - 1 then Scan(LineOpen, input, pos)
      else if input[pos + 1] == '\n' then
        Scan(LineOK, Blank(input, pos), pos + 2)
      else Scan(LineBad, input, pos)
    else if input[pos] == '\n' then
      if pos == 0 then BeforeStart
      else if input[pos - 1] == '\r' then
        Scan(LineOK, Blank(input, pos - 1), pos + 1)
      else Scan(LineBad, input, pos)
    else ParseLine(input, pos + 1)
  }

  // ------------------------------------------------------- the main state machine

  function ToMethod(s: string): Method {
    if s == "GET" then GET else if s == "POST" then POST else if s == "HEAD" then HEAD else InvalidMethod
  }

  function ToVersion(s: string): Version {
    if s == "HTTP/1.0" then Http10 else if s == "HTTP/1.1" then Http11 else Unknown
  }

  const SCHEME := "http://"

  /** The path of a request target; a target without '/' leaves the old path standing. */
  function PathOf(uri: string, before: string): string {
    var begin := if SCHEME <= uri then |SCHEME| else 0;
    match Find(uri, "/", begin)
    case None => before
    case Some(i) => uri[i..]
  }

  function ParseRequestLine(p: Parser, line: string): (r: (Parser, HttpState))
    ensures r.0.input == p.input && r.0.pos == p.pos && r.0.sent == p.sent && r.0.connecting == p.connecting
    ensures r.1 in {Invalid, NoRequest} && r.0.contentLength == p.contentLength
    ensures r.0.check == if r.1 == NoRequest then CheckHeader else p.check
  {
    match Find(line, " ", 0)
    case None => (p, Invalid)
    case Some(i) =>
      var m := ToMethod(line[..i]);
      var p1 := p.(request := p.request.(meth := m));
      if m == InvalidMethod then (p1, Invalid)
      else
        match Find(line, " ", i + 1)
        case None => (p1, Invalid)
        case Some(j) =>
          if j == i + 1 then (p1, Invalid)
          else
            var p2 := p1.(request := p1.request.(uri := PathOf(line[i + 1..j], p1.request.uri)));
            if |line| == j + 1 then (p2, Invalid)
            else
              var v := ToVersion(line[j + 1..]);
              var p3 := p2.(request := p2.request.(version := v), version := v);
              if v == Unknown then (p3, Invalid) else (p3.(check := CheckHeader), NoRequest)
  }

  function ParseHeaders(p: Parser, line: string): (r: (Parser, HttpState))
    ensures r.0.input == p.input && r.0.pos == p.pos && r.0.sent == p.sent
    ensures p.connecting ==> r.0.connecting
    ensures r.1 in {Invalid, NoRequest, GetRequest}
    ensures r.1 == NoRequest ==> r.0.check == p.check || (r.0.check == CheckContent && r.0.contentLength != 0)
  {
    if line == [] then
      if p.contentLength != 0 then (p.(check := CheckContent), NoRequest) else (p, GetRequest)
    else
      match Find(line, ": ", 0)
      case None => (p, Invalid)
      case Some(i) =>
        var key := line[..i];
        if |line| <= i + 2 then (p, Invalid)
        else
          var value := line[i + 2..];
          var p1 :=
            if key == "Content-Length" then p.(contentLength := ToSize(Atoi(value)))
            else if key == "Connection" && (value == "keep-alive" || value == "Keep-Alive") then p.(connecting := true)
            else p;
          (p1.(request := p1.request.(headers := p1.request.headers[key := value])), NoRequest)
  }

  function GetResourceState(files: Files, uri: string): HttpState {
    if uri == "/hello" then GetResource
    else match files(uri)
      case Found => GetResource
      case Missing => NotFound
      case Unreadable => InternalError
  }

  function DoRequest(p: Parser, files: Files): Parser {
    p.(state := if p.request.meth == HEAD then OnlyHead else GetResourceState(files, p.request.uri))
  }

  /** What the main state machine does with one line of the head, and its answer. */
  function TakeLine(p: Parser, line: string, files: Files): (r: (Parser, HttpState))
    ensures r.0.input == p.input && r.0.pos == p.pos && r.0.sent == p.sent
    ensures p.connecting ==> r.0.connecting
    ensures p.check != CheckContent && r.0.check == CheckContent ==> r.0.contentLength != 0
  {
    if p.check == CheckHeader then
      var (q, ret) := ParseHeaders(p, line);
      if ret == GetRequest then var d := DoRequest(q, files); (d, d.state) else (q, ret)
    else
      var (q, ret) := ParseRequestLine(p, line);
      if ret == Invalid then (q.(state := Invalid), Invalid) else (q, ret)
  }

  function RecvBody(p: Parser): Parser
    requires p.pos + p.contentLength <= |p.input|
  {
    p.(request := p.request.(body := p.input[p.pos..p.pos + p.contentLength]), pos := p.pos + p.contentLength)
  }

  /** What processRead answers; it has no answer when it reads before the input. */
  datatype Answer = Answer(p: Parser, state: HttpState) | Undefined

  /** The loop of processRead, `begin` the start of the current line and `lineOK` whether
      the last line state is Line_OK.  An incomplete body sends the loop back to the line scanner. */
  function ReadLoop(p: Parser, begin: nat, lineOK: bool, files: Files): (r: Answer)
    requires begin <= p.pos <= |p.input|
    ensures r.Answer? ==> |r.p.input| == |p.input| && p.pos <= r.p.pos <= |p.input| && r.p.sent == p.sent
    ensures r.Answer? && p.connecting ==> r.p.connecting
    ensures r.Answer? && Wf(p) ==> Wf(r.p)
    ensures r.Answer? && Wf(p) && r.state != NoRequest && r.p.pos == p.pos ==>
      BareLineEnd(p.input, p.pos) && r.p == p.(state := Invalid)
    decreases |p.input| - p.pos, if p.check == CheckContent && lineOK then 2 else 0
  {
    if p.check == CheckContent && lineOK then Content(p, files)
    else
      match ParseLine(p.input, p.pos)
      case BeforeStart => Undefined
      case Scan(line, input, pos) =>
        var q := p.(input := input, pos := pos);
        if line == LineBad then Answer(q.(state := Invalid), Invalid)
        else if line == LineOpen then Answer(q.(state := NoRequest), NoRequest)
        else
          if p.check == CheckContent then Content(q, files)
          else
            var (q1, ret) := TakeLine(q, UpToNul(input[begin..]), files);
            if ret != NoRequest then Answer(q1, ret) else ReadLoop(q1, q1.pos, true, files)
  }

  function Content(p: Parser, files: Files): (r: Answer)
    requires p.pos <= |p.input| && p.check == CheckContent
    ensures r.Answer? ==> |r.p.input| == |p.input| && p.pos <= r.p.pos <= |p.input| && r.p.sent == p.sent
    ensures r.Answer? && p.connecting ==> r.p.connecting
    ensures r.Answer? && Wf(p) ==> Wf(r.p)
    ensures r.Answer? && Wf(p) && r.state != NoRequest && r.p.pos == p.pos ==>
      BareLineEnd(p.input, p.pos) && r.p == p.(state := Invalid)
    decreases |p.input| - p.pos, 1
  {
    if |p.input| - p.pos >= p.contentLength then
      var d := DoRequest(RecvBody(p), files);
      Answer(d, d.state)
    else ReadLoop(p, p.pos, false, files)
  }

  function ProcessRead(p: Parser, files: Files): Answer
    requires Wf(p)
  {
    ReadLoop(p, p.pos, true, files)
  }

  /** processWrite and send: one response leaves. */
  function Respond(p: Parser): Parser {
    p.(sent := p.sent + [Exchange(p.request, p.version, p.state, p.connecting)])
  }

  function Init(p: Parser, clear: bool): Parser {
    var q := p.(check := CheckRequestLine, state := NoRequest, contentLength := 0);
    if clear then q.(input := "", pos := 0) else q
  }

  // ------------------------------------------------------------------- process

  datatype Outcome =
    | Returned(p: Parser, keep: bool)
    | Diverges         // the loop never ends
    | ReadsOutside     // the scanner reads before the input

  datatype RoundEnd = Exit(outcome: Outcome) | Again(p: Parser)

  /** One turn of the loop of process. */
  function Round(p: Parser, files: Files): (r: RoundEnd)
    requires Wf(p)
    ensures r.Again? ==> Wf(r.p) && |r.p.sent| == |p.sent| + 1 && |r.p.input| - r.p.pos <= |p.input| - p.pos
  {
    match ProcessRead(p, files)
    case Undefined => Exit(ReadsOutside)
    case Answer(q, state) =>
      if state == NoRequest then Exit(Returned(q, q.connecting))
      else
        var r := Respond(q);
        if !r.connecting then Exit(Returned(r, false)) else Again(Init(r, |r.input| == r.pos))
  }

  function Remaining(p: Parser): int { |p.input| - p.pos }

  /** process.  A round that consumes nothing leaves the loop where it was, for ever. */
  function Process(p: Parser, files: Files): Outcome
    requires Wf(p)
    decreases Remaining(p)
  {
    match Round(p, files)
    case Exit(o) => o
    case Again(q) => if Remaining(q) < Remaining(p) then Process(q, files) else Diverges
  }

  /** The parser after `k` turns of the loop, if the loop gets that far. */
  function Rounds(p: Parser, files: Files, k: nat): (r: Option<Parser>)
    requires Wf(p)
    ensures r.Some? ==> Wf(r.value)
    decreases k
  {
    if k == 0 then Some(p)
    else match Round(p, files)
      case Exit(_) => None
      case Again(q) => Rounds(q, files, k - 1)
  }

  /** A round consumes something unless it stands at a bare line end, and from there every
      round answers 400 and stays. */
  lemma {:induction false} StuckForEver(p: Parser, files: Files, k: nat)
    requires Wf(p) && p.check == CheckRequestLine && p.connecting && BareLineEnd(p.input, p.pos)
    ensures Rounds(p, files, k).Some? && |Rounds(p, files, k).value.sent| == |p.sent| + k
    decreases k
  {
    if k > 0 {
      var q := Round(p, files).p;
      StuckForEver(q, files, k - 1);
    }
  }

  lemma StuckDiverges(p: Parser, files: Files)
    requires Wf(p) && p.check == CheckRequestLine && p.connecting && BareLineEnd(p.input, p.pos)
    ensures Process(p, files).Diverges?
  {
    assert Round(p, files).Again? && Remaining(Round(p, files).p) == Remaining(p);
  }

  /** The loop of process ends exactly when Process gives it a result; when it does not,
      it sends response after response without end. */
  lemma {:induction false} ProcessEndsExactly(p: Parser, files: Files)
    requires Wf(p)
    ensures Process(p, files).Diverges? ==>
      forall k: nat :: Rounds(p, files, k).Some? && |Rounds(p, files, k).value.sent| == |p.sent| + k
    ensures !Process(p, files).Diverges? ==> exists k: nat :: Rounds(p, files, k).None?
    decreases Remaining(p)
  {
    match Round(p, files)
    case Exit(_) =>
      assert Rounds(p, files, 1).None?;
    case Again(q) =>
      if Remaining(q) < Remaining(p) {
        ProcessEndsExactly(q, files);
        if Process(q, files).Diverges? {
          forall k: nat
            ensures Rounds(p, files, k).Some? && |Rounds(p, files, k).value.sent| == |p.sent| + k
          {
            if k > 0 {
              assert Rounds(q, files, k - 1).Some?;
            }
          }
        } else {
          var k: nat :| Rounds(q, files, k).None?;
          assert Rounds(p, files, k + 1).None?;
        }
      } else {
        forall k: nat
          ensures Rounds(p, files, k).Some? && |Rounds(p, files, k).value.sent| == |p.sent| + k
        {
          if k > 0 {
            StuckForEver(q, files, k - 1);
          }
        }
      }
  }
}
