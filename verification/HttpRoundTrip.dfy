/**
 Printing requests as section 3 of RFC 7230 lays them out and parsing them back,
 any number of them pipelined.
 */
module HttpRoundTrip {
  import opened HttpSpec
  import opened Wrappers
  import opened HttpUnits

  // origin-form and absolute-form targets (sections 5.3.1 and 5.3.2 of RFC 7230)
  datatype Target = Origin(path: string) | Absolute(host: string, path: string)

  datatype Field = Field(name: string, value: string)

  datatype HttpRequest = HttpRequest(meth: Method, target: Target, version: Version, fields: seq<Field>, body: string)

  function MethodText(m: Method): string {
    match m
    case GET => "GET"
    case POST => "POST"
    case HEAD => "HEAD"
    case InvalidMethod => ""
  }

  function VersionText(v: Version): string {
    match v
    case Http10 => "HTTP/1.0"
    case Http11 => "HTTP/1.1"
    case Unknown => ""
  }

  function TargetText(t: Target): string {
    match t
    case Origin(path) => path
    case Absolute(host, path) => SCHEME + host + path
  }

  function RequestLineText(r: HttpRequest): string {
    MethodText(r.meth) + " " + TargetText(r.target) + " " + VersionText(r.version)
  }

  function FieldText(f: Field): string { f.name + ": " + f.value }

  function FieldLines(fields: seq<Field>): seq<Unit> {
    if fields == [] then [] else [Line(FieldText(fields[0]))] + FieldLines(fields[1..])
  }

  function Print(r: HttpRequest): seq<Unit> {
    [Line(RequestLineText(r))] + FieldLines(r.fields) + [Line("")] + (if r.body == "" then [] else [Body(r.body)])
  }

  function PrintAll(rs: seq<HttpRequest>): seq<Unit> {
    if rs == [] then [] else Print(rs[0]) + PrintAll(rs[1..])
  }

  // ---------------------------------------------------------------- well-formedness

  predicate Visible(s: string) { forall c <- s :: c != '\r' && c != '\n' && c != '\0' }

  predicate NoSpace(s: string) { forall c <- s :: c != ' ' }

  predicate TargetOk(t: Target) {
    && Visible(TargetText(t)) && NoSpace(TargetText(t))
    && t.path != "" && t.path[0] == '/'
    && (t.Absolute? ==> forall c <- t.host :: c != '/')
  }

  predicate FieldOk(f: Field) {
    && Visible(f.name) && Visible(f.value) && f.value != ""
    && forall i: nat :: i <= |f.name| ==> !At(f.name, ": ", i)
  }

  predicate FieldsOk(fields: seq<Field>)
    decreases |fields|
  {
    fields == [] || (FieldOk(fields[0]) && FieldsOk(fields[1..]))
  }

  /** The body length the header lines announce, starting from `n`: the last one counts. */
  function Announced(n: nat, fields: seq<Field>): nat
    decreases |fields|
  {
    if fields == [] then n
    else Announced(if fields[0].name == "Content-Length" then ToSize(Atoi(fields[0].value)) else n, fields[1..])
  }

  predicate KeepsAlive(f: Field) {
    f.name == "Connection" && (f.value == "keep-alive" || f.value == "Keep-Alive")
  }

  predicate Keeps(fields: seq<Field>)
    decreases |fields|
  {
    fields != [] && (KeepsAlive(fields[0]) || Keeps(fields[1..]))
  }

  /** The header table after these lines: later lines override earlier ones. */
  function Override(headers: map<string, string>, fields: seq<Field>): map<string, string>
    decreases |fields|
  {
    if fields == [] then headers else Override(headers[fields[0].name := fields[0].value], fields[1..])
  }

  predicate RequestLineOk(r: HttpRequest) {
    r.meth != InvalidMethod && r.version != Unknown && TargetOk(r.target)
  }

  predicate RequestOk(r: HttpRequest) {
    && RequestLineOk(r)
    && FieldsOk(r.fields) && Announced(0, r.fields) == |r.body|
  }

  // ------------------------------------------------------------------ what is recovered

  /** The parser's request record once `r` has been read into it. */
  function Recovered(before: Request, r: HttpRequest): Request {
    Request(r.meth, r.version, r.target.path, if r.body == "" then before.body else r.body,
            Override(before.headers, r.fields))
  }

  /** How a request is answered: a HEAD request by its head; any other by the resource it
      names, not found when it is missing and an internal error when it cannot be read. */
  function AnswerTo(meth: Method, path: string, files: Files): HttpState {
    if meth == HEAD then OnlyHead
    else if path == "/hello" then GetResource
    else match files(path)
      case Found => GetResource
      case Missing => NotFound
      case Unreadable => InternalError
  }

  function Outcome(r: HttpRequest, files: Files): HttpState { AnswerTo(r.meth, r.target.path, files) }

  lemma AnsweredAs(p: Parser, files: Files)
    ensures DoRequest(p, files) == p.(state := AnswerTo(p.request.meth, p.request.uri, files))
  {
  }

  /** One response for each request, in order, each made from that request. */
  function Exchanges(before: Request, rs: seq<HttpRequest>, files: Files): seq<Exchange>
    decreases |rs|
  {
    if rs == [] then []
    else
      var q := Recovered(before, rs[0]);
      [Exchange(q, rs[0].version, Outcome(rs[0], files), true)] + Exchanges(q, rs[1..], files)
  }

  function LastRequest(before: Request, rs: seq<HttpRequest>): Request
    decreases |rs|
  {
    if rs == [] then before else LastRequest(Recovered(before, rs[0]), rs[1..])
  }

  // ------------------------------------------------------------------ strings

  lemma FindIs(s: string, pat: string, from: nat, i: nat)
    requires from <= i && At(s, pat, i) && forall j: nat :: from <= j < i ==> !At(s, pat, j)
    ensures Find(s, pat, from) == Some(i)
  {
    FindFirst(s, pat, from);
  }

  lemma {:induction false} VisibleUpToNul(s: string)
    requires Visible(s)
    ensures UpToNul(s) == s && Plain(s)
  {
    if s != "" {
      assert s[0] in s && forall c <- s[1..] :: c in s;
      VisibleUpToNul(s[1..]);
    }
  }

  /** The first `c` in `a + [c] + b`, when `a` has none. */
  lemma FindChar(a: string, c: char, b: string, from: nat)
    requires c !in a && from <= |a|
    ensures Find(a + [c] + b, [c], from) == Some(|a|)
  {
    var s := a + [c] + b;
    assert s[|a|..|a| + 1] == [c];
    forall j: nat | from <= j < |a|
      ensures !At(s, [c], j)
    {
      assert s[j] == a[j] && a[j] in a;
      assert s[j..j + 1] == [s[j]];
    }
    FindIs(s, [c], from, |a|);
  }

  lemma PathRecovered(t: Target, before: string)
    requires TargetOk(t)
    ensures PathOf(TargetText(t), before) == t.path
  {
    var s := TargetText(t);
    match t
    case Origin(path) =>
      assert s == [] + ['/'] + path[1..];
      FindChar([], '/', path[1..], 0);
      assert SCHEME[0] == 'h';
    case Absolute(host, path) =>
      assert SCHEME <= s;
      assert s == (SCHEME + host) + ['/'] + path[1..];
      assert s[|SCHEME + host|..|SCHEME + host| + 1] == "/";
      forall j: nat | |SCHEME| <= j < |SCHEME + host|
        ensures !At(s, "/", j)
      {
        assert s[j] == host[j - |SCHEME|] && host[j - |SCHEME|] in host;
        assert s[j..j + 1] == [s[j]];
      }
      FindIs(s, "/", |SCHEME|, |SCHEME + host|);
      assert s[|SCHEME + host|..] == path;
  }

  // -------------------------------------------------------------------- request line

  lemma RequestLinePlain(r: HttpRequest)
    requires RequestLineOk(r)
    ensures Plain(RequestLineText(r)) && UpToNul(RequestLineText(r)) == RequestLineText(r)
  {
    var m, u, v := MethodText(r.meth), TargetText(r.target), VersionText(r.version);
    assert Visible(m) && Visible(v);
    assert forall c <- RequestLineText(r) :: c in m || c == ' ' || c in u || c in v;
    VisibleUpToNul(RequestLineText(r));
  }

  /** Three words, as they are cut out of a line at its spaces. */
  lemma WordsCut(m: string, u: string, v: string)
    ensures var line := m + " " + u + " " + v;
      && line[..|m|] == m && line[|m| + 1..|m| + 1 + |u|] == u && line[|m| + 2 + |u|..] == v
  {
  }

  /** The three parts of a request line, as the parser cuts them out. */
  lemma RequestLineParts(r: HttpRequest)
    requires RequestLineOk(r)
    ensures var m, u := MethodText(r.meth), TargetText(r.target); var line := RequestLineText(r);
      && Find(line, " ", 0) == Some(|m|) && Find(line, " ", |m| + 1) == Some(|m| + 1 + |u|)
      && |u| > 0 && |line| > |m| + |u| + 2
      && line[..|m|] == m && line[|m| + 1..|m| + 1 + |u|] == u && line[|m| + 2 + |u|..] == VersionText(r.version)
  {
    var m, u, v := MethodText(r.meth), TargetText(r.target), VersionText(r.version);
    FirstSpace(r.meth, u, v);
    SecondSpace(m, u, v);
    WordsCut(m, u, v);
    assert |u| >= |r.target.path| && |v| > 0;
  }

  lemma FirstSpace(m: Method, u: string, v: string)
    ensures var t := MethodText(m); Find(t + " " + u + " " + v, " ", 0) == Some(|t|)
  {
    var t := MethodText(m);
    assert ' ' !in t;
    assert t + " " + u + " " + v == t + [' '] + (u + " " + v);
    FindChar(t, ' ', u + " " + v, 0);
  }

  lemma NamesRecovered(m: Method, v: Version)
    requires m != InvalidMethod && v != Unknown
    ensures ToMethod(MethodText(m)) == m && ToVersion(VersionText(v)) == v
  {
    assert "GET"[0] == 'G' && "POST"[0] == 'P' && "HEAD"[0] == 'H';
    assert "HTTP/1.0"[7] == '0' && "HTTP/1.1"[7] == '1';
  }

  lemma RequestLineRecovered(p: Parser, r: HttpRequest)
    requires RequestLineOk(r)
    ensures ParseRequestLine(p, RequestLineText(r)) ==
      (p.(request := Request(r.meth, r.version, r.target.path, p.request.body, p.request.headers),
          version := r.version, check := CheckHeader), NoRequest)
  {
    RequestLineParts(r);
    NamesRecovered(r.meth, r.version);
    PathRecovered(r.target, p.request.uri);
    var i := |MethodText(r.meth)|;
    PartsParsed(p, RequestLineText(r), i, i + 1 + |TargetText(r.target)|, MethodText(r.meth), TargetText(r.target), VersionText(r.version));
  }

  /** Parsing a request line whose two spaces are at `i` and `j`. */
  lemma PartsParsed(p: Parser, line: string, i: nat, j: nat, m: string, u: string, v: string)
    requires Find(line, " ", 0) == Some(i) && Find(line, " ", i + 1) == Some(j)
    requires i + 1 < j < |line| - 1 && line[..i] == m && line[i + 1..j] == u && line[j + 1..] == v
    requires ToMethod(m) != InvalidMethod && ToVersion(v) != Unknown
    ensures ParseRequestLine(p, line) ==
      (p.(request := Request(ToMethod(m), ToVersion(v), PathOf(u, p.request.uri), p.request.body, p.request.headers),
          version := ToVersion(v), check := CheckHeader), NoRequest)
  {
  }

  lemma SecondSpace(m: string, u: string, v: string)
    requires NoSpace(u)
    ensures Find(m + " " + u + " " + v, " ", |m| + 1) == Some(|m| + 1 + |u|)
  {
    var s := m + " " + u + " " + v;
    var k := |m| + 1 + |u|;
    assert s[k..k + 1] == " ";
    forall j: nat | |m| + 1 <= j < k
      ensures !At(s, " ", j)
    {
      assert s[j] == u[j - |m| - 1] && u[j - |m| - 1] in u;
      assert s[j..j + 1] == [s[j]];
    }
    FindIs(s, " ", |m| + 1, k);
  }

  // -------------------------------------------------------------------- header lines

  function AfterField(p: Parser, f: Field): Parser {
    p.(contentLength := if f.name == "Content-Length" then ToSize(Atoi(f.value)) else p.contentLength,
       connecting := p.connecting || KeepsAlive(f),
       request := p.request.(headers := p.request.headers[f.name := f.value]))
  }

  lemma FieldPlain(f: Field)
    requires FieldOk(f)
    ensures Plain(FieldText(f)) && UpToNul(FieldText(f)) == FieldText(f)
  {
    assert forall c <- FieldText(f) :: c in f.name || c == ':' || c == ' ' || c in f.value;
    VisibleUpToNul(FieldText(f));
  }

  lemma FieldParts(f: Field)
    requires FieldOk(f)
    ensures var line := FieldText(f); var n := |f.name|;
      Find(line, ": ", 0) == Some(n) && line[..n] == f.name && line[n + 2..] == f.value
  {
    var line := FieldText(f);
    var n := |f.name|;
    assert line[n..n + 2] == ": ";
    forall j: nat | j < n
      ensures !At(line, ": ", j)
    {
      if j + 2 <= n {
        assert line[j..j + 2] == f.name[j..j + 2];
        assert !At(f.name, ": ", j);
      } else {
        assert line[j..j + 2][1] == line[n] == ':' && ": "[1] == ' ';
      }
    }
    FindIs(line, ": ", 0, n);
  }

  lemma FieldRecovered(p: Parser, f: Field)
    requires FieldOk(f)
    ensures ParseHeaders(p, FieldText(f)) == (AfterField(p, f), NoRequest)
  {
    FieldParts(f);
  }

  function AfterFields(p: Parser, fields: seq<Field>): Parser
    decreases |fields|
  {
    if fields == [] then p else AfterFields(AfterField(p, fields[0]), fields[1..])
  }

  lemma {:induction false} AfterFieldsIs(p: Parser, fields: seq<Field>)
    ensures AfterFields(p, fields) ==
      p.(contentLength := Announced(p.contentLength, fields),
         connecting := p.connecting || Keeps(fields),
         request := p.request.(headers := Override(p.request.headers, fields)))
    decreases |fields|
  {
    if fields != [] {
      AfterFieldsIs(AfterField(p, fields[0]), fields[1..]);
    }
  }

  lemma FieldFed(p: Parser, f: Field, us: seq<Unit>, files: Files)
    requires p.check == CheckHeader && FieldOk(f)
    ensures Feed(p, [Line(FieldText(f))] + us, files) == Feed(AfterField(p, f), us, files)
    ensures AllFit(p, [Line(FieldText(f))] + us, files) <==> AllFit(AfterField(p, f), us, files)
  {
    FieldPlain(f);
    FieldRecovered(p, f);
    var all := [Line(FieldText(f))] + us;
    assert all[0] == Line(FieldText(f)) && all[1..] == us;
  }

  lemma FirstFieldLine(fields: seq<Field>, us: seq<Unit>)
    requires fields != []
    ensures FieldLines(fields) + us == [Line(FieldText(fields[0]))] + (FieldLines(fields[1..]) + us)
  {
  }

  lemma {:induction false} FieldLinesFed(p: Parser, fields: seq<Field>, us: seq<Unit>, files: Files)
    requires p.check == CheckHeader && FieldsOk(fields)
    ensures Feed(p, FieldLines(fields) + us, files) == Feed(AfterFields(p, fields), us, files)
    ensures AllFit(p, FieldLines(fields) + us, files) <==> AllFit(AfterFields(p, fields), us, files)
    decreases |fields|
  {
    if fields == [] {
      assert FieldLines(fields) + us == us;
    } else {
      FieldFed(p, fields[0], FieldLines(fields[1..]) + us, files);
      FirstFieldLine(fields, us);
      FieldLinesFed(AfterField(p, fields[0]), fields[1..], us, files);
    }
  }

  // ---------------------------------------------------------------------- one request

  /** The parser between two requests. */
  predicate Idle(p: Parser) { p.check == CheckRequestLine && p.contentLength == 0 && p.state == NoRequest }

  /** The blank line of a request without a body: it is answered. */
  lemma BlankLineFed(p: Parser, us: seq<Unit>, files: Files)
    requires p.check == CheckHeader && p.contentLength == 0 && p.connecting
    ensures var q := Init(Respond(DoRequest(p, files)), false);
      && Feed(p, [Line("")] + us, files) == Feed(q, us, files)
      && (AllFit(p, [Line("")] + us, files) <==> AllFit(q, us, files))
  {
    var all := [Line("")] + us;
    assert all[0] == Line("") && all[1..] == us;
  }

  /** The blank line before a body, and the body: then it is answered. */
  lemma BodyFed(p: Parser, b: string, us: seq<Unit>, files: Files)
    requires p.check == CheckHeader && p.contentLength == |b| > 0 && p.connecting
    ensures var q := Init(Respond(DoRequest(p.(check := CheckContent, request := p.request.(body := b)), files)), false);
      && Feed(p, [Line(""), Body(b)] + us, files) == Feed(q, us, files)
      && (AllFit(p, [Line(""), Body(b)] + us, files) <==> AllFit(q, us, files))
  {
    var all := [Line(""), Body(b)] + us;
    assert all[0] == Line("") && all[1..] == [Body(b)] + us;
    var rest := [Body(b)] + us;
    assert rest[0] == Body(b) && rest[1..] == us;
    var h := p.(check := CheckContent);
    assert FeedUnit(p, Line(""), files) == (h, NoRequest);
    assert Feed(p, all, files) == Feed(h, rest, files) && AllFit(p, all, files) == AllFit(h, rest, files);
  }

  /** The parser after one request. */
  function AfterRequest(p: Parser, r: HttpRequest, files: Files): Parser {
    p.(connecting := true, request := Recovered(p.request, r), version := r.version,
       sent := p.sent + [Exchange(Recovered(p.request, r), r.version, Outcome(r, files), true)])
  }

  /** What follows the header lines of `r`, then `us`. */
  function Tail(r: HttpRequest, us: seq<Unit>): seq<Unit> {
    (if r.body == "" then [Line("")] else [Line(""), Body(r.body)]) + us
  }

  lemma PrintShape(r: HttpRequest, us: seq<Unit>)
    ensures Print(r) + us == [Line(RequestLineText(r))] + (FieldLines(r.fields) + Tail(r, us))
  {
  }

  lemma RequestLineFed(p: Parser, r: HttpRequest, us: seq<Unit>, files: Files)
    requires Idle(p) && RequestOk(r)
    ensures var h := ParseRequestLine(p, RequestLineText(r)).0;
      && Feed(p, [Line(RequestLineText(r))] + us, files) == Feed(h, us, files)
      && (AllFit(p, [Line(RequestLineText(r))] + us, files) <==> AllFit(h, us, files))
  {
    RequestLinePlain(r);
    RequestLineRecovered(p, r);
    var all := [Line(RequestLineText(r))] + us;
    assert all[0] == Line(RequestLineText(r)) && all[1..] == us;
  }

  lemma TailFed(p: Parser, r: HttpRequest, us: seq<Unit>, files: Files)
    requires p.check == CheckHeader && p.contentLength == |r.body| && p.connecting
    ensures var q := Init(Respond(DoRequest(p.(request := p.request.(body := if r.body == "" then p.request.body else r.body)), files)), false);
      && Feed(p, Tail(r, us), files) == Feed(q, us, files)
      && (AllFit(p, Tail(r, us), files) <==> AllFit(q, us, files))
  {
    if r.body == "" {
      BlankLineFed(p, us, files);
    } else {
      BodyFed(p, r.body, us, files);
    }
  }

  lemma RequestFed(p: Parser, r: HttpRequest, us: seq<Unit>, files: Files)
    requires Idle(p) && RequestOk(r) && (p.connecting || Keeps(r.fields))
    ensures var q := AfterRequest(p, r, files);
      && Feed(p, Print(r) + us, files) == Feed(q, us, files)
      && (AllFit(p, Print(r) + us, files) <==> AllFit(q, us, files))
  {
    PrintShape(r, us);
    RequestLineFed(p, r, FieldLines(r.fields) + Tail(r, us), files);
    RequestLineRecovered(p, r);
    var h := ParseRequestLine(p, RequestLineText(r)).0;
    FieldLinesFed(h, r.fields, Tail(r, us), files);
    AfterFieldsIs(h, r.fields);
    TailFed(AfterFields(h, r.fields), r, us, files);
  }

  function AfterRequests(p: Parser, rs: seq<HttpRequest>, files: Files): Parser
    decreases |rs|
  {
    if rs == [] then p else AfterRequests(AfterRequest(p, rs[0], files), rs[1..], files)
  }

  lemma {:induction false} AfterRequestsIs(p: Parser, rs: seq<HttpRequest>, files: Files)
    requires p.connecting || rs != []
    ensures var q := AfterRequests(p, rs, files);
      && q.connecting && (Idle(p) ==> Idle(q))
      && q.sent == p.sent + Exchanges(p.request, rs, files) && q.request == LastRequest(p.request, rs)
    decreases |rs|
  {
    if rs != [] {
      AfterRequestsIs(AfterRequest(p, rs[0], files), rs[1..], files);
    }
  }

  lemma {:induction false} RequestsFed(p: Parser, rs: seq<HttpRequest>, files: Files)
    requires Idle(p) && (forall r <- rs :: RequestOk(r))
    requires p.connecting || (rs != [] && Keeps(rs[0].fields))
    ensures AllFit(p, PrintAll(rs), files)
    ensures Feed(p, PrintAll(rs), files) == Fed(AfterRequests(p, rs, files), false)
    decreases |rs|
  {
    if rs == [] {
      assert p.(state := NoRequest) == p;
    } else {
      assert rs[0] in rs && forall r <- rs[1..] :: r in rs;
      RequestFed(p, rs[0], PrintAll(rs[1..]), files);
      RequestsFed(AfterRequest(p, rs[0], files), rs[1..], files);
    }
  }

  /** The pipelined round trip: any list of well-formed requests, the first of which keeps
      the connection alive (or it is kept already), printed back to back and received in one
      message, is answered with exactly one response per request, in order; each response
      carries the method, path, version, body and accumulated header table of its request;
      process keeps the connection and consumes all input. */
  lemma PipelinedRoundTrip(p: Parser, rs: seq<HttpRequest>, files: Files)
    requires Wf(p) && Idle(p) && (forall r <- rs :: RequestOk(r))
    requires p.connecting || (rs != [] && Keeps(rs[0].fields))
    ensures var o := OnMessage(p, Stream(PrintAll(rs)), files);
      && o.Returned? && o.keep && Idle(o.p) && o.p.input == "" && o.p.pos == 0
      && o.p.sent == p.sent + Exchanges(p.request, rs, files)
      && o.p.request == LastRequest(p.request, rs)
  {
    RequestsFed(Control(p), rs, files);
    AfterRequestsIs(Control(p), rs, files);
    MessageRefinesFeed(p, PrintAll(rs), files);
    var q := OnMessage(p, Stream(PrintAll(rs)), files).p;
    assert Control(q).sent == q.sent && Control(q).request == q.request;
    assert Idle(Control(q)) == Idle(q);
  }

  // -------------------------------------------------------- without keep-alive

  lemma BlankLineHalts(p: Parser, us: seq<Unit>, files: Files)
    requires p.check == CheckHeader && p.contentLength == 0 && !p.connecting
    ensures Feed(p, [Line("")] + us, files) == Fed(Respond(DoRequest(p, files)), true) && AllFit(p, [Line("")] + us, files)
  {
    var all := [Line("")] + us;
    assert all[0] == Line("") && all[1..] == us;
  }

  lemma BodyHalts(p: Parser, b: string, us: seq<Unit>, files: Files)
    requires p.check == CheckHeader && p.contentLength == |b| > 0 && !p.connecting
    ensures var h := p.(check := CheckContent, request := p.request.(body := b)); var all := [Line(""), Body(b)] + us;
      Feed(p, all, files) == Fed(Respond(DoRequest(h, files)), true) && AllFit(p, all, files)
  {
    var all := [Line(""), Body(b)] + us;
    var rest := [Body(b)] + us;
    assert all[0] == Line("") && all[1..] == rest && rest[0] == Body(b) && rest[1..] == us;
    var h := p.(check := CheckContent);
    assert FeedUnit(p, Line(""), files) == (h, NoRequest);
    assert Feed(p, all, files) == Feed(h, rest, files) && AllFit(p, all, files) == AllFit(h, rest, files);
  }

  lemma TailHalts(p: Parser, r: HttpRequest, us: seq<Unit>, files: Files)
    requires p.check == CheckHeader && p.contentLength == |r.body| && !p.connecting
    ensures AllFit(p, Tail(r, us), files)
    ensures var f := Feed(p, Tail(r, us), files);
      var q := DoRequest(p.(request := p.request.(body := if r.body == "" then p.request.body else r.body)), files);
      f.halted && f.p.sent == p.sent + [Exchange(q.request, q.version, q.state, false)]
  {
    if r.body == "" {
      BlankLineHalts(p, us, files);
    } else {
      BodyHalts(p, r.body, us, files);
    }
  }

  lemma RequestHalts(p: Parser, r: HttpRequest, us: seq<Unit>, files: Files)
    requires Idle(p) && RequestOk(r) && !p.connecting && !Keeps(r.fields)
    ensures AllFit(p, Print(r) + us, files)
    ensures var f := Feed(p, Print(r) + us, files);
      f.halted && f.p.sent == p.sent + [Exchange(Recovered(p.request, r), r.version, Outcome(r, files), false)]
  {
    PrintShape(r, us);
    RequestLineFed(p, r, FieldLines(r.fields) + Tail(r, us), files);
    RequestLineRecovered(p, r);
    var h := ParseRequestLine(p, RequestLineText(r)).0;
    FieldLinesFed(h, r.fields, Tail(r, us), files);
    AfterFieldsIs(h, r.fields);
    TailHalts(AfterFields(h, r.fields), r, us, files);
  }

  lemma {:induction false} StreamAppend(us: seq<Unit>, vs: seq<Unit>)
    ensures Stream(us + vs) == Stream(us) + Stream(vs)
    decreases |us|
  {
    if us == [] {
      assert us + vs == vs;
    } else {
      assert (us + vs)[0] == us[0] && (us + vs)[1..] == us[1..] + vs;
      StreamAppend(us[1..], vs);
    }
  }

  /** On a connection that is not kept, a request that does not keep it is answered, and
      nothing behind it is, whatever it is: process says that the connection is to be closed. */
  lemma UnkeptRoundTrip(p: Parser, r: HttpRequest, behind: string, files: Files)
    requires Wf(p) && Idle(p) && RequestOk(r) && !p.connecting && !Keeps(r.fields)
    ensures var o := OnMessage(p, Stream(Print(r)) + behind, files);
      && o.Returned? && !o.keep
      && o.p.sent == p.sent + [Exchange(Recovered(p.request, r), r.version, Outcome(r, files), false)]
  {
    var us := [Body(behind)];
    assert us[1..] == [] && Stream(us) == behind + "" == behind;
    StreamAppend(Print(r), us);
    RequestHalts(Control(p), r, us, files);
    MessageRefinesFeed(p, Print(r) + us, files);
    var q := OnMessage(p, Stream(Print(r)) + behind, files).p;
    assert Control(q).sent == q.sent;
  }

  /** How many of some pipelined requests are answered: all of them when the connection is kept
      or the first one keeps it, for keep-alive is never taken back; else the first one only. */
  lemma Answered(p: Parser, rs: seq<HttpRequest>, files: Files)
    requires Wf(p) && Idle(p) && (forall r <- rs :: RequestOk(r))
    ensures var o := OnMessage(p, Stream(PrintAll(rs)), files);
      var kept := p.connecting || (rs != [] && Keeps(rs[0].fields));
      && o.Returned? && o.keep == kept
      && |o.p.sent| == |p.sent| + if kept || rs == [] then |rs| else 1
  {
    if p.connecting || (rs != [] && Keeps(rs[0].fields)) {
      PipelinedRoundTrip(p, rs, files);
      ExchangesCount(p.request, rs, files);
    } else if rs == [] {
      MessageRefinesFeed(p, [], files);
      var q := OnMessage(p, "", files).p;
      assert Control(q).sent == q.sent;
    } else {
      assert rs[0] in rs;
      StreamAppend(Print(rs[0]), PrintAll(rs[1..]));
      UnkeptRoundTrip(p, rs[0], Stream(PrintAll(rs[1..])), files);
    }
  }

  lemma {:induction false} ExchangesCount(before: Request, rs: seq<HttpRequest>, files: Files)
    ensures |Exchanges(before, rs, files)| == |rs|
    decreases |rs|
  {
    if rs != [] {
      ExchangesCount(Recovered(before, rs[0]), rs[1..], files);
    }
  }
}
