/**
 Where the parser's promises end: announced lengths beyond 32 bits, and messages
 cut in two inside a line or a body.
 */
module HttpLimits {
  import opened Digits
  import opened HttpSpec
  import opened HttpUnits
  import opened HttpRoundTrip

  // ------------------------------------------------------------- announced lengths

  lemma {:induction false} LeadingDigitsAll(s: string)
    requires forall c <- s :: IsDigit(c, 10)
    ensures LeadingDigits(s) == s
  {
    if s != "" {
      assert s[0] in s && forall c <- s[1..] :: c in s;
      LeadingDigitsAll(s[1..]);
    }
  }

  /** A body length printed in decimal is read back exactly when it fits a signed 32-bit
      integer (or is the one size that -1 happens to turn into). */
  lemma LengthReadBackExactly(n: nat)
    requires n < 0x1_0000_0000_0000_0000
    ensures ToSize(Atoi(Digits.Print(n, 10))) == n <==> n < 0x8000_0000 || n == 0xFFFF_FFFF_FFFF_FFFF
  {
    var s := Digits.Print(n, 10);
    ReadPrint(n, 10);
    assert s[0] in s && IsDigit(s[0], 10);
    assert SkipSpace(s) == s;
    LeadingDigitsAll(s);
    assert Atoi(s) == ToInt32(ToLong(n));
    NarrowedExactly(n);
  }

  lemma {:induction false} LowBits(v: int)
    ensures ToInt32(v) == (v + 0x8000_0000) % 0x1_0000_0000 - 0x8000_0000
    decreases if v < 0 then -2 * v else 2 * v + 1
  {
    if v >= 0x8000_0000 {
      LowBits(v - 0x1_0000_0000);
    } else if v < -0x8000_0000 {
      LowBits(v + 0x1_0000_0000);
    }
  }

  lemma NarrowedExactly(n: nat)
    requires n < 0x1_0000_0000_0000_0000
    ensures ToSize(ToInt32(ToLong(n))) == n <==> n < 0x8000_0000 || n == 0xFFFF_FFFF_FFFF_FFFF
  {
    if n < 0x8000_0000 {
    } else if n > 0x7FFF_FFFF_FFFF_FFFF {
      LowBits(0x7FFF_FFFF_FFFF_FFFF);
      assert ToInt32(ToLong(n)) == -1;
    } else {
      var t := ToInt32(n);
      assert t < 0x8000_0000;
    }
  }

  /** So a request that announces its own body length parses exactly as printed. */
  lemma AnnouncedOwnLength(fields: seq<Field>, body: string)
    requires |body| < 0x8000_0000 && fields != []
    requires fields[|fields| - 1] == Field("Content-Length", Digits.Print(|body|, 10))
    ensures Announced(0, fields) == |body|
  {
    LengthReadBackExactly(|body|);
    AnnouncedLast(0, fields);
  }

  lemma {:induction false} AnnouncedLast(n: nat, fields: seq<Field>)
    requires fields != [] && fields[|fields| - 1].name == "Content-Length"
    ensures Announced(n, fields) == ToSize(Atoi(fields[|fields| - 1].value))
    decreases |fields|
  {
    if |fields| > 1 {
      AnnouncedLast(if fields[0].name == "Content-Length" then ToSize(Atoi(fields[0].value)) else n, fields[1..]);
    }
  }

  // ------------------------------------------------------ a request line cut in two

  lemma PlainTail(s: string)
    requires Plain(s) && s != ""
    ensures Plain(s[1..]) && s[0] != '\r' && s[0] != '\n'
  {
    assert s[0] in s;
    forall c | c in s[1..]
      ensures c in s
    {
    }
  }

  lemma {:induction false} PlainScansOpen(input: string, pos: nat)
    requires pos <= |input| && Plain(input[pos..])
    ensures ParseLine(input, pos) == Scan(LineOpen, input, |input|)
    decreases |input| - pos
  {
    if pos < |input| {
      PlainTail(input[pos..]);
      assert input[pos + 1..] == input[pos..][1..];
      PlainScansOpen(input, pos + 1);
    }
  }

  lemma {:induction false} TrailingReturnScansOpen(input: string, pos: nat)
    requires pos < |input| && input[|input| - 1] == '\r' && Plain(input[pos..|input| - 1])
    ensures ParseLine(input, pos) == Scan(LineOpen, input, |input| - 1)
    decreases |input| - pos
  {
    if pos < |input| - 1 {
      var t := input[pos..|input| - 1];
      PlainTail(t);
      assert input[pos + 1..|input| - 1] == t[1..];
      TrailingReturnScansOpen(input, pos + 1);
    }
  }

  // What is left of a valid request line after its first `j` characters: cut in the
  // method, in the target, or in the version.

  lemma CutInMethod(p: Parser, m: Method, tail: string, j: nat)
    requires m != InvalidMethod && 0 < j <= |MethodText(m)|
    ensures ParseRequestLine(p, MethodText(m)[j..] + [' '] + tail).1 == Invalid
  {
    var t := MethodText(m)[j..];
    var s := t + [' '] + tail;
    assert ' ' !in MethodText(m);
    FindChar(t, ' ', tail, 0);
    assert s[..|t|] == t;
    MethodSuffix(m, j);
  }

  lemma CutInTarget(p: Parser, u: string, v: string)
    requires ' ' !in u && ' ' !in v
    ensures ParseRequestLine(p, u + [' '] + v).1 == Invalid
  {
    var s := u + [' '] + v;
    FindFirst(s, " ", |u| + 1);
    FindChar(u, ' ', v, 0);
    forall i: nat | |u| + 1 <= i
      ensures !At(s, " ", i)
    {
      if i + 1 <= |s| {
        assert s[i..i + 1][0] == v[i - |u| - 1];
      }
    }
  }

  lemma CutInVersion(p: Parser, s: string)
    requires ' ' !in s
    ensures ParseRequestLine(p, s).1 == Invalid
  {
    FindFirst(s, " ", 0);
    forall i: nat
      ensures !At(s, " ", i)
    {
      if i + 1 <= |s| {
        assert s[i..i + 1][0] == s[i] && s[i] in s;
      }
    }
  }

  lemma DropInto(a: string, b: string, j: nat)
    requires j <= |a| + |b|
    ensures (a + b)[j..] == if j <= |a| then a[j..] + b else b[j - |a|..]
  {
  }

  /** What a cut after `j` characters leaves of three words. */
  lemma DropWords(m: string, u: string, v: string, j: nat)
    requires j <= |m + " " + u + " " + v|
    ensures var s := (m + " " + u + " " + v)[j..];
      s == if j <= |m| then m[j..] + [' '] + (u + " " + v)
           else if j <= |m| + 1 + |u| then u[j - |m| - 1..] + [' '] + v
           else v[j - |m| - |u| - 2..]
  {
    var tail := u + ([' '] + v);
    assert m + " " + u + " " + v == m + ([' '] + tail) && tail == u + " " + v;
    DropInto(m, [' '] + tail, j);
    if j <= |m| {
      assert m[j..] + ([' '] + tail) == m[j..] + [' '] + tail;
    } else {
      DropInto([' '], tail, j - |m|);
      DropInto(u, [' '] + v, j - |m| - 1);
      if j <= |m| + 1 + |u| {
        assert u[j - |m| - 1..] + ([' '] + v) == u[j - |m| - 1..] + [' '] + v;
      } else {
        DropInto([' '], v, j - |m| - 1 - |u|);
      }
    }
  }

  lemma SuffixMembers(s: string, k: nat)
    requires k <= |s|
    ensures forall c <- s[k..] :: c in s
  {
  }

  lemma CutRequestLineInvalid(p: Parser, r: HttpRequest, j: nat)
    requires RequestLineOk(r) && 0 < j <= |RequestLineText(r)|
    ensures ParseRequestLine(p, RequestLineText(r)[j..]).1 == Invalid
  {
    var m, u, v := MethodText(r.meth), TargetText(r.target), VersionText(r.version);
    DropWords(m, u, v, j);
    assert ' ' !in u && ' ' !in v;
    if j <= |m| {
      CutInMethod(p, r.meth, u + " " + v, j);
    } else if j <= |m| + 1 + |u| {
      SuffixMembers(u, j - |m| - 1);
      CutInTarget(p, u[j - |m| - 1..], v);
    } else {
      SuffixMembers(v, j - |m| - |u| - 2);
      CutInVersion(p, v[j - |m| - |u| - 2..]);
    }
  }

  lemma MethodSuffix(m: Method, j: nat)
    requires m != InvalidMethod && 0 < j <= |MethodText(m)|
    ensures ToMethod(MethodText(m)[j..]) == InvalidMethod
  {
    assert |MethodText(m)[j..]| <= 3;
    if |MethodText(m)[j..]| == 3 {
      assert MethodText(m)[j..][0] == MethodText(m)[1];
    }
  }

  /** Some bytes, in two messages. */
  function InTwo(p: Parser, bytes: string, j: nat, files: Files): HttpSpec.Outcome
    requires Wf(p) && j <= |bytes|
  {
    match OnMessage(p, bytes[..j], files)
    case Returned(q, _) => if Wf(q) then OnMessage(q, bytes[j..], files) else Diverges
    case o => o
  }

  predicate LineRecovered(p: Parser, r: HttpRequest, o: HttpSpec.Outcome) {
    && o.Returned? && o.p.sent == p.sent && o.p.check == CheckHeader
    && o.p.request.meth == r.meth && o.p.request.version == r.version && o.p.request.uri == r.target.path
  }

  lemma FirstPart(p: Parser, t: string, files: Files)
    requires Wf(p) && p.check != CheckContent
    requires Plain(t) || (t != "" && Plain(t[..|t| - 1]) && t[|t| - 1] == '\r')
    ensures var o := OnMessage(p, t, files);
      && o.Returned? && Wf(o.p) && o.p == p.(input := t, pos := o.p.pos, state := NoRequest)
      && (t == "" ==> HasData(o.p))
  {
    var q := TakeInput(p, t);
    assert "" + t == t && q.input == t && q.pos == 0;
    if Plain(t) {
      assert q.input[q.pos..] == t;
      PlainScansOpen(q.input, q.pos);
    } else {
      TrailingReturnScansOpen(q.input, q.pos);
    }
  }

  lemma OnlyLineFeed(p: Parser, files: Files)
    requires Wf(p) && p.check != CheckContent && p.input == "\n" && p.pos == 0
    ensures Process(p, files).ReadsOutside?
  {
    assert ParseLine("\n", 0).BeforeStart?;
  }

  lemma WholeLine(p: Parser, r: HttpRequest, files: Files)
    requires Wf(p) && p.check == CheckRequestLine && RequestLineOk(r)
    ensures LineRecovered(p, r, OnMessage(p, RequestLineText(r) + CRLF, files))
    ensures Wf(OnMessage(p, RequestLineText(r) + CRLF, files).p)
  {
    var us := [Line(RequestLineText(r))];
    RequestLinePlain(r);
    RequestLineRecovered(Control(p), r);
    assert us[1..] == [];
    assert Stream(us) == RequestLineText(r) + CRLF + "" == RequestLineText(r) + CRLF;
    var (h, ret) := FeedUnit(Control(p), us[0], files);
    assert Feed(Control(p), us, files) == Feed(h, [], files);
    MessageRefinesFeed(p, us, files);
    var o := OnMessage(p, Stream(us), files);
    assert Control(o.p).request == o.p.request && Control(o.p).sent == o.p.sent && Control(o.p).check == o.p.check;
  }

  lemma SecondPartAnswered(p: Parser, t: string, files: Files)
    requires Wf(p) && p.check == CheckRequestLine
    requires Plain(t) && UpToNul(t) == t && ParseRequestLine(Control(p), t).1 == Invalid
    ensures var o := OnMessage(p, t + CRLF, files); o.Returned? ==> |o.p.sent| == |p.sent| + 1
  {
    var us := [Line(t)];
    assert us[1..] == [];
    assert Stream(us) == t + CRLF + "" == t + CRLF;
    var (h, ret) := FeedUnit(Control(p), us[0], files);
    assert h.connecting ==> Feed(Control(p), us, files) == Feed(Init(Respond(h), false), [], files);
    MessageRefinesFeed(p, us, files);
    var o := OnMessage(p, Stream(us), files);
    assert Control(o.p).sent == o.p.sent;
  }

  /** A valid request line that arrives in two messages is recovered exactly when the cut is
      not inside it. */
  lemma CutRecoveredExactly(p: Parser, r: HttpRequest, j: nat, files: Files)
    requires Wf(p) && p.check == CheckRequestLine && RequestLineOk(r)
    requires j <= |RequestLineText(r) + CRLF|
    ensures LineRecovered(p, r, InTwo(p, RequestLineText(r) + CRLF, j, files)) <==> j == 0 || j == |RequestLineText(r)| + 2
  {
    var line := RequestLineText(r);
    var bytes := line + CRLF;
    RequestLinePlain(r);
    if j == |line| + 2 {
      assert bytes[..j] == bytes && bytes[j..] == "";
      WholeLine(p, r, files);
      var q := OnMessage(p, bytes, files).p;
      EmptyMessage(q, files);
    } else if j <= |line| {
      assert bytes[..j] == line[..j] && bytes[j..] == line[j..] + CRLF;
      assert forall c <- line[..j] :: c in line;
      FirstPart(p, line[..j], files);
      var q := OnMessage(p, line[..j], files).p;
      if j == 0 {
        assert line[0..] == line;
        WholeLine(q, r, files);
      } else {
        CutRequestLineInvalid(Control(q), r, j);
        VisibleSuffix(r, j);
        SecondPartAnswered(q, line[j..], files);
      }
    } else {
      assert bytes[..j] == line + "\r" && bytes[j..] == "\n";
      assert (line + "\r")[..|line + "\r"| - 1] == line;
      FirstPart(p, line + "\r", files);
      var q := OnMessage(p, line + "\r", files).p;
      OnlyLineFeed(TakeInput(q, "\n"), files);
    }
  }

  lemma VisibleSuffix(r: HttpRequest, j: nat)
    requires RequestLineOk(r) && j <= |RequestLineText(r)|
    ensures Plain(RequestLineText(r)[j..]) && UpToNul(RequestLineText(r)[j..]) == RequestLineText(r)[j..]
  {
    var m, u, v := MethodText(r.meth), TargetText(r.target), VersionText(r.version);
    assert Visible(m) && Visible(v);
    assert forall c <- RequestLineText(r) :: c in m || c == ' ' || c in u || c in v;
    assert forall c <- RequestLineText(r)[j..] :: c in RequestLineText(r);
    VisibleUpToNul(RequestLineText(r)[j..]);
  }

  lemma EmptyMessage(p: Parser, files: Files)
    requires Wf(p)
    ensures var o := OnMessage(p, "", files); o.Returned? && o.p == p.(input := "", pos := 0, state := NoRequest)
  {
    var q := TakeInput(p, "");
    assert q == p.(input := "", pos := 0);
    NothingLeft(q, files);
  }
}
