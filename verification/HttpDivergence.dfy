/**
 When process does not end: exactly when, behind all whole lines and bodies (and the
 line feeds it joins to a body's last CR), the rest of the input holds a bare line
 end and the connection is kept.
 */
module HttpDivergence {
  import opened HttpSpec
  import opened Wrappers
  import opened HttpUnits

  // ------------------------------------------------------------- the rest of an input

  /** A whole line stands at the front. */
  predicate StartsWithLine(t: string) {
    t != "" &&
    if t[0] == '\r' then |t| > 1 && t[1] == '\n' else t[0] != '\n' && StartsWithLine(t[1..])
  }

  /** Nothing the parser waits for is whole at the front of `t`. */
  predicate NoWholeUnit(p: Parser, t: string) {
    if p.check == CheckContent then |t| < p.contentLength else !StartsWithLine(t)
  }

  /** The input starts with a line feed: the scanner looks in front of it. */
  predicate LineFeedFirst(input: string, from: nat) { from == 0 && input != "" && input[0] == '\n' }

  /** A body that ends in CR stands before a LF. */
  predicate SplitsCRLF(input: string, from: nat) {
    0 < from < |input| && input[from - 1] == '\r' && input[from] == '\n'
  }

  /** A bare line end stands at or behind `from`. */
  ghost predicate HoldsBareLineEnd(input: string, from: nat) {
    !LineFeedFirst(input, from) && exists i: nat :: from <= i && BareLineEnd(input, i)
  }

  lemma BareHere(input: string, from: nat)
    requires BareLineEnd(input, from)
    ensures HoldsBareLineEnd(input, from)
  {
  }

  lemma BareNext(input: string, from: nat)
    requires from < |input| && !BareLineEnd(input, from) && !LineFeedFirst(input, from)
    ensures HoldsBareLineEnd(input, from) <==> HoldsBareLineEnd(input, from + 1)
  {
  }

  /** Of what stands before `from` only a CR right before it counts. */
  lemma BareFrame(a: string, b: string, from: nat)
    requires |a| == |b| && 0 < from <= |a| && a[from..] == b[from..] && (a[from - 1] == '\r' <==> b[from - 1] == '\r')
    ensures forall i: nat :: from <= i ==> (BareLineEnd(a, i) <==> BareLineEnd(b, i))
    ensures forall k: nat :: from <= k ==> (HoldsBareLineEnd(a, k) <==> HoldsBareLineEnd(b, k))
    ensures forall k: nat :: from <= k ==> (SplitsCRLF(a, k) <==> SplitsCRLF(b, k))
  {
    forall j: nat | from <= j < |a|
      ensures a[j] == b[j]
    {
      assert a[from..][j - from] == b[from..][j - from];
    }
  }

  // ---------------------------------------------------------------- scanning the rest

  /** A whole CRLF at `pos` is skipped and blanked; what is bare behind it stays so. */
  lemma BlankedSkipped(input: string, pos: nat)
    requires pos + 1 < |input| && input[pos] == '\r' && input[pos + 1] == '\n'
    ensures HoldsBareLineEnd(input, pos) <==> HoldsBareLineEnd(Blank(input, pos), pos + 2)
    ensures HoldsBareLineEnd(input, pos + 1) <==> HoldsBareLineEnd(Blank(input, pos), pos + 2)
  {
    var e := Blank(input, pos);
    assert e[pos + 2..] == input[pos + 2..];
    BareFrame(input, e, pos + 2);
    BareNext(input, pos);
    BareNext(input, pos + 1);
  }

  /** What the scanner finds, anywhere. */
  lemma {:induction false} ScanFinds(input: string, pos: nat)
    requires pos <= |input|
    ensures match ParseLine(input, pos)
      case BeforeStart => LineFeedFirst(input, pos)
      case Scan(line, e, k) =>
        && !LineFeedFirst(input, pos) && (line.LineOK? <==> StartsWithLine(input[pos..]) || SplitsCRLF(input, pos))
        && (line.LineBad? ==> HoldsBareLineEnd(input, pos) && BareLineEnd(input, k))
        && (line.LineOpen? ==> !HoldsBareLineEnd(input, pos))
        && (line.LineOK? ==> (HoldsBareLineEnd(input, pos) <==> HoldsBareLineEnd(e, k)))
    decreases |input| - pos
  {
    if pos < |input| {
      if input[pos] == '\r' {
        if pos + 1 < |input| && input[pos + 1] == '\n' {
          BlankedSkipped(input, pos);
        }
      } else if input[pos] == '\n' {
        if SplitsCRLF(input, pos) {
          BlankedSkipped(input, pos - 1);
        }
      } else {
        assert input[pos..][1..] == input[pos + 1..];
        BareNext(input, pos);
        ScanFinds(input, pos + 1);
      }
    }
  }

  /** What one read makes of a rest: it stands at a bare line end, or waits for more. */
  ghost predicate RestRead(p: Parser, a: Answer) {
    match a
    case Undefined => LineFeedFirst(p.input, p.pos)
    case Answer(q, state) =>
      && !LineFeedFirst(p.input, p.pos) && q.connecting == p.connecting && Wf(q)
      && state in {Invalid, NoRequest} && (state == Invalid <==> HoldsBareLineEnd(p.input, p.pos))
      && (state == Invalid ==> BareLineEnd(q.input, q.pos) && q.state == Invalid)
      && (state == NoRequest ==> Control(q) == Control(p).(state := NoRequest) && |q.input| == |p.input|)
  }

  /** An incomplete body is handed to the line scanner, as often as it finds whole lines in it. */
  lemma {:induction false} BodyRestRead(p: Parser, files: Files)
    requires Wf(p) && p.check == CheckContent && |p.input| - p.pos < p.contentLength
    ensures RestRead(p, ReadLoop(p, p.pos, false, files))
    decreases |p.input| - p.pos
  {
    ScanFinds(p.input, p.pos);
    var s := ParseLine(p.input, p.pos);
    if s.Scan? && s.line.LineOK? {
      var q := p.(input := s.input, pos := s.pos);
      BodyRestRead(q, files);
      assert ReadLoop(p, p.pos, false, files) == Content(q, files) == ReadLoop(q, q.pos, false, files);
    }
  }

  /** Behind all that can be taken whole. */
  predicate AtRest(p: Parser, input: string, pos: nat)
    requires pos <= |input|
  {
    NoWholeUnit(p, input[pos..]) && (p.check != CheckContent ==> !SplitsCRLF(input, pos))
  }

  lemma RestReads(p: Parser, files: Files)
    requires Wf(p) && AtRest(p, p.input, p.pos)
    ensures RestRead(p, ProcessRead(p, files))
  {
    if p.check == CheckContent {
      BodyRestRead(p, files);
      assert ProcessRead(p, files) == Content(p, files) == ReadLoop(p, p.pos, false, files);
    } else {
      ScanFinds(p.input, p.pos);
    }
  }

  lemma RestProcessed(p: Parser, files: Files)
    requires Wf(p) && AtRest(p, p.input, p.pos)
    ensures Process(p, files).Diverges? <==> p.connecting && HoldsBareLineEnd(p.input, p.pos)
    ensures Process(p, files).ReadsOutside? <==> LineFeedFirst(p.input, p.pos)
  {
    RestReads(p, files);
    var a := ProcessRead(p, files);
    if a.Answer? && a.state == Invalid && p.connecting {
      var r := Init(Respond(a.p), |a.p.input| == a.p.pos);
      assert Round(p, files) == Again(r);
      StuckDiverges(r, files);
    }
  }

  // -------------------------------------------------------- pieces of an input

  /** A whole line or body, or the line feed behind a body that ends in CR: with that CR the
      scanner takes it for an empty line. */
  datatype Piece = Whole(unit: Unit) | LoneLineFeed

  function PieceBytes(x: Piece): string { if x.Whole? then Bytes(x.unit) else "\n" }

  function FeedPiece(p: Parser, x: Piece, files: Files): (Parser, HttpState) {
    if x.Whole? then FeedUnit(p, x.unit, files) else TakeLine(p, "", files)
  }

  /** The parser behind a piece, with a response sent if one was called for. */
  function Onward(fed: (Parser, HttpState)): Parser {
    if fed.1 == NoRequest then fed.0 else Init(Respond(fed.0), false)
  }

  predicate Halts(fed: (Parser, HttpState)) { fed.1 != NoRequest && !fed.0.connecting }

  predicate PieceFits(p: Parser, input: string, pos: nat, x: Piece) {
    && pos + |PieceBytes(x)| <= |input| && input[pos..pos + |PieceBytes(x)|] == PieceBytes(x)
    && if x.Whole? then Fits(p, x.unit) else p.check != CheckContent && SplitsCRLF(input, pos)
  }

  /** What the parser makes of a piece. */
  type Feeding = (Parser, Piece) -> (Parser, HttpState)

  function FeedingWith(files: Files): Feeding { (p: Parser, x: Piece) => FeedPiece(p, x, files) }

  /** What an input comes to, read as some pieces: a response on a connection that is not kept,
      in the last of them; or the parser behind them, and where the rest begins, in front of
      which nothing is whole.  `Misread`: these are not the pieces of this input. */
  datatype Reading = Halted | Rest(p: Parser, from: nat) | Misread

  function ReadPieces(p: Parser, input: string, pos: nat, xs: seq<Piece>, feed: Feeding): Reading
    decreases |xs|
  {
    if xs == [] then if pos <= |input| && AtRest(p, input, pos) then Rest(p, pos) else Misread
    else if !PieceFits(p, input, pos, xs[0]) then Misread
    else if Halts(feed(p, xs[0])) then if |xs| == 1 then Halted else Misread
    else ReadPieces(Onward(feed(p, xs[0])), input, pos + |PieceBytes(xs[0])|, xs[1..], feed)
  }

  lemma ReadFirst(p: Parser, input: string, pos: nat, xs: seq<Piece>, fits: bool, fed: (Parser, HttpState), end: nat,
                  on: Reading, feed: Feeding)
    requires xs != [] && fed == feed(p, xs[0]) && end == pos + |PieceBytes(xs[0])|
    requires PieceFits(p, input, pos, xs[0]) <==> fits
    requires fits ==> ReadPieces(Onward(fed), input, end, xs[1..], feed) == on
    ensures ReadPieces(p, input, pos, xs, feed) ==
      if !fits then Misread else if !Halts(fed) then on else if |xs| == 1 then Halted else Misread
  {
  }

  // ---------------------------------------------------------------- behind a piece

  /** `m` is where `p` would be: at the same place of the same input, but for blanks and bodies
      already passed; or nothing is left and the input has been cleared. */
  predicate Aligned(p: Parser, m: Parser, pos: nat) {
    && p.pos <= pos <= |p.input|
    && if m.input == "" then pos == |p.input| && m.pos == 0
       else
         && m.pos == pos && |m.input| == |p.input| && m.input[pos..] == p.input[pos..]
         && (pos > 0 ==> (m.input[pos - 1] == '\r' <==> p.input[pos - 1] == '\r'))
  }

  /** Where process goes on behind a piece: nowhere, when a response was sent on a connection
      that is not kept; else at `m`. */
  ghost predicate Behind(p: Parser, m: Parser, pos: nat, fed: (Parser, HttpState), files: Files)
    requires Wf(p)
  {
    if Halts(fed) then Process(p, files).Returned?
    else Wf(m) && Aligned(p, m, pos) && Process(p, files) == Process(m, files) && Control(m) == Onward(fed)
  }

  /** What the read loop made of a piece, process makes of it. */
  lemma ProcessOnward(p: Parser, q: Parser, end: nat, fed: (Parser, HttpState), files: Files) returns (m: Parser)
    requires Wf(p) && q.pos == end > p.pos && Aligned(p, q, end) && Control(q) == fed.0
    requires if fed.1 == NoRequest then Wf(q) && ProcessRead(p, files) == ProcessRead(q, files)
             else ProcessRead(p, files) == Answer(q, fed.1)
    ensures Behind(p, m, end, fed, files)
  {
    if fed.1 == NoRequest {
      SameRound(p, q, files);
      m := q;
    } else {
      assert q.connecting == Control(q).connecting && Control(Respond(q)) == Respond(fed.0);
      ResponseRound(p, q, fed.1, files);
      m := Init(Respond(q), |q.input| == q.pos);
    }
  }

  lemma RestInPlace(input: string, pos: nat, bytes: string, rest: string, other: string, end: nat)
    requires pos <= end <= |input| == |other| && input[pos..] == bytes + rest && other[end..] == rest
    ensures other[end..] == input[end..] && end == pos + |bytes|
  {
    assert |input[pos..]| == |bytes| + |rest| && end == pos + |bytes|;
    assert input[end..] == input[pos..][|bytes|..] == rest;
  }

  lemma SkipConsumed(p: Parser, q: Parser, bytes: string, end: nat, fed: (Parser, HttpState), files: Files)
    returns (m: Parser)
    requires Wf(p) && end == p.pos + |bytes| && end <= |p.input| && p.input[p.pos..] == bytes + p.input[end..]
    requires ConsumedAs(p, fed, p.input[end..], files, q)
    ensures Behind(p, m, end, fed, files)
  {
    RestInPlace(p.input, p.pos, bytes, p.input[end..], q.input, q.pos);
    m := ProcessOnward(p, q, end, fed, files);
  }

  lemma ConsumeUnit(p: Parser, c: Parser, u: Unit, rest: string, fed: (Parser, HttpState), files: Files) returns (q: Parser)
    requires Wf(p) && Control(p) == c && Fits(c, u) && p.input[p.pos..] == Bytes(u) + rest && FeedUnit(c, u, files) == fed
    ensures ConsumedAs(p, fed, rest, files, q)
  {
    FitsControl(p, u);
    q := UnitStep(p, u, rest, files);
  }

  lemma FitsControl(p: Parser, u: Unit)
    ensures Fits(Control(p), u) <==> Fits(p, u)
  {
  }

  /** The scanner joins a line feed to the CR in front of it, and finds an empty line. */
  lemma ConsumeLineFeed(p: Parser, c: Parser, rest: string, fed: (Parser, HttpState), files: Files) returns (q: Parser)
    requires Wf(p) && Control(p) == c && p.check != CheckContent && SplitsCRLF(p.input, p.pos)
    requires p.input[p.pos..] == "\n" + rest && TakeLine(c, "", files) == fed
    ensures ConsumedAs(p, fed, rest, files, q)
  {
    var e := Blank(p.input, p.pos - 1);
    assert ParseLine(p.input, p.pos) == Scan(LineOK, e, p.pos + 1);
    LineTurn(p, e, p.pos + 1, files);
    assert e[p.pos..][0] == '\0' && UpToNul(e[p.pos..]) == "";
    assert e[p.pos + 1..] == p.input[p.pos..][1..];
    TakeLineControl(p, "", "", 0, files);
    TakeLineControl(p, "", e, p.pos + 1, files);
    q := fed.0.(input := e, pos := p.pos + 1);
  }

  /** One read takes one piece. */
  lemma ConsumePiece(p: Parser, c: Parser, x: Piece, rest: string, fed: (Parser, HttpState), files: Files) returns (q: Parser)
    requires Wf(p) && Control(p) == c && PieceFits(c, p.input, p.pos, x) && FeedPiece(c, x, files) == fed
    requires p.input[p.pos..] == PieceBytes(x) + rest
    ensures ConsumedAs(p, fed, rest, files, q)
  {
    if x.Whole? {
      q := ConsumeUnit(p, c, x.unit, rest, fed, files);
    } else {
      SameChecks(p);
      q := ConsumeLineFeed(p, c, rest, fed, files);
    }
  }

  lemma PieceInPlace(p: Parser, c: Parser, x: Piece, end: nat)
    requires Wf(p) && Control(p) == c && PieceFits(c, p.input, p.pos, x) && end == p.pos + |PieceBytes(x)|
    ensures p.pos < end <= |p.input| && p.input[p.pos..] == PieceBytes(x) + p.input[end..]
  {
    SameChecks(p);
  }

  lemma SameChecks(p: Parser)
    ensures Control(p).check == p.check && Control(p).contentLength == p.contentLength
    ensures Control(p).connecting == p.connecting
  {
  }

  // ------------------------------------------------------------------ the theorem

  /** What is left of an input, and whether a CR stands right before it. */
  predicate SameFrom(a: string, b: string, pos: nat) {
    && |a| == |b| && pos <= |a| && a[pos..] == b[pos..]
    && (pos > 0 ==> (a[pos - 1] == '\r' <==> b[pos - 1] == '\r'))
  }

  lemma SameFurther(a: string, b: string, pos: nat, end: nat)
    requires SameFrom(a, b, pos) && pos <= end <= |a|
    ensures SameFrom(a, b, end) && a[pos..end] == b[pos..end]
  {
    DropTwice(a, b, pos, end);
    if end > pos {
      assert a[end - 1] == a[pos..][end - 1 - pos] && b[end - 1] == b[pos..][end - 1 - pos];
    }
  }

  lemma PieceFitsFrame(p: Parser, a: string, b: string, pos: nat, x: Piece)
    requires SameFrom(a, b, pos)
    ensures PieceFits(p, a, pos, x) <==> PieceFits(p, b, pos, x)
  {
    if pos + |PieceBytes(x)| <= |a| {
      SameFurther(a, b, pos, pos + |PieceBytes(x)|);
    }
    SplitsFrame(a, b, pos);
  }

  lemma RestFrame(p: Parser, a: string, b: string, pos: nat)
    requires SameFrom(a, b, pos)
    ensures AtRest(p, a, pos) <==> AtRest(p, b, pos)
  {
    SplitsFrame(a, b, pos);
  }

  /** Only this counts for how an input is read. */
  lemma {:induction false} ReadFrame(p: Parser, a: string, b: string, pos: nat, xs: seq<Piece>, feed: Feeding)
    requires SameFrom(a, b, pos)
    ensures ReadPieces(p, a, pos, xs, feed) == ReadPieces(p, b, pos, xs, feed)
    decreases |xs|, 1
  {
    if xs == [] {
      RestFrame(p, a, b, pos);
    } else {
      ReadMoreFrame(p, a, b, pos, xs, feed(p, xs[0]), pos + |PieceBytes(xs[0])|, feed);
    }
  }

  lemma {:induction false} ReadMoreFrame(
    p: Parser, a: string, b: string, pos: nat, xs: seq<Piece>, fed: (Parser, HttpState), end: nat, feed: Feeding)
    requires SameFrom(a, b, pos) && xs != [] && fed == feed(p, xs[0]) && end == pos + |PieceBytes(xs[0])|
    ensures ReadPieces(p, a, pos, xs, feed) == ReadPieces(p, b, pos, xs, feed)
    decreases |xs|, 0
  {
    PieceFitsFrame(p, a, b, pos, xs[0]);
    var fits := PieceFits(p, a, pos, xs[0]);
    var on := ReadPieces(Onward(fed), a, end, xs[1..], feed);
    if fits {
      SameFurther(a, b, pos, end);
      ReadFrame(Onward(fed), a, b, end, xs[1..], feed);
    }
    ReadFirst(p, a, pos, xs, fits, fed, end, on, feed);
    ReadFirst(p, b, pos, xs, fits, fed, end, on, feed);
  }

  lemma SplitsFrame(a: string, b: string, pos: nat)
    requires SameFrom(a, b, pos)
    ensures SplitsCRLF(a, pos) <==> SplitsCRLF(b, pos)
  {
    if pos < |a| {
      assert a[pos] == a[pos..][0] == b[pos];
    }
  }

  lemma DropTwice(a: string, b: string, pos: nat, end: nat)
    requires |a| == |b| && pos <= end <= |a| && a[pos..] == b[pos..]
    ensures a[pos..end] == b[pos..end] && a[end..] == b[end..]
  {
    assert a[pos..end] == a[pos..][..end - pos] && b[pos..end] == b[pos..][..end - pos];
    assert a[end..] == a[pos..][end - pos..] && b[end..] == b[pos..][end - pos..];
  }

  lemma {:induction false} RestNotBefore(p: Parser, input: string, pos: nat, xs: seq<Piece>, feed: Feeding)
    ensures var v := ReadPieces(p, input, pos, xs, feed); v.Rest? ==> pos <= v.from <= |input|
    decreases |xs|
  {
    if xs != [] {
      RestNotBefore(Onward(feed(p, xs[0])), input, pos + |PieceBytes(xs[0])|, xs[1..], feed);
    }
  }

  /** At its end an input holds no further piece. */
  lemma NothingToRead(p: Parser, input: string, xs: seq<Piece>, feed: Feeding)
    requires ReadPieces(p, input, |input|, xs, feed) != Misread && (p.check == CheckContent ==> p.contentLength != 0)
    ensures xs == [] && ReadPieces(p, input, |input|, xs, feed) == Rest(p, |input|)
  {
  }

  /** How a run of process ends, if it does. */
  datatype Fate = Ends | NeverEnds | LooksOutside

  function FateOf(o: Outcome): Fate { if o.Diverges? then NeverEnds else if o.ReadsOutside? then LooksOutside else Ends }

  /** How it must end on an input so read. */
  ghost function FateRead(v: Reading, input: string): Fate {
    if !v.Rest? then Ends
    else if LineFeedFirst(input, v.from) then LooksOutside
    else if v.p.connecting && HoldsBareLineEnd(input, v.from) then NeverEnds
    else Ends
  }

  /** What is left is read behind a piece as it was read from the start. */
  lemma ReadBehind(p: Parser, m: Parser, c: Parser, pos: nat, xs: seq<Piece>, feed: Feeding)
    requires Wf(m) && Control(m) == c && Aligned(p, m, pos) && pos > 0
    requires ReadPieces(c, p.input, pos, xs, feed) != Misread
    ensures ReadPieces(c, m.input, m.pos, xs, feed) != Misread
    ensures FateRead(ReadPieces(c, p.input, pos, xs, feed), p.input) == FateRead(ReadPieces(c, m.input, m.pos, xs, feed), m.input)
  {
    if m.input == "" {
      SameChecks(m);
      NothingToRead(c, p.input, xs, feed);
      assert m.input[m.pos..] == "" && p.input[pos..] == "";
    } else {
      ReadFrame(c, p.input, m.input, pos, xs, feed);
      RestNotBefore(c, p.input, pos, xs, feed);
      BareFrame(p.input, m.input, pos);
    }
  }

  lemma RestFate(p: Parser, c: Parser, feed: Feeding, files: Files)
    requires Wf(p) && Control(p) == c
    ensures var v := ReadPieces(c, p.input, p.pos, [], feed);
      v != Misread ==> FateOf(Process(p, files)) == FateRead(v, p.input)
  {
    SameChecks(p);
    if AtRest(p, p.input, p.pos) {
      RestProcessed(p, files);
    }
  }

  lemma {:induction false} FateForetold(p: Parser, c: Parser, xs: seq<Piece>, feed: Feeding, files: Files)
    requires Wf(p) && Control(p) == c && feed == FeedingWith(files)
    ensures var v := ReadPieces(c, p.input, p.pos, xs, feed);
      v != Misread ==> FateOf(Process(p, files)) == FateRead(v, p.input)
    decreases |xs|, 3
  {
    if xs == [] {
      RestFate(p, c, feed, files);
    } else {
      var fed, end := feed(c, xs[0]), p.pos + |PieceBytes(xs[0])|;
      var fits := PieceFits(c, p.input, p.pos, xs[0]);
      var on := ReadPieces(Onward(fed), p.input, end, xs[1..], feed);
      ReadFirst(c, p.input, p.pos, xs, fits, fed, end, on, feed);
      if fits {
        FateFirst(p, c, xs[0], fed, xs[1..], end, on, feed, files);
      }
    }
  }

  lemma {:induction false} FateFirst(
    p: Parser, c: Parser, x: Piece, fed: (Parser, HttpState), xs: seq<Piece>, end: nat, on: Reading, feed: Feeding, files: Files)
    requires Wf(p) && Control(p) == c && PieceFits(c, p.input, p.pos, x) && FeedPiece(c, x, files) == fed
    requires end == p.pos + |PieceBytes(x)| && feed == FeedingWith(files) && on == ReadPieces(Onward(fed), p.input, end, xs, feed)
    ensures on != Misread || Halts(fed) ==> FateOf(Process(p, files)) == if Halts(fed) then Ends else FateRead(on, p.input)
    decreases |xs|, 5
  {
    PieceInPlace(p, c, x, end);
    var q := ConsumePiece(p, c, x, p.input[end..], fed, files);
    var m := SkipConsumed(p, q, PieceBytes(x), end, fed, files);
    FateBehind(p, m, fed, xs, end, on, feed, files);
  }

  lemma {:induction false} FateBehind(
    p: Parser, m: Parser, fed: (Parser, HttpState), xs: seq<Piece>, end: nat, on: Reading, feed: Feeding, files: Files)
    requires Wf(p) && Behind(p, m, end, fed, files) && end > 0
    requires feed == FeedingWith(files) && on == ReadPieces(Onward(fed), p.input, end, xs, feed)
    ensures on != Misread || Halts(fed) ==> FateOf(Process(p, files)) == if Halts(fed) then Ends else FateRead(on, p.input)
    decreases |xs|, 4
  {
    if !Halts(fed) {
      FateForetold(m, Onward(fed), xs, feed, files);
      if on != Misread {
        ReadBehind(p, m, Onward(fed), end, xs, feed);
      }
    }
  }

  /** process runs for ever exactly when, behind the pieces at the front of its input, the
      rest holds a bare line end and the connection is kept; it reads in front of the input
      exactly when that rest is the whole input and starts with a line feed. */
  lemma DivergesExactly(p: Parser, xs: seq<Piece>, files: Files)
    requires Wf(p) && ReadPieces(Control(p), p.input, p.pos, xs, FeedingWith(files)) != Misread
    ensures var v := ReadPieces(Control(p), p.input, p.pos, xs, FeedingWith(files));
      && (Process(p, files).Diverges? <==> v.Rest? && v.p.connecting && HoldsBareLineEnd(p.input, v.from))
      && (Process(p, files).ReadsOutside? <==> v.Rest? && LineFeedFirst(p.input, v.from))
  {
    FateForetold(p, Control(p), xs, FeedingWith(files), files);
  }

  /** A message just received. */
  lemma MessageDivergesExactly(p: Parser, message: string, xs: seq<Piece>, files: Files)
    requires Wf(p) && ReadPieces(Control(p), message, 0, xs, FeedingWith(files)) != Misread
    ensures var v := ReadPieces(Control(p), message, 0, xs, FeedingWith(files)); var o := OnMessage(p, message, files);
      && (o.Diverges? <==> v.Rest? && v.p.connecting && HoldsBareLineEnd(message, v.from))
      && (o.ReadsOutside? <==> v.Rest? && LineFeedFirst(message, v.from))
  {
    var q := TakeInput(p, message);
    assert "" + message == message && q.input == message && q.pos == 0 && Control(q) == Control(p);
    DivergesExactly(q, xs, files);
  }

  // ------------------------------------------------------------- every input divides

  lemma {:induction false} LineInFront(t: string) returns (line: string, rest: string)
    requires StartsWithLine(t)
    ensures t == line + CRLF + rest && Plain(line)
  {
    if t[0] == '\r' {
      line, rest := "", t[2..];
    } else {
      var more;
      more, rest := LineInFront(t[1..]);
      line := [t[0]] + more;
    }
  }

  /** The piece in front of the rest, if one can be taken. */
  lemma PieceInFront(p: Parser, input: string, pos: nat) returns (x: Piece)
    requires pos <= |input| && !AtRest(p, input, pos) && (p.check == CheckContent ==> p.contentLength != 0)
    ensures PieceFits(p, input, pos, x) && |PieceBytes(x)| > 0 && pos + |PieceBytes(x)| <= |input|
    ensures if x.Whole? then Fits(p, x.unit) else p.check != CheckContent
  {
    var t := input[pos..];
    if p.check == CheckContent {
      x := Whole(Body(t[..p.contentLength]));
    } else if SplitsCRLF(input, pos) {
      x := LoneLineFeed;
    } else {
      var line, rest := LineInFront(t);
      x := Whole(Line(line));
      assert input[pos..pos + |line| + 2] == t[..|line| + 2] == line + CRLF;
    }
  }

  /** The parser awaits no empty body behind a piece. */
  lemma OnwardAwaits(p: Parser, x: Piece, fed: (Parser, HttpState), files: Files)
    requires FeedPiece(p, x, files) == fed
    requires if x.Whole? then Fits(p, x.unit) else p.check != CheckContent
    ensures var m := Onward(fed); m.check == CheckContent ==> m.contentLength != 0
  {
  }

  /** Every input can be read as some pieces, so the theorem speaks of every input. */
  lemma {:induction false} Divided(p: Parser, input: string, pos: nat, feed: Feeding, files: Files) returns (xs: seq<Piece>)
    requires pos <= |input| && (p.check == CheckContent ==> p.contentLength != 0) && feed == FeedingWith(files)
    ensures ReadPieces(p, input, pos, xs, feed) != Misread
    decreases |input| - pos, 1
  {
    if AtRest(p, input, pos) {
      xs := [];
    } else {
      var x := PieceInFront(p, input, pos);
      var more := DividedOn(p, input, pos, x, feed(p, x), feed, files);
      ReadMore(p, input, pos, x, more, feed);
      xs := [x] + more;
    }
  }

  lemma {:induction false} DividedOn(
    p: Parser, input: string, pos: nat, x: Piece, fed: (Parser, HttpState), feed: Feeding, files: Files) returns (xs: seq<Piece>)
    requires |PieceBytes(x)| > 0 && pos + |PieceBytes(x)| <= |input| && fed == feed(p, x) && feed == FeedingWith(files)
    requires if x.Whole? then Fits(p, x.unit) else p.check != CheckContent
    ensures if Halts(fed) then xs == [] else ReadPieces(Onward(fed), input, pos + |PieceBytes(x)|, xs, feed) != Misread
    decreases |input| - pos, 0
  {
    xs := [];
    if !Halts(fed) {
      OnwardAwaits(p, x, fed, files);
      xs := Divided(Onward(fed), input, pos + |PieceBytes(x)|, feed, files);
    }
  }

  lemma ReadMore(p: Parser, input: string, pos: nat, x: Piece, xs: seq<Piece>, feed: Feeding)
    requires PieceFits(p, input, pos, x)
    requires if Halts(feed(p, x)) then xs == [] else ReadPieces(Onward(feed(p, x)), input, pos + |PieceBytes(x)|, xs, feed) != Misread
    ensures ReadPieces(p, input, pos, [x] + xs, feed) != Misread
  {
    assert ([x] + xs)[0] == x && ([x] + xs)[1..] == xs;
  }

  /** A body that ends in CR before a LF: the pair counts as an empty request line, and is
      answered as a bad request. */
  lemma SplitLineFeed(p: Parser, files: Files)
    requires Wf(p) && p.check == CheckRequestLine && SplitsCRLF(p.input, p.pos)
    ensures var q := p.(input := Blank(p.input, p.pos - 1), pos := p.pos + 1, state := Invalid);
      Process(p, files) ==
        if p.connecting then Process(Init(Respond(q), |q.input| == q.pos), files) else Returned(Respond(q), false)
  {
    var q := p.(input := Blank(p.input, p.pos - 1), pos := p.pos + 1, state := Invalid);
    assert q.input[p.pos] == '\0' && UpToNul(q.input[p.pos..]) == "";
    assert Find("", " ", 0) == None;
    assert ProcessRead(p, files) == Answer(q, Invalid);
    ResponseRound(p, q, Invalid, files);
  }

  // ---------------------------------------------------------------- one bare line end

  lemma {:induction false} NotALine(t: string, i: nat)
    requires i < |t| && Plain(t[..i])
    requires t[i] == '\n' || (t[i] == '\r' && i + 1 < |t| && t[i + 1] != '\n')
    ensures !StartsWithLine(t)
    decreases i
  {
    if i > 0 {
      assert t[0] == t[..i][0] && t[0] in t[..i];
      assert t[1..][..i - 1] == t[..i][1..] && forall c <- t[..i][1..] :: c in t[..i];
      NotALine(t[1..], i - 1);
    }
  }

  lemma DropTake(s: string, k: nat, i: nat)
    requires k <= i <= |s|
    ensures s[k..][..i - k] == s[k..i]
  {
  }

  /** In particular any bare line end in the line of the head that comes next does it. */
  lemma BareLineEndDiverges(p: Parser, i: nat, files: Files)
    requires Wf(p) && p.connecting && p.check != CheckContent
    requires p.pos <= i && BareLineEnd(p.input, i) && Plain(p.input[p.pos..i])
    ensures Process(p, files).Diverges?
  {
    var t := p.input[p.pos..];
    DropTake(p.input, p.pos, i);
    assert t[i - p.pos] == p.input[i];
    if i + 1 < |p.input| {
      assert t[i + 1 - p.pos] == p.input[i + 1];
    }
    NotALine(t, i - p.pos);
    if p.pos < i {
      assert p.input[p.pos] == p.input[p.pos..i][0] && p.input[p.pos] in p.input[p.pos..i];
    }
    BareHere(p.input, i);
    assert HoldsBareLineEnd(p.input, p.pos);
    RestProcessed(p, files);
  }
}
