/**
 Which lines of the head are accepted, and what is read from them: exactly those that
 have the printed form, for the request line; for its target, the path from the first
 slash; for a length, what atoi makes of any string.
 */
module HttpGrammar {
  import opened Digits
  import opened HttpSpec
  import opened Wrappers
  import opened HttpRoundTrip
  import opened HttpLimits

  // ------------------------------------------------------------- the request line

  function LineOf(m: Method, u: string, v: Version): string { MethodText(m) + " " + u + " " + VersionText(v) }

  /** A known method, a target without a space in it, and a known version. */
  predicate PartsOk(m: Method, u: string, v: Version) {
    m != InvalidMethod && v != Unknown && u != "" && NoSpace(u)
  }

  lemma LineParts(m: Method, u: string, v: Version)
    requires PartsOk(m, u, v)
    ensures var line := LineOf(m, u, v); var i := |MethodText(m)|; var j := i + 1 + |u|;
      && Find(line, " ", 0) == Some(i) && Find(line, " ", i + 1) == Some(j) && i + 1 < j < |line| - 1
      && line[..i] == MethodText(m) && line[i + 1..j] == u && line[j + 1..] == VersionText(v)
  {
    FirstSpace(m, u, VersionText(v));
    SecondSpace(MethodText(m), u, VersionText(v));
    WordsCut(MethodText(m), u, VersionText(v));
    assert |VersionText(v)| > 0;
  }

  /** A line of that form is accepted, and its parts are recorded. */
  lemma LineAccepted(p: Parser, m: Method, u: string, v: Version)
    requires PartsOk(m, u, v)
    ensures ParseRequestLine(p, LineOf(m, u, v)) ==
      (p.(request := Request(m, v, PathOf(u, p.request.uri), p.request.body, p.request.headers), version := v, check := CheckHeader),
       NoRequest)
  {
    LineParts(m, u, v);
    NamesRecovered(m, v);
    var i := |MethodText(m)|;
    PartsParsed(p, LineOf(m, u, v), i, i + 1 + |u|, MethodText(m), u, VersionText(v));
  }

  lemma KnownNames(s: string)
    ensures ToMethod(s) != InvalidMethod ==> s == MethodText(ToMethod(s))
    ensures ToVersion(s) != Unknown ==> s == VersionText(ToVersion(s))
  {
  }

  lemma NoSpaceBefore(line: string, from: nat, j: nat)
    requires Find(line, " ", from) == Some(j)
    ensures from <= j < |line| && line[j] == ' ' && NoSpace(line[from..j])
  {
    FindFirst(line, " ", from);
    assert line[j..j + 1][0] == ' ';
    forall c | c in line[from..j]
      ensures c != ' '
    {
      var k: nat :| from <= k < j && line[k] == c;
      if c == ' ' {
        assert line[k..k + 1] == " ";
        assert At(line, " ", k);
      }
    }
  }

  lemma SplitTwice(line: string, i: nat, j: nat)
    requires i < j < |line| && line[i] == ' ' && line[j] == ' '
    ensures line == line[..i] + " " + line[i + 1..j] + " " + line[j + 1..]
  {
  }

  /** Where its two spaces are, an accepted line has that form. */
  lemma AcceptedHasForm(p: Parser, line: string) returns (m: Method, u: string, v: Version)
    requires ParseRequestLine(p, line).1 == NoRequest
    ensures PartsOk(m, u, v) && line == LineOf(m, u, v)
  {
    var i := Find(line, " ", 0).value;
    var j := Find(line, " ", i + 1).value;
    NoSpaceBefore(line, 0, i);
    NoSpaceBefore(line, i + 1, j);
    SplitTwice(line, i, j);
    m, u, v := ToMethod(line[..i]), line[i + 1..j], ToVersion(line[j + 1..]);
    KnownNames(line[..i]);
    KnownNames(line[j + 1..]);
  }

  /** The request line grammar: a line is accepted exactly when it is a known method, a target
      without spaces and a known version, with one space between them. */
  lemma RequestLineExactly(p: Parser, line: string)
    ensures ParseRequestLine(p, line).1 == NoRequest <==> exists m, u, v :: PartsOk(m, u, v) && line == LineOf(m, u, v)
  {
    if ParseRequestLine(p, line).1 == NoRequest {
      var m, u, v := AcceptedHasForm(p, line);
    } else {
      forall m, u, v | PartsOk(m, u, v)
        ensures line != LineOf(m, u, v)
      {
        LineAccepted(p, m, u, v);
      }
    }
  }

  /** What a refused line still leaves in the request: the parts in front of the first one that
      is wrong, and that it is not known. */
  lemma RequestLineRefused(p: Parser, m: Method, u: string, word: string, rest: string)
    requires m != InvalidMethod && u != "" && NoSpace(u) && NoSpace(word)
    ensures ParseRequestLine(p, word) == (p, Invalid)
    ensures word !in {"GET", "POST", "HEAD"} ==>
      ParseRequestLine(p, word + " " + rest) == (p.(request := p.request.(meth := InvalidMethod)), Invalid)
    ensures rest == "" || rest[0] == ' ' || NoSpace(rest) ==>
      ParseRequestLine(p, MethodText(m) + " " + rest) == (p.(request := p.request.(meth := m)), Invalid)
    ensures ParseRequestLine(p, MethodText(m) + " " + u + " ") ==
      (p.(request := p.request.(meth := m, uri := PathOf(u, p.request.uri))), Invalid)
    ensures rest !in {"", "HTTP/1.0", "HTTP/1.1"} ==>
      ParseRequestLine(p, MethodText(m) + " " + u + " " + rest) ==
        (p.(request := p.request.(meth := m, uri := PathOf(u, p.request.uri), version := Unknown), version := Unknown), Invalid)
  {
    NoSecondWord(p, word);
    if word !in {"GET", "POST", "HEAD"} {
      FirstWord(word, rest);
    }
    NoTarget(p, m, rest);
    LaterWords(p, m, u, "");
    assert MethodText(m) + " " + u + " " + "" == MethodText(m) + " " + u + " ";
    if rest !in {"HTTP/1.0", "HTTP/1.1"} {
      LaterWords(p, m, u, rest);
    }
  }

  lemma NoSecondWord(p: Parser, word: string)
    requires NoSpace(word)
    ensures ParseRequestLine(p, word) == (p, Invalid)
  {
    assert forall k :: 0 <= k < |word| ==> word[k] in word;
    if Find(word, " ", 0).Some? {
      NoSpaceBefore(word, 0, Find(word, " ", 0).value);
    }
  }

  lemma FirstWord(word: string, rest: string)
    requires NoSpace(word)
    ensures var line := word + " " + rest;
      Find(line, " ", 0) == Some(|word|) && line[..|word|] == word && line[|word| + 1..] == rest
  {
    assert ' ' !in word;
    assert word + " " + rest == word + [' '] + rest;
    FindChar(word, ' ', rest, 0);
  }

  lemma NoTarget(p: Parser, m: Method, rest: string)
    requires m != InvalidMethod
    ensures rest == "" || rest[0] == ' ' || NoSpace(rest) ==>
      ParseRequestLine(p, MethodText(m) + " " + rest) == (p.(request := p.request.(meth := m)), Invalid)
  {
    var line := MethodText(m) + " " + rest;
    var i := |MethodText(m)|;
    FirstSpace(m, rest, "");
    FirstWord(MethodText(m), rest);
    NamesRecovered(m, Http10);
    if Find(line, " ", i + 1).Some? {
      var j := Find(line, " ", i + 1).value;
      FindFirst(line, " ", i + 1);
      assert line[j..j + 1][0] == ' ' && line[j] == rest[j - i - 1];
      assert rest[j - i - 1] in rest;
      if rest[0] == ' ' {
        assert line[i + 1..i + 2] == " ";
        assert At(line, " ", i + 1);
      }
    }
  }

  lemma LaterWords(p: Parser, m: Method, u: string, rest: string)
    requires m != InvalidMethod && u != "" && NoSpace(u) && rest !in {"HTTP/1.0", "HTTP/1.1"}
    ensures var q := p.(request := p.request.(meth := m, uri := PathOf(u, p.request.uri)));
      ParseRequestLine(p, MethodText(m) + " " + u + " " + rest) ==
        (if rest == "" then q else q.(request := q.request.(version := Unknown), version := Unknown), Invalid)
  {
    FirstSpace(m, u, rest);
    SecondSpace(MethodText(m), u, rest);
    WordsCut(MethodText(m), u, rest);
    NamesRecovered(m, Http10);
  }

  // -------------------------------------------------------------------- the path

  /** The path of any target: from the first slash on, behind "http://" if it starts with that;
      without a slash there the old path stands. */
  lemma PathExactly(u: string, before: string)
    ensures var rest := if "http://" <= u then u[7..] else u;
      if '/' in rest then exists i: nat :: i < |rest| && rest[i] == '/' && '/' !in rest[..i] && PathOf(u, before) == rest[i..]
      else PathOf(u, before) == before
  {
    var begin := if "http://" <= u then 7 else 0;
    var rest := u[begin..];
    match Find(u, "/", begin)
    case None => SlashFound(u, begin, |u|);
    case Some(j) =>
      SlashFound(u, begin, j);
      assert rest[j - begin] == '/' && u[j..] == rest[j - begin..];
  }

  /** No slash stands in front of the one that is found. */
  lemma SlashFound(u: string, begin: nat, j: nat)
    requires begin <= j <= |u| && Find(u, "/", begin) == if j == |u| then None else Some(j)
    ensures '/' !in u[begin..][..j - begin] && (j < |u| ==> u[j] == '/')
  {
    FindFirst(u, "/", begin);
    if j < |u| {
      assert u[j..j + 1][0] == '/';
    }
    var front := u[begin..][..j - begin];
    forall k: nat | k < |front|
      ensures front[k] != '/'
    {
      if front[k] == '/' {
        assert u[begin + k..begin + k + 1] == "/";
        assert At(u, "/", begin + k);
      }
    }
  }

  // -------------------------------------------------------------------- a length

  predicate IsSpace(c: char) { c == ' ' || c == '\t' || c == '\n' || c as int == 11 || c as int == 12 || c == '\r' }

  predicate DigitsEnd(rest: string) { rest == "" || !('0' <= rest[0] <= '9') }

  lemma {:induction false} SpaceSkipped(space: string, t: string)
    requires (forall c <- space :: IsSpace(c)) && (t != "" ==> !IsSpace(t[0]))
    ensures SkipSpace(space + t) == t
  {
    if space == "" {
      assert space + t == t;
    } else {
      assert space[0] in space && forall c <- space[1..] :: c in space;
      assert (space + t)[1..] == space[1..] + t;
      SpaceSkipped(space[1..], t);
    }
  }

  lemma {:induction false} DigitsTaken(s: string, rest: string)
    requires (forall c <- s :: IsDigit(c, 10)) && DigitsEnd(rest)
    ensures LeadingDigits(s + rest) == s
  {
    if s == "" {
      assert s + rest == rest;
    } else {
      assert s[0] in s && forall c <- s[1..] :: c in s;
      assert (s + rest)[1..] == s[1..] + rest;
      DigitsTaken(s[1..], rest);
    }
  }

  /** `r` has the low 32 bits of `v`, as a signed integer, where `v` is first brought into 64 bits. */
  predicate LowBitsOf(r: int, v: int) {
    var w := if v < -0x8000_0000_0000_0000 then -0x8000_0000_0000_0000 else if v > 0x7FFF_FFFF_FFFF_FFFF then 0x7FFF_FFFF_FFFF_FFFF else v;
    -0x8000_0000 <= r < 0x8000_0000 && (w - r) % 0x1_0000_0000 == 0
  }

  function WithSign(sign: string, v: int): int { if sign == "-" then -v else v }

  /** atoi looks at the digits behind white space and a sign, if there is one. */
  lemma AtoiOfDigits(space: string, sign: string, s: string, rest: string)
    requires (forall c <- space :: IsSpace(c)) && (forall c <- s :: IsDigit(c, 10)) && DigitsEnd(rest)
    requires sign in {"+", "-"} || (sign == "" && s != "")
    ensures Atoi(space + sign + s + rest) == ToInt32(ToLong(WithSign(sign, Read(s, 10))))
  {
    var t := sign + s + rest;
    assert space + sign + s + rest == space + t;
    if sign == "" {
      assert s[0] in s && t[0] == s[0] && t == s + rest;
    } else {
      assert t[0] == sign[0] && t[1..] == s + rest;
    }
    SpaceSkipped(space, t);
    DigitsTaken(s, rest);
  }

  lemma Narrowed(v: int)
    ensures var r := ToInt32(ToLong(v)); LowBitsOf(r, v) && (-0x8000_0000 <= v < 0x8000_0000 ==> r == v)
  {
    var w := ToLong(v);
    LowBits(w);
    var q := (w + 0x8000_0000) / 0x1_0000_0000;
    assert w - ToInt32(w) == q * 0x1_0000_0000;
    Multiple(w - ToInt32(w), q);
  }

  lemma Multiple(d: int, q: int)
    requires d == q * 0x1_0000_0000
    ensures d % 0x1_0000_0000 == 0
  {
  }

  /** atoi of any white space, an optional sign, a decimal number and anything behind it: the
      number with its sign, when that fits 32 bits, else its low bits; as a size, a negative one
      wraps around 64 bits. */
  lemma AtoiExactly(space: string, sign: string, n: nat, rest: string)
    requires (forall c <- space :: IsSpace(c)) && sign in {"", "+", "-"} && DigitsEnd(rest)
    ensures var v := WithSign(sign, n); var r := Atoi(space + sign + Digits.Print(n, 10) + rest);
      && LowBitsOf(r, v) && (-0x8000_0000 <= v < 0x8000_0000 ==> r == v)
      && ToSize(r) == if r < 0 then 0x1_0000_0000_0000_0000 + r else r
  {
    ReadPrint(n, 10);
    AtoiOfDigits(space, sign, Digits.Print(n, 10), rest);
    Narrowed(WithSign(sign, n));
  }

  /** Without a digit where the number should be, it is zero. */
  lemma AtoiNothing(space: string, sign: string, rest: string)
    requires (forall c <- space :: IsSpace(c)) && sign in {"+", "-"} && DigitsEnd(rest)
    ensures Atoi(space + sign + rest) == 0
  {
    AtoiOfDigits(space, sign, "", rest);
    assert space + sign + "" == space + sign;
  }
}
