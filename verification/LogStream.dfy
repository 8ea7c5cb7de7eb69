/**
 The bounded log buffer and the integer formatting that writes into it.
 */
module LogStream {
  import opened Digits

  const LARGE_BUFFER: nat := 4096 * 1024
  const MAX_NUMERIC_SIZE: nat := 32

  /** A buffer of fixed size: `cur` bytes of `buf` are in use. */
  class FixedBuffer {
    const buf: array<char>
    var cur: nat

    constructor (size: nat)
      ensures Valid() && Content() == [] && buf.Length == size && fresh(buf)
    {
      buf := new char[size];
      cur := 0;
    }

    ghost predicate Valid()
      reads this
    {
      cur <= buf.Length
    }

    ghost function Content(): string
      reads this, buf
      requires Valid()
    {
      buf[..cur]
    }

    function Avail(): int
      reads this
    {
      buf.Length - cur
    }

    /** Data is kept whole when it is shorter than the free space, else dropped whole. */
    method Append(data: string)
      requires Valid()
      modifies this`cur, buf
      ensures Valid()
      ensures Content() == if old(Avail()) > |data| then old(Content()) + data else old(Content())
    {
      if Avail() > |data| {
        forall i | 0 <= i < |data| {
          buf[cur + i] := data[i];
        }
        cur := cur + |data|;
      }
    }

    /** Takes in `n` bytes already written behind the content. */
    method Add(n: nat)
      requires Valid() && cur + n <= buf.Length
      modifies this`cur
      ensures Valid() && cur == old(cur) + n && Content() == old(Content()) + buf[old(cur)..old(cur) + n]
    {
      cur := cur + n;
      assert buf[..cur] == buf[..old(cur)] + buf[old(cur)..cur];
    }

    method Reset()
      modifies this`cur
      ensures Valid() && cur == 0 && Content() == []
    {
      cur := 0;
    }
  }

  // ------------------------------------------------------------------ convert

  // C++ integer division and remainder by ten truncate toward zero.

  function Quot10(a: int): int { if a >= 0 then a / 10 else -((-a) / 10) }

  function Rem10(a: int): int { if a >= 0 then a % 10 else -((-a) % 10) }

  const SIGNED_DIGITS: string := "9876543210123456789"

  /** The digit for a remainder of either sign. */
  function ZeroDigit(i: int): char
    requires -9 <= i <= 9
  {
    SIGNED_DIGITS[9 + i]
  }

  lemma ZeroDigitIsAbsolute(i: int)
    requires -9 <= i <= 9
    ensures ZeroDigit(i) == DigitChar(if i < 0 then -i else i)
  {
  }

  function Signed(value: int): string {
    if value < 0 then "-" + Print(-value, 10) else Print(value, 10)
  }

  /** What `convert` writes.  Its loop stops as soon as the value is not positive, so of a
      negative value only the last digit is written. */
  function Converted(value: int): string {
    if value >= 0 then Print(value, 10)
    else if value <= -10 then ['-', ZeroDigit(Rem10(value))]
    else [ZeroDigit(Rem10(value))]
  }

  /** `convert` prints the number exactly when the number is not negative. */
  lemma ConvertCorrectExactly(value: int)
    ensures Converted(value) == Signed(value) <==> value >= 0
  {
    if value < 0 {
      ReadPrint(-value, 10);
      var s := Print(-value, 10);
      assert Signed(value) == "-" + s && |Signed(value)| >= 2;
      if value <= -10 {
        assert |Print((-value) / 10, 10)| >= 1 by { ReadPrint((-value) / 10, 10); }
        assert |Signed(value)| >= 3;
      }
    }
  }

  /** Of a negative value it prints the last digit alone, with a sign in front of it when there
      are more. */
  lemma NegativeConverted(n: int)
    requires n > 0
    ensures Converted(-n) == (if n >= 10 then "-" else "") + Print(n % 10, 10)
  {
    ZeroDigitIsAbsolute(Rem10(-n));
  }

  /** The printed value reads back, has no leading zero, and with its terminator fits
      the space formatInteger insists on, for every 64-bit value of either signedness. */
  lemma ConvertedReadsBack(value: int)
    requires -0x8000_0000_0000_0000 <= value < 0x1_0000_0000_0000_0000
    ensures value >= 0 ==> Canonical(Converted(value), 10) && Read(Converted(value), 10) == value
    ensures |Converted(value)| + 1 <= MAX_NUMERIC_SIZE
  {
    if value >= 0 {
      ReadPrint(value, 10);
      PowValues();
      PrintLength(value, 10, 20);
    }
  }

  lemma ConvertedHexFits(value: nat)
    requires value < 0x1_0000_0000_0000_0000
    ensures Canonical(Print(value, 16), 16) && Read(Print(value, 16), 16) == value
    ensures 2 + |Print(value, 16)| + 1 <= MAX_NUMERIC_SIZE
  {
    ReadPrint(value, 16);
    PowValues();
    PrintLength(value, 16, 16);
  }

  function Reversed(s: string): (r: string)
    ensures |r| == |s|
  {
    if s == [] then [] else Reversed(s[1..]) + [s[0]]
  }

  lemma {:induction false} ReversedAt(s: string, k: nat)
    requires k < |s|
    ensures Reversed(s)[k] == s[|s| - 1 - k]
  {
    if k < |s| - 1 {
      ReversedAt(s[1..], k);
    }
  }

  lemma IsReversed(s: string, r: string)
    requires |r| == |s| && forall j :: 0 <= j < |s| ==> r[j] == s[|s| - 1 - j]
    ensures r == Reversed(s)
  {
    forall j | 0 <= j < |s|
      ensures r[j] == Reversed(s)[j]
    {
      ReversedAt(s, j);
    }
  }

  lemma ReversedSnoc(s: string, c: char)
    ensures Reversed(s + [c]) == [c] + Reversed(s)
  {
    if s != [] {
      assert (s + [c])[1..] == s[1..] + [c];
    }
  }

  method Reverse(buf: array<char>, lo: nat, hi: nat)
    requires lo <= hi <= buf.Length
    modifies buf
    ensures buf[lo..hi] == Reversed(old(buf[lo..hi]))
    ensures forall j :: 0 <= j < lo || hi <= j < buf.Length ==> buf[j] == old(buf[j])
  {
    ghost var was := buf[lo..hi];
    var i, n := 0, hi - lo;
    while i < n / 2
      invariant 0 <= i <= n / 2
      invariant forall j :: lo <= j < lo + i ==> buf[j] == was[hi - 1 - j]
      invariant forall j :: hi - i <= j < hi ==> buf[j] == was[hi - 1 - j]
      invariant forall j :: lo + i <= j < hi - i ==> buf[j] == was[j - lo]
      invariant forall j :: 0 <= j < lo || hi <= j < buf.Length ==> buf[j] == old(buf[j])
    {
      buf[lo + i], buf[hi - 1 - i] := buf[hi - 1 - i], buf[lo + i];
      i := i + 1;
    }
    ghost var now := buf[lo..hi];
    forall j | 0 <= j < |was|
      ensures now[j] == was[|was| - 1 - j]
    {
      assert now[j] == buf[lo + j];
    }
    IsReversed(was, now);
  }

  /** The digits the loop of `convert` writes from `v` on, last digit first. */
  function Written(v: int): string
    decreases v
  {
    [ZeroDigit(Rem10(v))] + if Quot10(v) > 0 then Written(Quot10(v)) else []
  }

  /** The value that loop is left with. */
  function Left(v: int): int
    decreases v
  {
    if Quot10(v) > 0 then Left(Quot10(v)) else Quot10(v)
  }

  function Sign(v: int): string { if v < 0 then ['-'] else [] }

  lemma {:induction false} WrittenPositive(v: nat)
    ensures Reversed(Written(v)) == Print(v, 10) && Left(v) == 0
    decreases v
  {
    ZeroDigitIsAbsolute(v % 10);
    var rest := if v / 10 > 0 then Written(v / 10) else [];
    assert Written(v)[1..] == rest;
    if v / 10 > 0 {
      WrittenPositive(v / 10);
    }
  }

  lemma WrittenNegative(value: int)
    requires value < 0
    ensures Reversed(Written(value) + Sign(Left(value))) == Converted(value)
  {
    var d := ZeroDigit(Rem10(value));
    assert Written(value) == [d] && Left(value) == Quot10(value);
    assert [d][1..] == [] && [d, '-'][1..] == ['-'] && ['-'][1..] == [];
    assert Reversed([d]) == [d] && Reversed(['-']) == ['-'];
    assert Reversed([d, '-']) == ['-', d];
    assert [d] + ['-'] == [d, '-'] && [d] + [] == [d];
  }

  /** What the loop, the sign step and the final reversal come to. */
  lemma WrittenConverted(value: int)
    ensures Reversed(Written(value) + Sign(Left(value))) == Converted(value)
  {
    if value < 0 {
      WrittenNegative(value);
    } else {
      WrittenPositive(value);
      assert Written(value) + [] == Written(value);
    }
  }

  /** Writes the next character behind the `loc` written from `at` on. */
  method Put(buf: array<char>, at: nat, loc: nat, c: char)
    requires at + loc < buf.Length
    modifies buf
    ensures buf[at..at + loc + 1] == old(buf[at..at + loc]) + [c]
    ensures buf[at..at + loc] == old(buf[at..at + loc]) && buf[at + loc] == c
    ensures buf[..at] == old(buf[..at])
  {
    buf[at + loc] := c;
  }

  /** The common end of both conversions: terminate, then reverse what was written. */
  method Terminate(buf: array<char>, at: nat, loc: nat)
    requires at + loc < buf.Length
    modifies buf
    ensures buf[at..at + loc] == Reversed(old(buf[at..at + loc])) && buf[at + loc] == '\0'
    ensures buf[..at] == old(buf[..at])
  {
    Put(buf, at, loc, '\0');
    ghost var front := buf[..at];
    Reverse(buf, at, at + loc);
    assert buf[..at] == front;
  }

  /** Digits are written last first, then reversed in place; returns their number. */
  method Convert(buf: array<char>, at: nat, value: int) returns (loc: nat)
    requires at + |Converted(value)| + 1 <= buf.Length
    modifies buf
    ensures loc == |Converted(value)|
    ensures buf[at..at + loc] == Converted(value) && buf[at + loc] == '\0'
    ensures buf[..at] == old(buf[..at])
  {
    WrittenConverted(value);
    var v;
    loc, v := WriteDigits(buf, at, value);
    loc := WriteSign(buf, at, loc, v);
    Terminate(buf, at, loc);
  }

  lemma NextDigit(out: string, todo: string)
    requires todo != []
    ensures (out + [todo[0]]) + todo[1..] == out + todo
  {
  }

  /** The loop of convert: `v` is what is left of the value. */
  method WriteDigits(buf: array<char>, at: nat, value: int) returns (loc: nat, v: int)
    requires at + |Written(value)| + 1 <= buf.Length
    modifies buf
    ensures loc == |Written(value)| && v == Left(value)
    ensures buf[at..at + loc] == Written(value)
    ensures buf[..at] == old(buf[..at])
  {
    loc, v := 0, value;
    var more := true;
    ghost var out: string, todo := [], Written(value);
    while more
      invariant out + todo == Written(value) && loc == |out|
      invariant todo == if more then Written(v) else []
      invariant buf[at..at + loc] == out
      invariant Left(value) == if more then Left(v) else v
      invariant buf[..at] == old(buf[..at])
      decreases more, v
    {
      var c := ZeroDigit(Rem10(v));
      v := Quot10(v);
      Put(buf, at, loc, c);
      loc := loc + 1;
      more := v > 0;
      NextDigit(out, todo);
      out, todo := out + [c], todo[1..];
    }
  }

  method WriteSign(buf: array<char>, at: nat, before: nat, v: int) returns (loc: nat)
    requires at + before + |Sign(v)| < buf.Length
    modifies buf
    ensures loc == before + |Sign(v)|
    ensures buf[at..at + loc] == old(buf[at..at + before]) + Sign(v)
    ensures buf[..at] == old(buf[..at])
  {
    loc := before;
    if v < 0 {
      Put(buf, at, loc, '-');
      loc := loc + 1;
    }
  }

  ghost predicate ConvertingHex(value: nat, i: nat, more: bool, out: string) {
    (more || i == 0) && Print(value, 16) == (if more then Print(i, 16) else []) + Reversed(out)
  }

  lemma ConvertHexStep(value: nat, i: nat, out: string)
    requires ConvertingHex(value, i, true, out)
    ensures ConvertingHex(value, i / 16, i / 16 != 0, out + [DigitChar(i % 16)])
    ensures |out| < |Print(value, 16)|
  {
    var c := DigitChar(i % 16);
    ReversedSnoc(out, c);
    PrintedStep(i);
    NextDigit(if i / 16 != 0 then Print(i / 16, 16) else [], [c] + Reversed(out));
  }

  lemma PrintedStep(i: nat)
    ensures Print(i, 16) == (if i / 16 != 0 then Print(i / 16, 16) else []) + [DigitChar(i % 16)]
  {
  }

  method ConvertHex(buf: array<char>, at: nat, value: nat) returns (len: nat)
    requires at + |Print(value, 16)| + 1 <= buf.Length
    modifies buf
    ensures len == |Print(value, 16)|
    ensures buf[at..at + len] == Print(value, 16) && buf[at + len] == '\0'
    ensures buf[..at] == old(buf[..at])
  {
    len := 0;
    var i := value;
    var more := true;
    while more
      invariant 0 <= len <= |Print(value, 16)|
      invariant buf[..at] == old(buf[..at])
      invariant ConvertingHex(value, i, more, buf[at..at + len])
      decreases more, i
    {
      ConvertHexStep(value, i, buf[at..at + len]);
      var lsd := i % 16;
      i := i / 16;
      Put(buf, at, len, DIGITS[lsd]);
      len := len + 1;
      more := i != 0;
    }
    assert |Reversed(buf[at..at + len])| == len;
    Terminate(buf, at, len);
  }

  /** formatInteger: numbers are written whole, or not at all when space is short. */
  method FormatInteger(buffer: FixedBuffer, t: int)
    requires buffer.Valid() && -0x8000_0000_0000_0000 <= t < 0x1_0000_0000_0000_0000
    modifies buffer`cur, buffer.buf
    ensures buffer.Valid()
    ensures buffer.Content() == old(buffer.Content()) + (if old(buffer.Avail()) > 32 then Converted(t) else [])
  {
    if buffer.Avail() > MAX_NUMERIC_SIZE {
      ConvertedReadsBack(t);
      var len := Convert(buffer.buf, buffer.cur, t);
      buffer.Add(len);
    }
  }

  lemma Stretches(s: string, at: nat, k: nat, n: nat)
    requires at + k + n <= |s|
    ensures s[at..at + k + n] == s[..at + k][at..] + s[at + k..at + k + n] && s[..at + k][..at] == s[..at]
  {
  }

  method WritePointer(buf: array<char>, at: nat, p: nat) returns (len: nat)
    requires at + 2 + |Print(p, 16)| + 1 <= buf.Length
    modifies buf
    ensures len == 2 + |Print(p, 16)| && buf[at..at + len] == "0x" + Print(p, 16)
    ensures buf[..at] == old(buf[..at])
  {
    Put(buf, at, 0, '0');
    Put(buf, at, 1, 'x');
    ghost var front := buf[..at + 2];
    assert front[at..] == buf[at..at + 2] == "0x" && front[..at] == old(buf[..at]);
    len := ConvertHex(buf, at + 2, p);
    Stretches(buf[..], at, 2, len);
    assert buf[..][..at + 2] == buf[..at + 2] == front;
    len := len + 2;
  }

  method FormatPointer(buffer: FixedBuffer, p: nat)
    requires buffer.Valid() && p < 0x1_0000_0000_0000_0000
    modifies buffer`cur, buffer.buf
    ensures buffer.Valid()
    ensures buffer.Content() == old(buffer.Content()) + (if old(buffer.Avail()) >= 32 then "0x" + Print(p, 16) else [])
  {
    if buffer.Avail() >= MAX_NUMERIC_SIZE {
      ConvertedHexFits(p);
      var len := WritePointer(buffer.buf, buffer.cur, p);
      buffer.Add(len);
    }
  }
}
