/** Reading a bitmap from hexadecimal text (bitmap.c: hex_to_bin, __bitmap_parse). */
module Parse {
  import opened Arith
  import opened Binary
  import opened BitWord
  import opened FindBit
  import opened Powers
  import opened Remap
  import opened Shift

  const EINVAL: int := 22
  const EOVERFLOW: int := 75
  const NUL: char := '\0'

  predicate IsSpace(c: char) { c == ' ' || '\t' <= c <= '\r' }

  predicate IsHex(c: char) { '0' <= c <= '9' || 'a' <= c <= 'f' || 'A' <= c <= 'F' }

  /** The value of a hexadecimal digit. */
  function HexValue(c: char): (d: nat)
    requires IsHex(c)
    ensures d < 16
  {
    if '0' <= c <= '9' then c as int - '0' as int
    else if 'a' <= c <= 'f' then c as int - 'a' as int + 10
    else c as int - 'A' as int + 10
  }

  /** tolower */
  function Lower(c: char): char { if 'A' <= c <= 'Z' then (c as int + 32) as char else c }

  /** hex_to_bin */
  method HexToBin(ch0: char) returns (d: int)
    ensures d == if IsHex(ch0) then HexValue(ch0) else -1
  {
    var ch := ch0;
    if '0' <= ch <= '9' { return ch as int - '0' as int; }
    ch := Lower(ch);
    if 'a' <= ch <= 'f' { return ch as int - 'a' as int + 10; }
    d := -1;
  }

  // ---- the text and the number that it denotes ----

  /** The text ends at the first NUL, or with the buffer. */
  function Text(buf: seq<char>): (t: seq<char>)
    ensures |t| <= |buf| && t == buf[..|t|] && (|t| < |buf| ==> buf[|t|] == NUL)
    ensures forall i :: 0 <= i < |t| ==> buf[i] != NUL
  {
    if buf == [] || buf[0] == NUL then [] else [buf[0]] + Text(buf[1..])
  }

  /** The number denoted by the groups that a comma has ended, and that of the group being read. */
  datatype Num = Num(hi: nat, chunk: nat)

  /** One more group behind the groups so far. */
  function Join(hi: nat, chunk: nat): nat { hi * Pow2(32) + chunk }

  function Read(t: seq<char>): Num
  {
    if t == [] then Num(0, 0) else
      var p, c := Read(t[..|t| - 1]), t[|t| - 1];
      if IsHex(c) then Num(p.hi, 16 * p.chunk + HexValue(c))
      else if c == ',' then Num(Join(p.hi, p.chunk), 0)
      else p
  }

  /** The number denoted by t, a base-2^32 number whose digits are the groups. A comma counts once a group follows. */
  function Number(t: seq<char>): nat
  {
    if t != [] && t[|t| - 1] == ',' then Read(t).hi else Join(Read(t).hi, Read(t).chunk)
  }

  /** The number of hexadecimal digits. */
  function Digits(t: seq<char>): nat
  {
    if t == [] then 0 else Digits(t[..|t| - 1]) + if IsHex(t[|t| - 1]) then 1 else 0
  }

  /** Those after the last comma. */
  function Fresh(t: seq<char>): nat
  {
    if t == [] || t[|t| - 1] == ',' then 0 else Fresh(t[..|t| - 1]) + if IsHex(t[|t| - 1]) then 1 else 0
  }

  /** Between the first digit and the last character there is no white space, and a comma ends a group of digits. */
  predicate CharOk(t: seq<char>, j: nat)
    requires j < |t|
  {
    || IsSpace(t[j])
    || (&& (IsHex(t[j]) || (t[j] == ',' && Fresh(t[..j]) > 0))
        && !(j > 0 && IsSpace(t[j - 1]) && Digits(t[..j]) > 0))
  }

  /** The last group has a digit, or there is nothing at all after the last comma. */
  predicate EndOk(buf: seq<char>)
  {
    var t := Text(buf);
    Fresh(t) > 0 || (t != [] && t[|t| - 1] == ',' && |t| == |buf|)
  }

  predicate WellFormed(buf: seq<char>) { (forall j: nat :: j < |Text(buf)| ==> CharOk(Text(buf), j)) && EndOk(buf) }

  /** Some part of the text has a group of more than 32 bits, or denotes a number of more than n bits. */
  ghost predicate TooBig(buf: seq<char>, n: nat)
  {
    exists p: nat :: p <= |Text(buf)| && Exceeds(Text(buf)[..p], n)
  }

  predicate Exceeds(t: seq<char>, n: nat) { Read(t).chunk >= Pow2(32) || Number(t) >= Pow2(n) }

  // ---- which error is met first ----

  /** The text is malformed at j: by a character that cannot stand there, or by ending there. */
  predicate Malformed(buf: seq<char>, j: nat)
    requires j <= |Text(buf)|
  {
    if j < |Text(buf)| then !CharOk(Text(buf), j) else !EndOk(buf)
  }

  /** At j a digit makes its group too large, or the end of a group finds the number too large for n bits. */
  predicate Over(buf: seq<char>, n: nat, j: nat)
    requires j <= |Text(buf)|
  {
    var t := Text(buf);
    if j == |t| || t[j] == ',' then Number(t[..j]) >= Pow2(n)
    else IsHex(t[j]) && Read(t[..j + 1]).chunk >= Pow2(32)
  }

  /** Before j, nothing is wrong. */
  ghost predicate Fine(buf: seq<char>, n: nat, j: nat) {
    j <= |Text(buf)| + 1 && forall i: nat :: i < j ==> !Malformed(buf, i) && !Over(buf, n, i)
  }

  /** The first thing wrong is at j. */
  ghost predicate FirstFault(buf: seq<char>, n: nat, j: nat) {
    j <= |Text(buf)| && Fine(buf, n, j) && (Malformed(buf, j) || Over(buf, n, j))
  }

  /** What __bitmap_parse returns: the error that is met first. Where a place is wrong in both ways, it is malformed. */
  ghost predicate Verdict(buf: seq<char>, n: nat, r: int) {
    if r == 0 then Fine(buf, n, |Text(buf)| + 1)
    else exists j: nat :: FirstFault(buf, n, j) && r == if Malformed(buf, j) then -EINVAL else -EOVERFLOW
  }

  /** There is one verdict only. */
  lemma {:induction false} OneVerdict(buf: seq<char>, n: nat, r: int, r': int)
    requires Verdict(buf, n, r) && Verdict(buf, n, r')
    ensures r == r'
  {
    hide Malformed, Over, Text;
    if r != 0 {
      var j: nat :| FirstFault(buf, n, j) && r == if Malformed(buf, j) then -EINVAL else -EOVERFLOW;
      if r' != 0 {
        var j': nat :| FirstFault(buf, n, j') && r' == if Malformed(buf, j') then -EINVAL else -EOVERFLOW;
        assert j == j';
      }
    }
  }

  /** No comma from pos0 on, before pos. */
  predicate NoComma(t: seq<char>, pos0: nat, pos: nat) {
    pos <= |t| && forall i: nat :: pos0 <= i < pos ==> t[i] != ','
  }

  /** A group without commas adds no fault while its characters are in order and it has 32 bits at most. */
  lemma {:induction false} FineGroup(buf: seq<char>, n: nat, pos0: nat, pos: nat)
    requires Fine(buf, n, pos0) && Prefix(Text(buf), pos) && NoComma(Text(buf), pos0, pos)
    ensures Fine(buf, n, pos)
  {
    hide Text, Pow2, CharOk, Read, Number, EndOk;
    forall i: nat | pos0 <= i < pos ensures !Malformed(buf, i) && !Over(buf, n, i) {
      assert Read(Text(buf)[..i + 1]).chunk < Pow2(32);
    }
  }

  /** The error that the loop over the characters of a group has met. */
  lemma {:induction false} GroupFault(buf: seq<char>, n: nat, pos0: nat, j: nat, err: int)
    requires Fine(buf, n, pos0) && j < |Text(buf)| && Prefix(Text(buf), j) && NoComma(Text(buf), pos0, j)
    requires if CharOk(Text(buf), j) then IsHex(Text(buf)[j]) && Read(Text(buf)[..j + 1]).chunk >= Pow2(32) else true
    requires err == if CharOk(Text(buf), j) then -EOVERFLOW else -EINVAL
    ensures Verdict(buf, n, err)
  {
    hide Text, Pow2, CharOk, Read, Number, EndOk, Fine;
    FineGroup(buf, n, pos0, j);
    assert FirstFault(buf, n, j);
  }

  // ---- one more character ----

  /** The first pos characters are in order, and no group in them has more than 32 bits. */
  ghost predicate Prefix(t: seq<char>, pos: nat)
  {
    && pos <= |t|
    && (forall j: nat :: j < pos ==> CharOk(t, j))
    && (forall p: nat :: p <= pos ==> Read(t[..p]).chunk < Pow2(32))
  }

  /** What has been read when the loop is at pos, in a group that began at pos0. */
  ghost predicate Reading(t: seq<char>, pos0: nat, pos: nat, chunk: Word, total0: nat, total: nat)
  {
    && pos0 <= pos && Prefix(t, pos)
    && total == Digits(t[..pos]) && total0 + Fresh(t[..pos]) == total
    && Read(t[..pos]) == Num(Read(t[..pos0]).hi, WordValue(chunk))
  }

  lemma {:induction false} Grow(t: seq<char>, p: nat)
    requires p < |t|
    ensures t[..p + 1][..p] == t[..p] && t[..p + 1][p] == t[p]
    ensures Digits(t[..p + 1]) == Digits(t[..p]) + if IsHex(t[p]) then 1 else 0
    ensures Fresh(t[..p + 1]) == if t[p] == ',' then 0 else Fresh(t[..p]) + if IsHex(t[p]) then 1 else 0
    ensures Read(t[..p + 1]) == var r, c := Read(t[..p]), t[p];
      if IsHex(c) then Num(r.hi, 16 * r.chunk + HexValue(c))
      else if c == ',' then Num(Join(r.hi, r.chunk), 0)
      else r
  {
    hide Pow2; hide IsHex; hide HexValue;
    assert t[..p + 1][..p] == t[..p];
  }

  lemma {:induction false} Longer(t: seq<char>, pos: nat)
    requires Prefix(t, pos) && pos < |t| && CharOk(t, pos) && Read(t[..pos + 1]).chunk < Pow2(32)
    ensures Prefix(t, pos + 1)
  {
    hide CharOk; hide Pow2; hide Read;
  }

  lemma {:induction false} SpaceStep(t: seq<char>, pos0: nat, pos: nat, chunk: Word, total0: nat, total: nat)
    requires Reading(t, pos0, pos, chunk, total0, total) && pos < |t| && IsSpace(t[pos])
    ensures Reading(t, pos0, pos + 1, chunk, total0, total)
  {
    hide Pow2; hide WordValue; hide Read; hide Digits; hide Fresh; hide Prefix;
    Grow(t, pos);
    assert Read(t[..pos]).chunk < Pow2(32) by { LastChunk(t, pos); }
    Longer(t, pos);
  }

  lemma {:induction false} LastChunk(t: seq<char>, pos: nat)
    requires Prefix(t, pos)
    ensures Read(t[..pos]).chunk < Pow2(32)
  {
    hide Pow2; hide Read; hide CharOk;
  }

  /** chunk & ~((1UL << 28) - 1) */
  lemma {:induction false} Room(chunk: Word)
    ensures And(chunk, Not(Low(28))) == 0 <==> WordValue(chunk) < Pow2(28)
  {
    hide And; hide Not; hide Low; hide WordValue; hide Pow2; hide Bit;
    var m := Not(Low(28));
    WordClear(chunk, 28);
    forall i: nat
      ensures Bit(And(chunk, m), i) <==> Bit(chunk, i) && i >= 28
    {
      OpsBit(chunk, m, i);
      NotBit(Low(28), i);
      NotBit(chunk, i);
      LowBit(28, i);
    }
    if And(chunk, m) != 0 { SomeBit(And(chunk, m)); } else {
      forall i: nat
        ensures !Bit(0, i)
      {
        OpsBit(0, 0, i);
      }
    }
  }

  lemma {:induction false} Push(chunk: Word, d: nat)
    requires WordValue(chunk) < Pow2(28) && d < 16
    ensures WordValue(Or(Shl(chunk, 4), ToWord(d))) == 16 * WordValue(chunk) + d
    ensures 16 * WordValue(chunk) + d < Pow2(32)
  {
    hide Or; hide Shl; hide WordValue; hide ToWord; hide Bit;
    Sixteen();
    Pow2Mono(28, 60);
    ShlValue(chunk, 4);
    ToWordValue(d, 4);
    forall i: nat | i < 4
      ensures !Bit(Shl(chunk, 4), i)
    {
      LeftBit(chunk, 4, i);
    }
    OrValue(Shl(chunk, 4), ToWord(d), 4);
  }

  lemma {:induction false} Sixteen()
    ensures Pow2(4) == 16 && Pow2(32) == 16 * Pow2(28)
  {
    Pow2Sum(4, 28);
  }

  lemma {:induction false} HexStep(t: seq<char>, pos0: nat, pos: nat, chunk: Word, total0: nat, total: nat)
    requires Reading(t, pos0, pos, chunk, total0, total) && pos < |t| && IsHex(t[pos])
    requires !(pos > 0 && IsSpace(t[pos - 1]) && total > 0) && WordValue(chunk) < Pow2(28)
    ensures Reading(t, pos0, pos + 1, Or(Shl(chunk, 4), ToWord(HexValue(t[pos]))), total0, total + 1)
  {
    hide Pow2; hide WordValue; hide Read; hide Digits; hide Fresh; hide Prefix; hide Or; hide Shl; hide ToWord;
    Grow(t, pos);
    Push(chunk, HexValue(t[pos]));
    Longer(t, pos);
  }

  lemma {:induction false} Overflows(buf: seq<char>, pos0: nat, pos: nat, chunk: Word, total0: nat, total: nat)
    requires var t := Text(buf); Reading(t, pos0, pos, chunk, total0, total) && pos < |t| && IsHex(t[pos])
    requires !(pos > 0 && IsSpace(Text(buf)[pos - 1]) && total > 0) && WordValue(chunk) >= Pow2(28)
    ensures CharOk(Text(buf), pos) && Prefix(Text(buf), pos) && Read(Text(buf)[..pos + 1]).chunk >= Pow2(32)
    ensures forall n: nat :: TooBig(buf, n)
  {
    hide Pow2; hide WordValue; hide Read; hide Number; hide Text;
    Grow(Text(buf), pos);
    Sixteen();
    forall n: nat ensures TooBig(buf, n) { assert Exceeds(Text(buf)[..pos + 1], n); }
  }

  // ---- one group ----

  /** The character before pos. */
  function Prev(buf: seq<char>, pos: nat): char { if 0 < pos <= |buf| then buf[pos - 1] else NUL }

  /** White space between the first digit and what follows. */
  predicate Embedded(t: seq<char>, j: nat)
  {
    0 < j <= |t| && IsSpace(t[j - 1]) && Digits(t[..j]) > 0
  }

  /** The group ends at e: at a comma, at a NUL, or with the buffer. */
  ghost predicate GroupEnd(buf: seq<char>, e: nat, pos: nat, c: char)
  {
    var t := Text(buf);
    if c == ',' then pos == e + 1 <= |t| && t[e] == ',' && !Embedded(t, e)
    else e == |t| && (pos == e == |buf| || pos == e + 1 <= |buf|)
  }

  /** The inner loop of __bitmap_parse: reads the digits of one group. */
  method ReadChunk(buf: seq<char>, pos0: nat, c0: char, total0: nat)
    returns (err: int, pos: nat, c: char, chunk: Word, total: nat, ghost e: nat)
    requires Reading(Text(buf), pos0, pos0, 0, total0, total0) && c0 == Prev(buf, pos0)
    requires pos0 < |buf| || pos0 == 0
    ensures err in {0, -EINVAL, -EOVERFLOW}
    ensures err == -EINVAL ==> !WellFormed(buf)
    ensures err == -EOVERFLOW ==> forall n: nat :: TooBig(buf, n)
    ensures err != 0 ==> 0 < pos <= |Text(buf)| && Prefix(Text(buf), pos - 1) && NoComma(Text(buf), pos0, pos - 1)
    ensures err == -EINVAL ==> !CharOk(Text(buf), pos - 1)
    ensures err == -EOVERFLOW ==>
      var t := Text(buf); CharOk(t, pos - 1) && IsHex(t[pos - 1]) && Read(t[..pos]).chunk >= Pow2(32)
    ensures err == 0 ==> NoComma(Text(buf), pos0, e)
    ensures err == 0 ==>
      Reading(Text(buf), pos0, e, chunk, total0, total) && GroupEnd(buf, e, pos, c) && pos0 <= pos <= |buf|
    ensures err == 0 ==> (pos0 < pos || buf == []) && c == Prev(buf, pos)
  {
    hide Reading; hide Text; hide WordValue; hide WellFormed; hide TooBig; hide Or; hide Shl; hide And; hide Not;
    hide Low; hide ToWord; hide Pow2; hide Digits; hide Read; hide CharOk; hide Prefix;
    ghost var t := Text(buf);
    TextEnd(buf);
    ReadingIn(t, pos0, pos0, 0, total0, total0);
    err, pos, c, chunk, total := 0, pos0, c0, 0, total0;
    while pos < |buf|
      invariant Reading(t, pos0, pos, chunk, total0, total) && pos0 <= pos <= |t| && c == Prev(buf, pos)
      invariant pos > pos0 ==> c != ','
      invariant NoComma(t, pos0, pos)
      decreases |buf| - pos
    {
      ReadingIn(t, pos0, pos, chunk, total0, total);
      var oldC := c;
      c := buf[pos];
      pos := pos + 1;
      if IsSpace(c) {
        SpaceStep(t, pos0, pos - 1, chunk, total0, total);
        continue;
      }
      if total > 0 && c != NUL && IsSpace(oldC) {
        BadAt(t, pos0, pos - 1, chunk, total0, total);
        BadChar(buf, pos - 1);
        return -EINVAL, pos, c, chunk, total, 0;
      }
      if c == NUL || c == ',' {
        e := pos - 1;
        return;
      }
      if !IsHex(c) {
        BadAt(t, pos0, pos - 1, chunk, total0, total);
        BadChar(buf, pos - 1);
        return -EINVAL, pos, c, chunk, total, 0;
      }
      Room(chunk);
      if And(chunk, Not(Low(28))) != 0 {
        Overflows(buf, pos0, pos - 1, chunk, total0, total);
        return -EOVERFLOW, pos, c, chunk, total, 0;
      }
      var d := HexToBin(c);
      HexStep(t, pos0, pos - 1, chunk, total0, total);
      chunk := Or(Shl(chunk, 4), ToWord(d));
      total := total + 1;
    }
    e := pos;
  }

  lemma {:induction false} TextEnd(buf: seq<char>)
    ensures var t := Text(buf); |t| <= |buf| && t == buf[..|t|] && (|t| < |buf| ==> buf[|t|] == NUL)
    ensures forall i :: 0 <= i < |buf| && buf[i] == NUL ==> |Text(buf)| <= i
  {
    hide Text;
  }

  lemma {:induction false} ReadingIn(t: seq<char>, pos0: nat, pos: nat, chunk: Word, total0: nat, total: nat)
    requires Reading(t, pos0, pos, chunk, total0, total)
    ensures pos0 <= pos <= |t| && total == Digits(t[..pos])
  {}

  lemma {:induction false} BadAt(t: seq<char>, pos0: nat, pos: nat, chunk: Word, total0: nat, total: nat)
    requires Reading(t, pos0, pos, chunk, total0, total) && pos < |t| && !IsSpace(t[pos])
    requires (t[pos] != ',' && !IsHex(t[pos])) || (total > 0 && pos > 0 && IsSpace(t[pos - 1]))
    ensures !CharOk(t, pos) && Prefix(t, pos)
  {
    hide Pow2, Read, Fresh, WordValue, Prefix;
  }

  /** A character that cannot stand where it is. */
  lemma {:induction false} BadChar(buf: seq<char>, j: nat)
    requires var t := Text(buf); j < |t| && !CharOk(t, j)
    ensures !WellFormed(buf)
  {
    hide CharOk; hide Text; hide EndOk;
  }

  /** A group has been read, and the number so far is too large, or is not. */
  lemma {:induction false} GroupSum(buf: seq<char>, pos0: nat, e: nat, pos: nat, c: char, chunk: Word, total0: nat,
          total: nat, n: nat)
    requires Reading(Text(buf), pos0, e, chunk, total0, total) && total != total0 && GroupEnd(buf, e, pos, c)
    requires Fine(buf, n, pos0) && NoComma(Text(buf), pos0, e)
    ensures var v := Join(Read(Text(buf)[..pos0]).hi, WordValue(chunk));
      && e <= |Text(buf)| && Fine(buf, n, e) && !Malformed(buf, e) && (Over(buf, n, e) <==> v >= Pow2(n))
  {
    hide Text, WordValue, Pow2, Read, Join, Fine, Prefix, Digits;
    var t := Text(buf);
    FineGroup(buf, n, pos0, e);
    assert Fresh(t[..e]) > 0;
    FreshEnd(t[..e]);
    if c != ',' { assert t[..e] == t; }
  }

  lemma {:induction false} OverHere(buf: seq<char>, n: nat, e: nat)
    requires e <= |Text(buf)| && Fine(buf, n, e) && !Malformed(buf, e) && Over(buf, n, e)
    ensures Verdict(buf, n, -EOVERFLOW)
  {
    hide Fine, Malformed, Over, Text;
    assert FirstFault(buf, n, e);
  }

  lemma {:induction false} WrongHere(buf: seq<char>, n: nat, pos0: nat, e: nat)
    requires Fine(buf, n, pos0) && Prefix(Text(buf), e) && NoComma(Text(buf), pos0, e)
    requires e <= |Text(buf)| && Malformed(buf, e)
    ensures Verdict(buf, n, -EINVAL)
  {
    FineGroup(buf, n, pos0, e);
    hide Fine, Malformed, Over, Text;
    assert FirstFault(buf, n, e);
  }

  lemma {:induction false} FineOn(buf: seq<char>, n: nat, e: nat)
    requires e <= |Text(buf)| && Fine(buf, n, e) && !Malformed(buf, e) && !Over(buf, n, e)
    ensures Fine(buf, n, e + 1)
  {
    hide Malformed, Over, Text;
  }

  /** The text has been read to its end. */
  lemma {:induction false} FineToEnd(buf: seq<char>, n: nat, e: nat)
    requires e <= |Text(buf)| <= e + 1 && Fine(buf, n, e + 1) && WellFormed(buf) && Number(Text(buf)) < Pow2(n)
    ensures Verdict(buf, n, 0)
  {
    hide CharOk, EndOk, Text, Number, Read, Pow2;
    assert Text(buf)[..|Text(buf)|] == Text(buf);
  }

  lemma {:induction false} FineStart(buf: seq<char>, n: nat)
    ensures Fine(buf, n, 0)
  {}

  // ---- groups ----

  /** A group without digits. */
  lemma {:induction false} NoDigits(buf: seq<char>, pos0: nat, e: nat, pos: nat, c: char, chunk: Word, total: nat)
    requires Reading(Text(buf), pos0, e, chunk, total, total) && GroupEnd(buf, e, pos, c) && c == Prev(buf, pos)
    ensures !WellFormed(buf) && e <= |Text(buf)| && Malformed(buf, e) && Prefix(Text(buf), e)
  {
    hide Text; hide WordValue; hide Pow2; hide Read; hide Prefix; hide Fresh; hide Digits;
    var t := Text(buf);
    TextEnd(buf);
    assert Fresh(t[..e]) == 0;
    if c == ',' {
      BadComma(t, e);
      BadChar(buf, e);
    } else {
      assert t[..e] == t;
    }
  }

  lemma {:induction false} BadComma(t: seq<char>, e: nat)
    requires e < |t| && t[e] == ',' && Fresh(t[..e]) == 0
    ensures !CharOk(t, e)
  {
    hide Fresh; hide Digits;
  }

  lemma {:induction false} CommaStep(t: seq<char>, pos0: nat, e: nat, chunk: Word, total0: nat, total: nat)
    requires Reading(t, pos0, e, chunk, total0, total) && total != total0
    requires e < |t| && t[e] == ',' && !Embedded(t, e)
    ensures Reading(t, e + 1, e + 1, 0, total, total)
    ensures Read(t[..e + 1]).hi == Join(Read(t[..pos0]).hi, WordValue(chunk))
  {
    hide Pow2; hide WordValue; hide Read; hide Digits; hide Fresh; hide Prefix;
    Grow(t, e);
    ZeroOne();
    LastChunk(t, e);
    assert CharOk(t, e);
    Positive();
    Longer(t, e);
  }

  lemma {:induction false} Positive()
    ensures Pow2(32) > 0
  {}

  /** A later part of the text denotes no smaller number. */
  lemma {:induction false} NumberMono(t: seq<char>, p: nat, q: nat)
    requires p <= q <= |t|
    ensures Number(t[..p]) <= Number(t[..q])
  {
    hide Pow2; hide Read;
    if p < q {
      NumberMono(t, p, q - 1);
      Grow(t, q - 1);
      ReadEmpty();
      var r := Read(t[..q - 1]);
      Times(r.hi, Pow2(32));
    }
  }

  lemma {:induction false} ReadEmpty()
    ensures Read([]) == Num(0, 0)
  {}

  lemma {:induction false} Times(a: nat, m: nat)
    requires m > 0
    ensures a * m >= a
  {}

  // ---- the number in the bitmap ----

  /** How many bits the number V takes, and none while no group has counted. */
  predicate Held(nchunks: nat, nbits: nat, v: nat)
  {
    if nchunks == 0 then nbits == 0 && v == 0 else nbits > 0 && Pow2(nbits - 1) <= v < Pow2(nbits)
  }

  lemma {:induction false} HeldNext(nchunks: nat, nbits: nat, v: nat, x: nat, r: nat)
    requires Held(nchunks, nbits, v) && x < Pow2(32)
    requires nchunks == 0 ==> r > 0 && Pow2(r - 1) <= x < Pow2(r)
    ensures Held(nchunks + 1, if nchunks == 0 then r else nbits + 32, Join(v, x))
  {
    hide Pow2;
    if nchunks > 0 {
      Pow2Sum(nbits - 1, 32);
      Pow2Sum(nbits, 32);
      Scale(Pow2(nbits - 1), v, Pow2(nbits), Pow2(32), x);
    }
  }

  lemma {:induction false} Scale(a: nat, v: nat, b: nat, m: nat, x: nat)
    requires a <= v < b && x < m
    ensures a * m <= v * m + x < b * m
  {
    NonNeg(m, v - a);
    Dist(m, v, a);
    NonNeg(m, b - (v + 1));
    Dist(m, b, v + 1);
    Dist(m, v, 1);
  }

  /** Shifting the bitmap up by 32 and joining in a group. */
  lemma {:induction false} ChunkValue(s: seq<Word>, s1: seq<Word>, s2: seq<Word>, chunk: Word, nbits: nat, n: nat)
    requires 0 < n <= 64 * |s| && |s1| == |s| && MovedUp(s1, s, 32, n) && s2 == s1[0 := Or(s1[0], chunk)]
    requires Value(s, Rounded(n)) < Pow2(nbits) && (nbits + 32 <= Rounded(n) || Value(s, Rounded(n)) == 0)
    requires WordValue(chunk) < Pow2(32)
    ensures Value(s2, Rounded(n)) == Join(Value(s, Rounded(n)), WordValue(chunk))
  {
    hide Pow2; hide Value; hide At; hide Or; hide Bit;
    var m := Rounded(n);
    forall i: nat | i < m
      ensures (At(s2, i) <==> At(s1, i) || At([chunk], i)) && !(At(s1, i) && At([chunk], i))
    {
      Joined(s1, s2, chunk, i);
    }
    JoinValue(s1, [chunk], s2, m);
    WordEnd(chunk, m);
    if nbits + 32 <= m { Pow2Mono(nbits, m - 32); } else { Pow2Mono(0, m - 32); Least(m - 32); }
    ValueClear(s, m - 32, m);
    ClearValue(s, m - 32, m);
    forall i: nat | i < m - 32 + 32
      ensures At(s1, i) <==> i >= 32 && At(s, i - 32)
    {}
    ShiftValue(s, s1, 32, m - 32);
  }

  lemma {:induction false} Least(k: nat)
    ensures Pow2(k) > 0
  {}

  lemma {:induction false} Joined(s1: seq<Word>, s2: seq<Word>, chunk: Word, i: nat)
    requires |s1| > 0 && s2 == s1[0 := Or(s1[0], chunk)] && WordValue(chunk) < Pow2(32) && (i < 32 ==> !At(s1, i))
    ensures At(s2, i) <==> At(s1, i) || At([chunk], i)
    ensures !(At(s1, i) && At([chunk], i))
  {
    hide Or; hide Bit; hide WordValue; hide Pow2;
    WordClear(chunk, 32);
    AtWord(chunk, i);
    if i < 64 { OpsBit(s1[0], chunk, i); } else { NotBit(chunk, i); }
  }

  lemma {:induction false} WordEnd(chunk: Word, m: nat)
    requires m >= 64
    ensures Value([chunk], m) == WordValue(chunk)
  {
    hide Bit; hide At;
    forall i: nat | 64 <= i < m
      ensures !At([chunk], i)
    {
      AtWord(chunk, i);
      NotBit(chunk, i);
    }
    ClearValue([chunk], 64, m);
  }

  lemma {:induction false} NonZero(chunk: Word)
    requires chunk != 0
    ensures WordValue(chunk) > 0
  {
    hide Bit; hide WordValue;
    SomeBit(chunk);
    WordClear(chunk, 0);
    assert Pow2(0) == 1;
  }

  /** Joins one group into the bitmap, and returns how many bits it then holds. */
  method AddChunk(mask: array<Word>, chunk: Word, nchunks: nat, nbits0: nat, nmaskbits: nat) returns (nbits: nat)
    requires 0 < nmaskbits <= 64 * mask.Length && WordValue(chunk) < Pow2(32)
    requires nbits0 <= nmaskbits && Held(nchunks, nbits0, Value(mask[..], Rounded(nmaskbits))) && !(nchunks == 0
      && chunk == 0)
    modifies mask
    ensures TailKept(old(mask[..]), mask[..], nmaskbits)
    ensures var v := Join(old(Value(mask[..], Rounded(nmaskbits))), WordValue(chunk));
      Held(nchunks + 1, nbits, v) && (nbits <= nmaskbits ==> Value(mask[..], Rounded(nmaskbits)) == v)
  {
    hide WordValue; hide Pow2; hide Value; hide Or; hide MovedUp;
    ghost var s := mask[..];
    ghost var v := Value(s, Rounded(nmaskbits));
    ShiftLeft(mask, mask, 32, nmaskbits);
    ghost var s1 := mask[..];
    mask[0] := Or(mask[0], chunk);
    if nchunks == 0 {
      NonZero(chunk);
      nbits := Fls(chunk);
      PowZero();
    } else {
      nbits := nbits0 + 32;
    }
    HeldNext(nchunks, nbits0, v, WordValue(chunk), nbits);
    if nbits <= nmaskbits {
      PowZero();
      InRounded(nmaskbits);
      ChunkValue(s, s1, mask[..], chunk, nbits0, nmaskbits);
    }
  }

  // ---- the whole text ----

  /** Everything read so far denotes no more than the bitmap holds. */
  lemma {:induction false} NotTooBig(buf: seq<char>, nbits: nat, n: nat)
    requires Prefix(Text(buf), |Text(buf)|) && Number(Text(buf)) < Pow2(nbits) && nbits <= n
    ensures !TooBig(buf, n)
  {
    hide Text; hide Number; hide Read; hide Pow2;
    var t := Text(buf);
    Pow2Mono(nbits, n);
    forall p: nat | p <= |t|
      ensures !Exceeds(t[..p], n)
    {
      NumberMono(t, p, |t|);
      LastChunk(t, |t|);
      assert t[..|t|] == t;
    }
  }

  /** The groups up to e denote a number of more than n bits. */
  lemma {:induction false} GroupsExceed(buf: seq<char>, pos0: nat, e: nat, chunk: Word, total0: nat, total: nat,
          nbits: nat, n: nat)
    requires Reading(Text(buf), pos0, e, chunk, total0, total) && total != total0
    requires nbits > n && Pow2(nbits - 1) <= Join(Read(Text(buf)[..pos0]).hi, WordValue(chunk))
    ensures TooBig(buf, n) && Pow2(n) <= Join(Read(Text(buf)[..pos0]).hi, WordValue(chunk))
  {
    hide Text; hide Read; hide Pow2; hide WordValue;
    var t := Text(buf);
    Pow2Mono(n, nbits - 1);
    assert Exceeds(t[..e], n);
  }

  /** What the result is when the text has been read to its end. */
  lemma {:induction false} AllRead(buf: seq<char>, pos0: nat, e: nat, pos: nat, c: char, chunk: Word, total0: nat,
          total: nat)
    requires Reading(Text(buf), pos0, e, chunk, total0, total) && total != total0
    requires GroupEnd(buf, e, pos, c) && (c == ',' ==> pos == |buf|)
    ensures WellFormed(buf) && Prefix(Text(buf), |Text(buf)|) && e <= |Text(buf)| <= e + 1
    ensures Number(Text(buf)) == Join(Read(Text(buf)[..pos0]).hi, WordValue(chunk))
  {
    hide Text; hide Read; hide Pow2; hide WordValue; hide Digits; hide Fresh;
    var t := Text(buf);
    TextEnd(buf);
    assert t[..|t|] == t;
    if c == ',' {
      CommaStep(t, pos0, e, chunk, total0, total);
    } else {
      FreshEnd(t);
    }
  }

  /** The text has been read to its end, and all of it fits. */
  lemma {:induction false} AllFits(buf: seq<char>, pos0: nat, e: nat, pos: nat, c: char, chunk: Word, total0: nat,
          total: nat, nchunks: nat, nbits: nat, v: nat, n: nat)
    requires Reading(Text(buf), pos0, e, chunk, total0, total) && total != total0
    requires GroupEnd(buf, e, pos, c) && (c == ',' ==> pos == |buf|)
    requires v == Join(Read(Text(buf)[..pos0]).hi, WordValue(chunk)) && Held(nchunks, nbits, v) && nbits <= n
    ensures WellFormed(buf) && !TooBig(buf, n) && v == Number(Text(buf)) < Pow2(n)
    ensures e <= |Text(buf)| <= e + 1
  {
    hide Text, Read, Pow2, WordValue, Reading, GroupEnd, Join, WellFormed, TooBig, Number, Prefix;
    AllRead(buf, pos0, e, pos, c, chunk, total0, total);
    HeldBounds(nchunks, nbits, v);
    NotTooBig(buf, nbits, n);
    Pow2Mono(nbits, n);
  }

  lemma {:induction false} FreshEnd(t: seq<char>)
    ensures Fresh(t) > 0 ==> t != [] && t[|t| - 1] != ','
  {}

  /** __bitmap_parse, on a buffer in kernel space. */
  method Parse(buf: seq<char>, mask: array<Word>, nmaskbits: nat) returns (r: int)
    requires 0 < nmaskbits <= 64 * mask.Length
    modifies mask
    ensures r in {0, -EINVAL, -EOVERFLOW} && (r == 0 <==> WellFormed(buf) && !TooBig(buf, nmaskbits))
    ensures Verdict(buf, nmaskbits, r)
    ensures r == -EINVAL ==> !WellFormed(buf)
    ensures r == -EOVERFLOW ==> TooBig(buf, nmaskbits)
    ensures r == 0 ==> Value(mask[..], Rounded(nmaskbits)) == Number(Text(buf)) < Pow2(nmaskbits)
    ensures TailKept(old(mask[..]), mask[..], nmaskbits)
  {
    hide WordValue, Pow2, Value, Text, Read, WellFormed, TooBig, Reading, Number, Held, GroupEnd, TailKept, Prefix,
      Join, Fine, Malformed, Over, Verdict, NoComma, CharOk;
    Zero(mask, nmaskbits);
    ClearValue(mask[..], 0, Rounded(nmaskbits));
    ghost var t := Text(buf);
    Nothing(t, mask[..]);
    FineStart(buf, nmaskbits);
    var nchunks: nat, nbits: nat, totaldigits: nat, c, pos: nat := 0, 0, 0, NUL, 0;
    ghost var hi := 0;
    while true
      invariant pos <= |t|
      invariant Reading(t, pos, pos, 0, totaldigits, totaldigits) && c == Prev(buf, pos)
      invariant ((pos < |buf| && c == ',') || pos == 0) && Fine(buf, nmaskbits, pos)
      invariant hi == Read(t[..pos]).hi == Value(mask[..], Rounded(nmaskbits))
      invariant Held(nchunks, nbits, hi) && nbits <= nmaskbits && TailKept(old(mask[..]), mask[..], nmaskbits)
      decreases |buf| - pos
    {
      ghost var pos0, before := pos, mask[..];
      var ndigits := totaldigits;
      var err, chunk;
      ghost var e;
      err, pos, c, chunk, totaldigits, e := ReadChunk(buf, pos, c, totaldigits);
      if err != 0 {
        GroupFault(buf, nmaskbits, pos0, pos - 1, err);
        return err;
      }
      if ndigits == totaldigits {
        NoDigits(buf, pos0, e, pos, c, chunk, totaldigits);
        WrongHere(buf, nmaskbits, pos0, e);
        return -EINVAL;
      }
      ChunkFits(t, pos0, e, chunk, ndigits, totaldigits);
      GroupSum(buf, pos0, e, pos, c, chunk, ndigits, totaldigits, nmaskbits);
      if !(nchunks == 0 && chunk == 0) {
        nbits := AddChunk(mask, chunk, nchunks, nbits, nmaskbits);
        TailJoin(old(mask[..]), before, mask[..], nmaskbits);
        nchunks := nchunks + 1;
        if nbits > nmaskbits {
          HeldBounds(nchunks, nbits, Join(hi, WordValue(chunk)));
          GroupsExceed(buf, pos0, e, chunk, ndigits, totaldigits, nbits, nmaskbits);
          OverHere(buf, nmaskbits, e);
          return -EOVERFLOW;
        }
      } else {
        ZeroGroup(nbits, hi, chunk);
      }
      hi := Join(hi, WordValue(chunk));
      HeldBounds(nchunks, nbits, hi);
      Pow2Mono(nbits, nmaskbits);
      FineOn(buf, nmaskbits, e);
      if !(pos < |buf| && c == ',') {
        AllFits(buf, pos0, e, pos, c, chunk, ndigits, totaldigits, nchunks, nbits, hi, nmaskbits);
        FineToEnd(buf, nmaskbits, e);
        return 0;
      }
      NextGroup(buf, pos0, e, pos, c, chunk, ndigits, totaldigits);
    }
  }

  lemma {:induction false} HeldBounds(nchunks: nat, nbits: nat, v: nat)
    requires Held(nchunks, nbits, v)
    ensures v < Pow2(nbits) && (nchunks > 0 ==> nbits > 0 && Pow2(nbits - 1) <= v)
  {}

  lemma {:induction false} ZeroGroup(nbits: nat, hi: nat, chunk: Word)
    requires Held(0, nbits, hi) && chunk == 0
    ensures Join(hi, WordValue(chunk)) == 0 == hi
  {
    ZeroOne();
  }

  lemma {:induction false} ChunkFits(t: seq<char>, pos0: nat, e: nat, chunk: Word, total0: nat, total: nat)
    requires Reading(t, pos0, e, chunk, total0, total)
    ensures WordValue(chunk) < Pow2(32) && e <= |t| && pos0 <= e
  {
    hide WordValue; hide Pow2; hide Read; hide Prefix;
    LastChunk(t, e);
    ReadingIn(t, pos0, e, chunk, total0, total);
  }

  /** After a comma that is not the last character, the next group begins. */
  lemma {:induction false} NextGroup(buf: seq<char>, pos0: nat, e: nat, pos: nat, c: char, chunk: Word, total0: nat,
          total: nat)
    requires Reading(Text(buf), pos0, e, chunk, total0, total) && total != total0 && GroupEnd(buf, e, pos, c)
      && c == ','
    ensures Reading(Text(buf), pos, pos, 0, total, total) && pos0 <= pos <= |Text(buf)| && pos == e + 1
    ensures Read(Text(buf)[..pos]).hi == Join(Read(Text(buf)[..pos0]).hi, WordValue(chunk))
  {
    hide Text; hide WordValue; hide Pow2; hide Read; hide Reading;
    ReadingIn(Text(buf), pos0, e, chunk, total0, total);
    CommaStep(Text(buf), pos0, e, chunk, total0, total);
  }

  lemma {:induction false} Nothing(t: seq<char>, mask: seq<Word>)
    ensures Value(mask, 0) == 0 && Reading(t, 0, 0, 0, 0, 0) && Read(t[..0]).hi == 0 && Held(0, 0, 0)
  {
    ZeroOne();
    assert Pow2(32) > 0;
    assert t[..0] == [];
  }
}
