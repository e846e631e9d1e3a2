/** CRC-32, most significant bit first, computed a byte at a time from a table
    that is built on first use. */
module Crc32 {

  const CRC32_POLY: bv32 := 0x04c1_1db7
  const ONES: bv32 := 0xffff_ffff

  // ----- Polynomials over GF(2), modulo x^32 + CRC32_POLY -----

  function Plus(a: bv32, b: bv32): bv32 { a ^ b }

  predicate Top(r: bv32) { r & 0x8000_0000 != 0 }

  function Shift(r: bv32): bv32 { r << 1 }

  /** Multiplication by x. */
  function TimesX(r: bv32): bv32 {
    if Top(r) then Plus(Shift(r), CRC32_POLY) else Shift(r)
  }

  /** Multiplication by x^n. */
  function TimesXn(r: bv32, n: nat): bv32
    decreases n
  {
    if n == 0 then r else TimesXn(TimesX(r), n - 1)
  }

  /** The constant polynomial b. */
  function One(b: bool): bv32 { if b then 1 else 0 }

  /** b times x^31. */
  function High(b: bool): bv32 { if b then 0x8000_0000 else 0 }

  /** Long division: the remainder of a polynomial given by its coefficients,
      highest first, after a prefix that left remainder r. */
  function Remainder(r: bv32, bits: seq<bool>): bv32
    decreases |bits|
  {
    if bits == [] then r else Remainder(Plus(TimesX(r), One(bits[0])), bits[1..])
  }

  function Zeros(n: nat): seq<bool> {
    seq(n, _ => false)
  }

  // ----- The shift register -----

  function FeedBit(r: bv32, b: bool): bv32 {
    TimesX(Plus(r, High(b)))
  }

  function Feed(r: bv32, bits: seq<bool>): bv32
    decreases |bits|
  {
    if bits == [] then r else Feed(FeedBit(r, bits[0]), bits[1..])
  }

  function Bits(b: bv8): (s: seq<bool>)
    ensures |s| == 8
  {
    [b & 0x80 != 0, b & 0x40 != 0, b & 0x20 != 0, b & 0x10 != 0,
     b & 0x08 != 0, b & 0x04 != 0, b & 0x02 != 0, b & 0x01 != 0]
  }

  function Message(buf: seq<bv8>): seq<bool> {
    if buf == [] then [] else Bits(buf[0]) + Message(buf[1..])
  }

  /** The checksum, bit by bit: all-ones preset, final complement. */
  function Checksum(buf: seq<bv8>): bv32 {
    Plus(ONES, Feed(ONES, Message(buf)))
  }

  // ----- Algebra -----

  lemma PlusCommutes(a: bv32, b: bv32)
    ensures Plus(a, b) == Plus(b, a)
  {
  }

  lemma PlusAssociates(a: bv32, b: bv32, c: bv32)
    ensures Plus(Plus(a, b), c) == Plus(a, Plus(b, c))
  {
  }

  lemma PlusZero(a: bv32)
    ensures Plus(a, 0) == a && Plus(0, a) == a && Plus(a, a) == 0
  {
  }

  lemma PlusCancels(a: bv32, b: bv32, c: bv32)
    requires Plus(a, b) == Plus(a, c)
    ensures b == c
  {
  }

  lemma TopOfSum(a: bv32, b: bv32)
    ensures Top(Plus(a, b)) == (Top(a) != Top(b))
  {
  }

  lemma ShiftOfSum(a: bv32, b: bv32)
    ensures Shift(Plus(a, b)) == Plus(Shift(a), Shift(b))
  {
  }

  lemma PlusThrough(u: bv32, v: bv32, p: bv32)
    ensures Plus(Plus(u, p), v) == Plus(Plus(u, v), p) == Plus(u, Plus(v, p))
    ensures Plus(Plus(u, p), Plus(v, p)) == Plus(u, v)
  {
  }

  lemma Linear(a: bv32, b: bv32)
    ensures TimesX(Plus(a, b)) == Plus(TimesX(a), TimesX(b))
  {
    hide Plus, Top, Shift;
    TopOfSum(a, b);
    ShiftOfSum(a, b);
    PlusThrough(Shift(a), Shift(b), CRC32_POLY);
  }

  lemma {:induction false} LinearN(a: bv32, b: bv32, n: nat)
    ensures TimesXn(Plus(a, b), n) == Plus(TimesXn(a, n), TimesXn(b, n))
    decreases n
  {
    hide TimesX, Plus;
    if n > 0 {
      Linear(a, b);
      LinearN(TimesX(a), TimesX(b), n - 1);
    }
  }

  predicate Odd(r: bv32) { r & 1 != 0 }

  function HalfEven(r: bv32): bv32 { r >> 1 }

  function HalfOdd(r: bv32): bv32 { ((r ^ 0x04c1_1db7) >> 1) | 0x8000_0000 }

  function DivideX(r: bv32): bv32 {
    if Odd(r) then HalfOdd(r) else HalfEven(r)
  }

  lemma LowBit(r: bv32)
    ensures !Odd(Shift(r)) && Odd(Plus(Shift(r), CRC32_POLY))
  {
  }

  lemma BackFromOdd(r: bv32)
    requires Top(r)
    ensures HalfOdd(Plus(Shift(r), CRC32_POLY)) == r
  {
  }

  lemma BackFromEven(r: bv32)
    requires !Top(r)
    ensures HalfEven(Shift(r)) == r
  {
  }

  /** Multiplication by x loses nothing, the generator having a constant term. */
  lemma Invertible(r: bv32)
    ensures DivideX(TimesX(r)) == r
  {
    hide Odd, HalfOdd, HalfEven, Shift, Plus, Top;
    LowBit(r);
    if Top(r) {
      BackFromOdd(r);
    } else {
      BackFromEven(r);
    }
  }

  lemma {:induction false} InjectiveN(a: bv32, b: bv32, n: nat)
    requires TimesXn(a, n) == TimesXn(b, n)
    ensures a == b
    decreases n
  {
    hide TimesX, DivideX;
    if n > 0 {
      InjectiveN(TimesX(a), TimesX(b), n - 1);
      Invertible(a);
      Invertible(b);
    }
  }

  lemma {:induction false} FeedAppend(r: bv32, a: seq<bool>, b: seq<bool>)
    ensures Feed(r, a + b) == Feed(Feed(r, a), b)
    decreases |a|
  {
    hide FeedBit;
    if a == [] {
      assert a + b == b;
    } else {
      assert (a + b)[1..] == a[1..] + b;
      FeedAppend(FeedBit(r, a[0]), a[1..], b);
    }
  }

  lemma {:induction false} RemainderAppend(r: bv32, a: seq<bool>, b: seq<bool>)
    ensures Remainder(r, a + b) == Remainder(Remainder(r, a), b)
    decreases |a|
  {
    hide TimesX, Plus, One;
    if a == [] {
      assert a + b == b;
    } else {
      assert (a + b)[1..] == a[1..] + b;
      RemainderAppend(Plus(TimesX(r), One(a[0])), a[1..], b);
    }
  }

  lemma {:induction false} RemainderZeros(r: bv32, n: nat)
    ensures Remainder(r, Zeros(n)) == TimesXn(r, n)
    decreases n
  {
    hide TimesX, Plus;
    if n > 0 {
      assert Zeros(n)[1..] == Zeros(n - 1);
      PlusZero(TimesX(r));
      RemainderZeros(TimesX(r), n - 1);
    }
  }

  lemma FeedBitSplits(r: bv32, s: bv32, b: bool)
    ensures FeedBit(Plus(r, s), b) == Plus(TimesX(r), FeedBit(s, b))
  {
    hide TimesX, Plus, High;
    PlusAssociates(r, s, High(b));
    Linear(r, Plus(s, High(b)));
  }

  /** The state after some bits is the preset carried along plus what the bits
      alone leave. */
  lemma {:induction false} FeedSplits(r: bv32, s: bv32, bits: seq<bool>)
    ensures Feed(Plus(r, s), bits) == Plus(TimesXn(r, |bits|), Feed(s, bits))
    decreases |bits|
  {
    hide TimesX, FeedBit, Plus;
    if bits != [] {
      FeedBitSplits(r, s, bits[0]);
      FeedSplits(TimesX(r), FeedBit(s, bits[0]), bits[1..]);
    }
  }

  lemma {:induction false} TimesXnAdd(r: bv32, m: nat, n: nat)
    ensures TimesXn(r, m + n) == TimesXn(TimesXn(r, m), n)
    decreases m
  {
    hide TimesX;
    if m > 0 {
      TimesXnAdd(TimesX(r), m - 1, n);
    }
  }

  // ----- The register divides -----

  lemma {:induction false} ZeroN(n: nat)
    ensures TimesXn(0, n) == 0
    decreases n
  {
    assert TimesX(0) == 0;
    hide TimesX;
    if n > 0 {
      ZeroN(n - 1);
    }
  }

  lemma Doubles1(r: bv32)
    requires r < 0x8000_0000
    ensures TimesX(r) == r << 1
  {
  }

  lemma Doubles2(r: bv32)
    requires r < 0x4000_0000
    ensures TimesXn(r, 2) == r << 2
  {
    hide TimesX;
    Doubles1(r);
    Doubles1(r << 1);
  }

  lemma Doubles4(r: bv32)
    requires r < 0x1000_0000
    ensures TimesXn(r, 4) == r << 4
  {
    hide TimesXn;
    Doubles2(r);
    Doubles2(r << 2);
    TimesXnAdd(r, 2, 2);
  }

  lemma Doubles8(r: bv32)
    requires r < 0x100_0000
    ensures TimesXn(r, 8) == r << 8
  {
    hide TimesXn;
    Doubles4(r);
    Doubles4(r << 4);
    TimesXnAdd(r, 4, 4);
  }

  lemma XTo31()
    ensures TimesXn(1, 31) == 0x8000_0000
  {
    hide TimesX;
    Doubles8(1);
    Doubles8(0x100);
    Doubles8(0x1_0000);
    Doubles4(0x100_0000);
    Doubles2(0x1000_0000);
    Doubles1(0x4000_0000);
    TimesXnAdd(0x1000_0000, 2, 1);
    TimesXnAdd(0x100_0000, 4, 3);
    TimesXnAdd(0x1_0000, 8, 7);
    TimesXnAdd(0x100, 8, 15);
    TimesXnAdd(1, 8, 23);
  }

  /** x^32 is the generator without its leading term: what a bit fed in at the
      top of the register leaves. */
  lemma XTo32(b: bool)
    ensures TimesXn(One(b), 32) == FeedBit(0, b)
  {
    PlusZero(High(b));
    if b {
      XTo31();
      TimesXnAdd(1, 31, 1);
    } else {
      ZeroN(32);
    }
  }

  lemma DivideOneMore(r: bv32, b: bool)
    ensures FeedBit(TimesXn(r, 32), b) == TimesXn(Plus(TimesX(r), One(b)), 32)
  {
    hide TimesX, FeedBit, Plus, One;
    var f := TimesXn(r, 32);
    LinearN(TimesX(r), One(b), 32);
    XTo32(b);
    TimesXnAdd(r, 1, 32);
    TimesXnAdd(r, 32, 1);
    assert TimesXn(TimesX(r), 32) == TimesX(f) by {
      assert TimesXn(r, 1) == TimesX(r) && TimesXn(f, 1) == TimesX(f);
    }
    FeedBitSplits(f, 0, b);
    PlusZero(f);
  }

  lemma {:induction false} FeedCarries(bits: seq<bool>)
    ensures Feed(0, bits) == TimesXn(Remainder(0, bits), 32)
    decreases |bits|
  {
    hide TimesX, FeedBit, Plus, One, TimesXn;
    if bits == [] {
      ZeroN(32);
    } else {
      var init, last := bits[..|bits| - 1], bits[|bits| - 1];
      assert bits == init + [last];
      FeedCarries(init);
      FeedAppend(0, init, [last]);
      FeedOne(Feed(0, init), last);
      RemainderAppend(0, init, [last]);
      RemainderOne(Remainder(0, init), last);
      DivideOneMore(Remainder(0, init), last);
    }
  }

  /** Feeding bits from zero is dividing the bits followed by 32 zeros. */
  lemma FeedIsRemainder(bits: seq<bool>)
    ensures Feed(0, bits) == Remainder(0, bits + Zeros(32))
  {
    hide TimesXn, Remainder, Feed;
    FeedCarries(bits);
    RemainderAppend(0, bits, Zeros(32));
    RemainderZeros(Remainder(0, bits), 32);
  }

  lemma FeedOne(r: bv32, b: bool)
    ensures Feed(r, [b]) == FeedBit(r, b)
  {
    hide FeedBit;
    assert [b][1..] == [];
  }

  lemma RemainderOne(r: bv32, b: bool)
    ensures Remainder(r, [b]) == Plus(TimesX(r), One(b))
  {
    hide Plus, TimesX, One;
    assert [b][1..] == [];
  }

  /** The checksum is the frame check sequence of IEEE 802.3 section 3.2.9: the
      complement of the remainder of x^n times all ones plus x^32 times the
      n-bit message. */
  lemma ChecksumDivides(buf: seq<bv8>)
    ensures var m := Message(buf);
            Checksum(buf) == Plus(ONES, Plus(TimesXn(ONES, |m|), Remainder(0, m + Zeros(32))))
  {
    hide Plus, Feed, TimesXn, Remainder;
    var m := Message(buf);
    PlusZero(ONES);
    FeedSplits(ONES, 0, m);
    FeedIsRemainder(m);
  }

  // ----- Bytes -----

  function Up24(r: bv32): bv32 { r << 24 }

  function AtTop(b: bv8): bv32 { Up24(b as bv32) }

  function Half(r: bv32): bv32 { r >> 1 }

  /** Feeding `bits` acts like adding c and then shifting |bits| times. */
  ghost predicate ActsLike(bits: seq<bool>, c: bv32) {
    forall r :: Feed(r, bits) == TimesXn(Plus(r, c), |bits|)
  }

  lemma DoubleHalf(c: bv32)
    requires !Odd(c)
    ensures TimesX(Half(c)) == c
  {
  }

  lemma ActsLikeNothing()
    ensures ActsLike([], 0)
  {
    forall r
      ensures Feed(r, []) == TimesXn(Plus(r, 0), 0)
    {
      PlusZero(r);
    }
  }

  lemma ActsLikeCons(b: bool, c: bv32, rest: seq<bool>)
    requires ActsLike(rest, c) && !Odd(c)
    ensures ActsLike([b] + rest, Plus(High(b), Half(c)))
  {
    hide TimesX, Plus, High, Half, Odd;
    DoubleHalf(c);
    assert ([b] + rest)[1..] == rest;
    forall r
      ensures Feed(r, [b] + rest) == TimesXn(Plus(r, Plus(High(b), Half(c))), |rest| + 1)
    {
      PlusAssociates(r, High(b), Half(c));
      Linear(Plus(r, High(b)), Half(c));
      assert Feed(r, [b] + rest) == Feed(FeedBit(r, b), rest);
    }
  }

  /** The last n bits of b at the top of the register. */
  function Tail(b: bv8, n: nat): bv32
    requires n <= 8
  {
    var w := b as bv32;
    if n == 0 then 0 else if n == 1 then w << 31 else if n == 2 then w << 30 else if n == 3 then w << 29
    else if n == 4 then w << 28 else if n == 5 then w << 27 else if n == 6 then w << 26
    else if n == 7 then w << 25 else w << 24
  }

  lemma TailGrows(b: bv8, n: nat)
    requires n < 8
    ensures !Odd(Tail(b, n)) && Tail(b, n + 1) == Plus(High(Bits(b)[7 - n]), Half(Tail(b, n)))
  {
    if n == 0 {
    } else if n == 1 {
    } else if n == 2 {
    } else if n == 3 {
    } else if n == 4 {
    } else if n == 5 {
    } else if n == 6 {
    } else {
    }
  }

  lemma {:induction false} ActsLikeTail(b: bv8, n: nat)
    requires n <= 8
    ensures ActsLike(Bits(b)[8 - n..], Tail(b, n))
    decreases n
  {
    hide ActsLike, Plus, High, Half, Odd, Tail, Bits;
    if n == 0 {
      assert Bits(b)[8..] == [] && Tail(b, 0) == 0 by { TailStart(b); }
      ActsLikeNothing();
    } else {
      ActsLikeTail(b, n - 1);
      TailGrows(b, n - 1);
      ActsLikeCons(Bits(b)[8 - n], Tail(b, n - 1), Bits(b)[9 - n..]);
      assert Bits(b)[8 - n..] == [Bits(b)[8 - n]] + Bits(b)[9 - n..];
    }
  }

  lemma TailStart(b: bv8)
    ensures Tail(b, 0) == 0 && Tail(b, 8) == AtTop(b)
  {
  }

  lemma ActsLikeUse(bits: seq<bool>, c: bv32, r: bv32)
    requires ActsLike(bits, c)
    ensures Feed(r, bits) == TimesXn(Plus(r, c), |bits|)
  {
  }

  lemma FeedByte(r: bv32, b: bv8)
    ensures Feed(r, Bits(b)) == TimesXn(Plus(r, AtTop(b)), 8)
  {
    hide Feed, TimesXn, Plus, AtTop, Bits, Tail;
    ActsLikeTail(b, 8);
    TailStart(b);
    assert Bits(b)[0..] == Bits(b);
    ActsLikeUse(Bits(b), AtTop(b), r);
  }

  // ----- A known checksum -----

  lemma FeedsAs(r: bv32, b: bv8, rest: seq<bv8>)
    ensures Feed(r, Message([b] + rest)) == Feed(TimesXn(Plus(r, AtTop(b)), 8), Message(rest))
  {
    assert ([b] + rest)[1..] == rest;
    hide Feed, TimesXn, Plus, AtTop, Bits;
    FeedAppend(r, Bits(b), Message(rest));
    FeedByte(r, b);
  }

  lemma FeedsThree(r: bv32, s: bv32, t: bv32, u: bv32, a: bv8, b: bv8, c: bv8, rest: seq<bv8>)
    requires TimesXn(Plus(r, AtTop(a)), 8) == s
    requires TimesXn(Plus(s, AtTop(b)), 8) == t
    requires TimesXn(Plus(t, AtTop(c)), 8) == u
    ensures Feed(r, Message([a, b, c] + rest)) == Feed(u, Message(rest))
  {
    hide Feed, TimesXn, Plus, AtTop, Message;
    assert [a, b, c] + rest == [a] + ([b] + ([c] + rest));
    FeedsAs(r, a, [b] + ([c] + rest));
    FeedsAs(s, b, [c] + rest);
    FeedsAs(t, c, rest);
  }

  lemma FirstDigits(rest: seq<bv8>)
    ensures Feed(0xffff_ffff, Message([0x31, 0x32, 0x33] + rest)) == Feed(0xd952_f164, Message(rest))
  {
    assert TimesXn(Plus(0xffff_ffff, AtTop(0x31)), 8) == 0x9efb_cf93;
    assert TimesXn(Plus(0x9efb_cf93, AtTop(0x32)), 8) == 0x3fec_5e6a;
    assert TimesXn(Plus(0x3fec_5e6a, AtTop(0x33)), 8) == 0xd952_f164;
    hide *;
    FeedsThree(0xffff_ffff, 0x9efb_cf93, 0x3fec_5e6a, 0xd952_f164, 0x31, 0x32, 0x33, rest);
  }

  lemma MiddleDigits(rest: seq<bv8>)
    ensures Feed(0xd952_f164, Message([0x34, 0x35, 0x36] + rest)) == Feed(0xd8f0_6c8f, Message(rest))
  {
    assert TimesXn(Plus(0xd952_f164, AtTop(0x34)), 8) == 0xa695_c4aa;
    assert TimesXn(Plus(0xa695_c4aa, AtTop(0x35)), 8) == 0xbd9a_b747;
    assert TimesXn(Plus(0xbd9a_b747, AtTop(0x36)), 8) == 0xd8f0_6c8f;
    hide *;
    FeedsThree(0xd952_f164, 0xa695_c4aa, 0xbd9a_b747, 0xd8f0_6c8f, 0x34, 0x35, 0x36, rest);
  }

  lemma LastDigits(rest: seq<bv8>)
    ensures Feed(0xd8f0_6c8f, Message([0x37, 0x38, 0x39] + rest)) == Feed(0x0376_e6e7, Message(rest))
  {
    assert TimesXn(Plus(0xd8f0_6c8f, AtTop(0x37)), 8) == 0x0d8a_14c4;
    assert TimesXn(Plus(0x0d8a_14c4, AtTop(0x38)), 8) == 0x49e3_c2fb;
    assert TimesXn(Plus(0x49e3_c2fb, AtTop(0x39)), 8) == 0x0376_e6e7;
    hide *;
    FeedsThree(0xd8f0_6c8f, 0x0d8a_14c4, 0x49e3_c2fb, 0x0376_e6e7, 0x37, 0x38, 0x39, rest);
  }

  lemma {:induction false} DigitsJoined()
    ensures Checksum([0x31, 0x32, 0x33] + ([0x34, 0x35, 0x36] + ([0x37, 0x38, 0x39] + []))) == 0xfc89_1918
  {
    assert Plus(ONES, 0x0376_e6e7) == 0xfc89_1918;
    hide Feed, Message, Plus;
    FirstDigits([0x34, 0x35, 0x36] + ([0x37, 0x38, 0x39] + []));
    MiddleDigits([0x37, 0x38, 0x39] + []);
    LastDigits([]);
    NoMessage(0x0376_e6e7);
  }

  /** The check value by which this CRC is known: that of the ASCII digits 1 to 9. */
  lemma {:induction false} CheckValue()
    ensures Checksum([0x31, 0x32, 0x33, 0x34, 0x35, 0x36, 0x37, 0x38, 0x39]) == 0xfc89_1918
  {
    DigitsJoined();
    hide *;
    var all: seq<bv8> := [0x31, 0x32, 0x33, 0x34, 0x35, 0x36, 0x37, 0x38, 0x39];
    assert all == [0x31, 0x32, 0x33] + ([0x34, 0x35, 0x36] + ([0x37, 0x38, 0x39] + []));
  }

  lemma NoMessage(r: bv32)
    ensures Feed(r, Message([])) == r
  {
  }

  // ----- The table -----

  function TopByte(crc: bv32): bv32 { crc >> 24 }

  function Low(crc: bv32): bv32 { crc & 0xff_ffff }

  /** What the table holds at index i. */
  function Entry(i: bv32): bv32 {
    TimesXn(Up24(i), 8)
  }

  /** Where the register and the next byte look up the table. */
  function Index(crc: bv32, b: bv8): bv32 { (crc >> 24) ^ (b as bv32) }

  function Mix(crc: bv32, entry: bv32): bv32 { (crc << 8) ^ entry }

  lemma IndexInRange(crc: bv32, b: bv8)
    ensures Index(crc, b) < 0x100
  {
  }

  lemma IndexIsSum(crc: bv32, b: bv8)
    ensures Index(crc, b) == Plus(TopByte(crc), b as bv32)
  {
  }

  lemma MixIsSum(crc: bv32, entry: bv32)
    ensures Mix(crc, entry) == Plus(crc << 8, entry)
  {
  }

  lemma Up24OfSum(u: bv32, v: bv32)
    ensures Up24(Plus(u, v)) == Plus(Up24(u), Up24(v))
  {
  }

  lemma HighAndLow(crc: bv32)
    ensures Plus(Up24(TopByte(crc)), Low(crc)) == crc
  {
  }

  lemma LowPart(crc: bv32)
    ensures Low(crc) < 0x100_0000
    ensures Low(crc) << 8 == crc << 8
  {
  }

  lemma SplitRegister(crc: bv32, w: bv32)
    ensures Plus(crc, Up24(w)) == Plus(Up24(Plus(TopByte(crc), w)), Low(crc))
  {
    hide Plus, Up24, TopByte, Low;
    var top, low := Up24(TopByte(crc)), Low(crc);
    Up24OfSum(TopByte(crc), w);
    HighAndLow(crc);
    PlusAssociates(top, low, Up24(w));
    PlusCommutes(low, Up24(w));
    PlusAssociates(top, Up24(w), low);
  }

  /** One table look-up does the work of eight bit steps. */
  lemma TableStep(crc: bv32, b: bv8)
    ensures Feed(crc, Bits(b)) == Mix(crc, Entry(Index(crc, b)))
  {
    hide Feed, TimesXn, Bits, Plus, Up24, TopByte, Low, Index, Mix;
    var i, low := Index(crc, b), Low(crc);
    IndexIsSum(crc, b);
    SplitRegister(crc, b as bv32);
    FeedByte(crc, b);
    LinearN(Up24(i), low, 8);
    LowPart(crc);
    Doubles8(low);
    MixIsSum(crc, Entry(i));
    PlusCommutes(Entry(i), crc << 8);
  }

  // ----- Burst errors -----

  function Up16(b: bv8): bv32 { (b as bv32) << 16 }

  function Up8(b: bv8): bv32 { (b as bv32) << 8 }

  function Up0(b: bv8): bv32 { b as bv32 }

  function Word(u: seq<bv8>): bv32
    requires |u| == 4
  {
    Plus(Plus(Plus(AtTop(u[0]), Up16(u[1])), Up8(u[2])), Up0(u[3]))
  }

  lemma WordBytes(u: seq<bv8>)
    requires |u| == 4
    ensures Word(u) >> 24 == Up0(u[0])
    ensures (Word(u) >> 16) & 0xff == Up0(u[1])
    ensures (Word(u) >> 8) & 0xff == Up0(u[2])
    ensures Word(u) & 0xff == Up0(u[3])
  {
  }

  lemma SameByte(a: bv8, b: bv8)
    requires Up0(a) == Up0(b)
    ensures a == b
  {
  }

  lemma WordInjective(u: seq<bv8>, v: seq<bv8>)
    requires |u| == |v| == 4 && Word(u) == Word(v)
    ensures u == v
  {
    hide Word, Up0;
    WordBytes(u);
    WordBytes(v);
    SameByte(u[0], v[0]);
    SameByte(u[1], v[1]);
    SameByte(u[2], v[2]);
    SameByte(u[3], v[3]);
  }

  lemma SmallWords(b: bv8)
    ensures Up16(b) < 0x100_0000 && Up8(b) < 0x100_0000 && Up0(b) < 0x100_0000
    ensures Up16(b) << 8 == AtTop(b) && Up8(b) << 8 == Up16(b) && Up0(b) << 8 == Up8(b)
  {
  }

  lemma Climb(b: bv8)
    ensures TimesXn(Up16(b), 8) == AtTop(b)
    ensures TimesXn(Up8(b), 16) == AtTop(b)
    ensures TimesXn(Up0(b), 24) == AtTop(b)
  {
    hide TimesXn, Up16, Up8, Up0, AtTop;
    SmallWords(b);
    Doubles8(Up16(b));
    Doubles8(Up8(b));
    Doubles8(Up0(b));
    TimesXnAdd(Up8(b), 8, 8);
    TimesXnAdd(Up0(b), 8, 16);
  }

  lemma FeedByteAt(x: bv32, n: nat, c: bv32, b: bv8)
    requires TimesXn(c, n) == AtTop(b)
    ensures Feed(TimesXn(x, n), Bits(b)) == TimesXn(Plus(x, c), n + 8)
  {
    hide Feed, TimesXn, Plus, AtTop, Bits;
    FeedByte(TimesXn(x, n), b);
    LinearN(x, c, n);
    TimesXnAdd(Plus(x, c), n, 8);
  }

  /** Four bytes act on the register as one word. */
  lemma FeedWord(u: seq<bv8>)
    requires |u| == 4
    ensures Feed(0, Message(u)) == TimesXn(Word(u), 32)
  {
    hide Feed, TimesXn, Plus, AtTop, Up16, Up8, Up0, Bits;
    var a := AtTop(u[0]);
    var b := Plus(a, Up16(u[1]));
    var c := Plus(b, Up8(u[2]));
    FeedByte(0, u[0]);
    PlusZero(a);
    Climb(u[1]);
    Climb(u[2]);
    Climb(u[3]);
    FeedByteAt(a, 8, Up16(u[1]), u[1]);
    FeedByteAt(b, 16, Up8(u[2]), u[2]);
    FeedByteAt(c, 24, Up0(u[3]), u[3]);
    FeedBytes(0, u, 0);
    FeedBytes(Feed(0, Bits(u[0])), u, 1);
    FeedBytes(TimesXn(b, 16), u, 2);
    FeedBytes(TimesXn(c, 24), u, 3);
    FeedNone(TimesXn(Word(u), 32), u);
    assert u[0..] == u;
  }

  lemma FeedNone(r: bv32, u: seq<bv8>)
    ensures Feed(r, Message(u[|u|..])) == r
  {
  }

  lemma FeedBytes(crc: bv32, buf: seq<bv8>, p: nat)
    requires p < |buf|
    ensures Feed(crc, Message(buf[p..])) == Feed(Feed(crc, Bits(buf[p])), Message(buf[p + 1..]))
  {
    hide Feed, Bits;
    assert buf[p..][0] == buf[p] && buf[p..][1..] == buf[p + 1..];
    FeedAppend(crc, Bits(buf[p]), Message(buf[p + 1..]));
  }

  lemma {:induction false} MessageAppend(a: seq<bv8>, b: seq<bv8>)
    ensures Message(a + b) == Message(a) + Message(b)
    decreases |a|
  {
    hide Bits;
    if a == [] {
      assert a + b == b;
    } else {
      assert (a + b)[1..] == a[1..] + b;
      MessageAppend(a[1..], b);
    }
  }

  lemma {:induction false} MessageLength(a: seq<bv8>)
    ensures |Message(a)| == 8 * |a|
    decreases |a|
  {
    if a != [] {
      MessageLength(a[1..]);
    }
  }

  /** Equal-length inputs keep different registers different. */
  lemma FeedKeepsApart(r: bv32, s: bv32, bits: seq<bool>)
    requires Feed(r, bits) == Feed(s, bits)
    ensures r == s
  {
    hide Feed, TimesXn, Plus;
    PlusZero(r);
    PlusZero(s);
    FeedSplits(r, 0, bits);
    FeedSplits(s, 0, bits);
    PlusCommutes(TimesXn(r, |bits|), Feed(0, bits));
    PlusCommutes(TimesXn(s, |bits|), Feed(0, bits));
    PlusCancels(Feed(0, bits), TimesXn(r, |bits|), TimesXn(s, |bits|));
    InjectiveN(r, s, |bits|);
  }

  lemma FourBytesApart(r: bv32, u: seq<bv8>, v: seq<bv8>)
    requires |u| == |v| == 4 && Feed(r, Message(u)) == Feed(r, Message(v))
    ensures u == v
  {
    hide Feed, TimesXn, Plus, Word, Message;
    PlusZero(r);
    MessageLength(u);
    MessageLength(v);
    FeedSplits(r, 0, Message(u));
    FeedSplits(r, 0, Message(v));
    PlusCancels(TimesXn(r, 32), Feed(0, Message(u)), Feed(0, Message(v)));
    FeedWord(u);
    FeedWord(v);
    InjectiveN(Word(u), Word(v), 32);
    WordInjective(u, v);
  }

  lemma WindowApart(r: bv32, u: seq<bv8>, v: seq<bv8>)
    requires |u| == |v| <= 4 && Feed(r, Message(u)) == Feed(r, Message(v))
    ensures u == v
  {
    hide Feed, Message;
    var pad := seq(4 - |u|, _ => 0 as bv8);
    MessageAppend(u, pad);
    MessageAppend(v, pad);
    FeedAppend(r, Message(u), Message(pad));
    FeedAppend(r, Message(v), Message(pad));
    FourBytesApart(r, u + pad, v + pad);
    assert u == (u + pad)[..|u|] && v == (v + pad)[..|u|];
  }

  /** Every error confined to four consecutive bytes is detected. */
  lemma BurstDetected(before: seq<bv8>, u: seq<bv8>, v: seq<bv8>, after: seq<bv8>)
    requires |u| == |v| <= 4 && u != v
    ensures Checksum(before + u + after) != Checksum(before + v + after)
  {
    hide Feed, Message, Plus;
    var r := Feed(ONES, Message(before));
    FeedThree(before, u, after);
    FeedThree(before, v, after);
    if Checksum(before + u + after) == Checksum(before + v + after) {
      PlusCancels(ONES, Feed(ONES, Message(before + u + after)), Feed(ONES, Message(before + v + after)));
      FeedKeepsApart(Feed(r, Message(u)), Feed(r, Message(v)), Message(after));
      WindowApart(r, u, v);
    }
  }

  lemma FeedThree(a: seq<bv8>, b: seq<bv8>, c: seq<bv8>)
    ensures Feed(ONES, Message(a + b + c)) == Feed(Feed(Feed(ONES, Message(a)), Message(b)), Message(c))
  {
    hide Feed, Message;
    MessageAppend(a + b, c);
    MessageAppend(a, b);
    FeedAppend(ONES, Message(a) + Message(b), Message(c));
    FeedAppend(ONES, Message(a), Message(b));
  }

  lemma GeneratorWord()
    ensures Word([0x04, 0xc1, 0x1d, 0xb7]) == CRC32_POLY && Word([0, 0, 0, 0]) == 0
    ensures AtTop(0x01) == 0x100_0000 && AtTop(0x00) == 0 && FeedBit(0, true) == CRC32_POLY && One(true) == 1
  {
  }

  /** The generator itself, five bytes long, fed to an empty register. */
  lemma GeneratorVanishes()
    ensures Feed(0, Bits(0x01) + Message([0x04, 0xc1, 0x1d, 0xb7])) == 0
    ensures Feed(0, Bits(0x00) + Message([0, 0, 0, 0])) == 0
  {
    hide Feed, Message, TimesXn, Plus, Word, AtTop, Bits, FeedBit, One;
    var g: seq<bv8>, z: seq<bv8> := [0x04, 0xc1, 0x1d, 0xb7], [0, 0, 0, 0];
    GeneratorWord();
    FeedByte(0, 0x01);
    FeedByte(0, 0x00);
    PlusZero(0x100_0000);
    PlusZero(0);
    XTo24();
    TimesXnAdd(1, 24, 8);
    XTo32(true);
    ZeroN(8);
    ZeroN(32);
    FeedAppend(0, Bits(0x01), Message(g));
    FeedAppend(0, Bits(0x00), Message(z));
    PlusZero(CRC32_POLY);
    MessageLength(g);
    FeedSplits(CRC32_POLY, 0, Message(g));
    FeedWord(g);
    FeedWord(z);
    PlusZero(TimesXn(CRC32_POLY, 32));
  }

  lemma XTo24()
    ensures TimesXn(1, 24) == 0x100_0000
  {
    hide TimesXn;
    Doubles8(1);
    Doubles8(0x100);
    Doubles8(0x1_0000);
    TimesXnAdd(1, 8, 16);
    TimesXnAdd(0x100, 8, 8);
  }

  /** Five bytes are too many: adding the generator to a message goes unnoticed. */
  lemma FiveByteBurstCanHide(before: seq<bv8>, after: seq<bv8>)
    ensures Checksum(before + [0, 0, 0, 0, 0] + after) == Checksum(before + [0x01, 0x04, 0xc1, 0x1d, 0xb7] + after)
  {
    var u: seq<bv8>, v: seq<bv8> := [0, 0, 0, 0, 0], [0x01, 0x04, 0xc1, 0x1d, 0xb7];
    assert u[1..] == [0, 0, 0, 0] && v[1..] == [0x04, 0xc1, 0x1d, 0xb7];
    assert Message(u) == Bits(u[0]) + Message(u[1..]) && Message(v) == Bits(v[0]) + Message(v[1..]);
    hide Feed, Message, Plus, Bits, TimesXn;
    var r := Feed(ONES, Message(before));
    GeneratorVanishes();
    PlusZero(r);
    MessageLength(u);
    MessageLength(v);
    FeedSplits(r, 0, Message(u));
    FeedSplits(r, 0, Message(v));
    FeedThree(before, u, after);
    FeedThree(before, v, after);
  }

  ghost predicate Detects(before: seq<bv8>, u: seq<bv8>, v: seq<bv8>, after: seq<bv8>) {
    u != v ==> Checksum(before + u + after) != Checksum(before + v + after)
  }

  /** Exactly windows of at most four bytes are safe, wherever they stand. */
  lemma {:induction false} WindowSafeIff(w: nat)
    ensures (forall before, u, v, after :: |u| == |v| == w ==> Detects(before, u, v, after)) <==> w <= 4
  {
    hide Checksum;
    if w <= 4 {
      forall before, u, v, after | |u| == |v| == w
        ensures Detects(before, u, v, after)
      {
        if u != v {
          BurstDetected(before, u, v, after);
        }
      }
    } else {
      var rest := seq(w - 5, _ => 0 as bv8);
      var u, v := [0, 0, 0, 0, 0] + rest, [0x01, 0x04, 0xc1, 0x1d, 0xb7] + rest;
      FiveByteBurstCanHide([], rest);
      assert [] + u + [] == [] + [0, 0, 0, 0, 0] + rest && [] + v + [] == [] + [0x01, 0x04, 0xc1, 0x1d, 0xb7] + rest;
      assert u[0] != v[0];
      assert !Detects([], u, v, []);
    }
  }

  // ----- Any two buffers -----

  /** Where two bit strings differ: the difference of the polynomials. */
  function Difference(x: seq<bool>, y: seq<bool>): seq<bool>
    requires |x| == |y|
  {
    seq(|x|, i requires 0 <= i < |x| => x[i] != y[i])
  }

  lemma FeedBitSum(r: bv32, s: bv32, x: bool, y: bool)
    ensures FeedBit(Plus(r, s), x != y) == Plus(FeedBit(r, x), FeedBit(s, y))
  {
    HighSum(x, y);
    hide TimesX, Plus, High;
    var u, v := High(x), High(y);
    Regroup(r, s, u, v);
    Linear(Plus(r, u), Plus(s, v));
  }

  lemma HighSum(x: bool, y: bool)
    ensures High(x != y) == Plus(High(x), High(y))
  {
  }

  lemma Regroup(r: bv32, s: bv32, u: bv32, v: bv32)
    ensures Plus(Plus(r, s), Plus(u, v)) == Plus(Plus(r, u), Plus(s, v))
  {
    hide Plus;
    PlusAssociates(r, s, Plus(u, v));
    PlusAssociates(s, u, v);
    PlusCommutes(s, u);
    PlusAssociates(u, s, v);
    PlusAssociates(r, u, Plus(s, v));
  }

  lemma {:induction false} FeedSum(r: bv32, s: bv32, x: seq<bool>, y: seq<bool>)
    requires |x| == |y|
    ensures Feed(Plus(r, s), Difference(x, y)) == Plus(Feed(r, x), Feed(s, y))
    decreases |x|
  {
    hide FeedBit, Plus;
    if x != [] {
      FeedBitSum(r, s, x[0], y[0]);
      assert Difference(x, y)[1..] == Difference(x[1..], y[1..]);
      FeedSum(FeedBit(r, x[0]), FeedBit(s, y[0]), x[1..], y[1..]);
    }
  }

  lemma PlusSame(a: bv32, b: bv32)
    ensures Plus(a, b) == 0 <==> a == b
  {
    hide Plus;
    PlusZero(a);
    if Plus(a, b) == 0 {
      PlusCancels(a, a, b);
    }
  }

  /** Two buffers of one length share a checksum exactly when the generator divides
      their difference. */
  lemma {:induction false} SameChecksumIff(a: seq<bv8>, b: seq<bv8>)
    requires |a| == |b|
    ensures |Message(a)| == |Message(b)|
    ensures Checksum(a) == Checksum(b) <==> Remainder(0, Difference(Message(a), Message(b))) == 0
  {
    MessageLength(a);
    MessageLength(b);
    hide Feed, Plus, Message, TimesXn, Remainder, Difference;
    var x, y := Message(a), Message(b);
    var d := Remainder(0, Difference(x, y));
    PlusSame(ONES, ONES);
    PlusSame(Feed(ONES, x), Feed(ONES, y));
    FeedSum(ONES, ONES, x, y);
    FeedCarries(Difference(x, y));
    ZeroN(32);
    if TimesXn(d, 32) == 0 {
      InjectiveN(d, 0, 32);
    }
    if Checksum(a) == Checksum(b) {
      PlusCancels(ONES, Feed(ONES, x), Feed(ONES, y));
    }
  }

  // ----- The program -----

  class CrcTable {
    const crc32_table: array<bv32>

    /** The table is all zeros until it is built. */
    ghost predicate Valid()
      reads crc32_table
    {
      crc32_table.Length == 256 &&
      ((forall i :: 0 <= i < 256 ==> crc32_table[i] == 0) || Built())
    }

    ghost predicate Built()
      requires crc32_table.Length == 256
      reads crc32_table
    {
      forall i :: 0 <= i < 256 ==> crc32_table[i] == Entry(i as bv32)
    }

    constructor ()
      ensures Valid() && fresh(crc32_table)
    {
      crc32_table := new bv32[256](_ => 0);
    }

    method InitCrc32()
      requires crc32_table.Length == 256
      modifies crc32_table
      ensures Built()
    {
      hide Entry;
      var i := 0;
      while i < 256
        invariant 0 <= i <= 256
        invariant forall k :: 0 <= k < i ==> crc32_table[k] == Entry(k as bv32)
      {
        var c := BuildEntry(i as bv32);
        crc32_table[i] := c;
        i := i + 1;
      }
    }

    static method BuildEntry(i: bv32) returns (c: bv32)
      ensures c == Entry(i)
    {
      hide TimesX;
      c := i << 24;
      var j := 8;
      while j > 0
        invariant 0 <= j <= 8
        invariant TimesXn(c, j) == Entry(i)
      {
        SourceStep(c);
        c := if c & 0x8000_0000 != 0 then (c << 1) ^ CRC32_POLY else c << 1;
        j := j - 1;
      }
    }

    /** The checksum of `buf`, whether or not the table was built before. */
    method Crc32(buf: seq<bv8>) returns (r: bv32)
      requires Valid()
      modifies crc32_table
      ensures Built()
      ensures r == Checksum(buf)
    {
      hide Entry, Bits, Plus, Feed, Message;
      EntryOneNonzero();
      if crc32_table[1] == 0 {
        InitCrc32();
      }
      var crc := Run(buf);
      Complement(crc);
      r := !crc;
    }

    /** The loop of crc32. */
    method Run(buf: seq<bv8>) returns (crc: bv32)
      requires crc32_table.Length == 256 && Built()
      ensures crc == Feed(ONES, Message(buf))
    {
      hide Entry, Bits;
      crc := 0xffff_ffff;
      var p := 0;
      while p < |buf|
        invariant 0 <= p <= |buf|
        invariant Feed(crc, Message(buf[p..])) == Feed(ONES, Message(buf))
      {
        FeedBytes(crc, buf, p);
        crc := Update(crc, buf[p]);
        p := p + 1;
      }
    }

    method Update(crc: bv32, b: bv8) returns (r: bv32)
      requires crc32_table.Length == 256 && Built()
      ensures r == Feed(crc, Bits(b))
    {
      hide Feed, Entry, Bits, Index, Mix;
      TableStep(crc, b);
      IndexInRange(crc, b);
      var e := Lookup(Index(crc, b));
      r := Mix(crc, e);
    }

    method Lookup(k: bv32) returns (e: bv32)
      requires crc32_table.Length == 256 && Built() && k < 0x100
      ensures e == Entry(k)
    {
      hide Entry;
      IndexRoundTrip(k);
      e := crc32_table[k as int];
    }
  }

  lemma Complement(r: bv32)
    ensures !r == Plus(ONES, r)
  {
  }

  lemma IndexRoundTrip(k: bv32)
    requires k < 0x100
    ensures 0 <= k as int < 256 && (k as int) as bv32 == k
  {
  }

  lemma SourceStep(c: bv32)
    ensures TimesX(c) == if c & 0x8000_0000 != 0 then (c << 1) ^ CRC32_POLY else c << 1
  {
  }

  lemma EntryOneNonzero()
    ensures Entry(1) != 0
  {
    ZeroN(8);
    if Entry(1) == 0 {
      InjectiveN(Up24(1), 0, 8);
    }
  }
}
