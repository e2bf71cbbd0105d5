/** The lossless text form of a PID: a kind letter, a hyphen and base32 of either three varints or a 32-byte
    hash, with the varint and base32 loops proved to keep step with one another, bit for bit
    (crates/borg-core/src/pid.rs, `Display` and `FromStr` for `Pid`). */
module PidText {
  import opened Core

  const HASH_LEN: nat := 32
  const MAX_ALLOCATED: nat := 25
  const U64_LIMIT: nat := 0x1_0000_0000_0000_0000
  const U32_LIMIT: nat := 0x1_0000_0000

  type Bytes = seq<Byte>

  // Whichever flavour, as the program can build it.
  predicate WellFormed(p: Pid) {
    p.Content? ==> |p.hash| == HASH_LEN
  }

  // --- Varints ---

  function Varint(value: nat): Bytes {
    if value < 128 then [value] else [128 + value % 128] + Varint(value / 128)
  }

  function Pow128(n: nat): (r: nat)
    ensures r > 0
  {
    if n == 0 then 1 else 128 * Pow128(n - 1)
  }

  lemma {:induction false} VarintLength(value: nat, n: nat)
    requires n > 0 && value < Pow128(n)
    ensures 1 <= |Varint(value)| <= n
  {
    if value >= 128 {
      assert n > 1 by {
        assert Pow128(1) == 128 * Pow128(0);
      }
      assert value < 128 * Pow128(n - 1);
      VarintLength(value / 128, n - 1);
    }
  }

  // At most ten bytes for a u64 and five for a u32.
  lemma VarintWidths(value: nat)
    ensures value < U64_LIMIT ==> 1 <= |Varint(value)| <= 10
    ensures value < U32_LIMIT ==> 1 <= |Varint(value)| <= 5
  {
    assert Pow128(5) == 0x8_0000_0000 by {
      assert Pow128(2) == 0x4000;
      assert Pow128(4) == 128 * 128 * Pow128(2);
    }
    assert Pow128(10) == 128 * 128 * 128 * 128 * 128 * Pow128(5) by {
      assert Pow128(7) == 128 * 128 * Pow128(5);
      assert Pow128(9) == 128 * 128 * Pow128(7);
    }
    if value < U64_LIMIT {
      VarintLength(value, 10);
    }
    if value < U32_LIMIT {
      VarintLength(value, 5);
    }
  }

  // Reads one varint. A group that does not fit in 64 bits, or whose bits would be lost, is refused.
  function TakeFrom(bytes: Bytes, group: nat, value: nat): Option<(nat, Bytes)> {
    if bytes == [] then None
    else
      var part := bytes[0] as int % 128;
      if 7 * group >= 64 || part * Pow128(group) >= U64_LIMIT then None
      else
        var value' := value + part * Pow128(group);
        if bytes[0] < 128 then Some((value', bytes[1..])) else TakeFrom(bytes[1..], group + 1, value')
  }

  lemma {:induction false} Pow128Fits(n: nat)
    requires Pow128(n) < U64_LIMIT
    ensures n <= 9
  {
    if n >= 10 {
      assert Pow128(10) >= U64_LIMIT by {
        assert Pow128(2) == 0x4000;
        assert Pow128(4) == 128 * 128 * Pow128(2);
        assert Pow128(6) == 128 * 128 * Pow128(4);
        assert Pow128(8) == 128 * 128 * Pow128(6);
        assert Pow128(10) == 128 * 128 * Pow128(8);
      }
      Pow128Grows(10, n);
    }
  }

  lemma {:induction false} Pow128Grows(m: nat, n: nat)
    requires m <= n
    ensures Pow128(m) <= Pow128(n)
  {
    if m < n {
      Pow128Grows(m, n - 1);
    }
  }

  lemma Regroup(u: nat, p: nat)
    ensures u * p == (u % 128) * p + (u / 128) * (128 * p)
  {
    assert u == u % 128 + (u / 128) * 128;
    Distribute(u % 128, (u / 128) * 128, p);
    assert (u / 128) * 128 * p == (u / 128) * (128 * p);
  }

  lemma Distribute(a: nat, b: nat, p: nat)
    ensures (a + b) * p == a * p + b * p
  {
  }

  lemma AtLeast(u: nat, p: nat)
    requires u > 0
    ensures u * p >= p
  {
    Distribute(u - 1, 1, p);
  }

  // What was put is what is taken, with whatever follows left over.
  lemma {:induction false} VarintTaken(u: nat, rest: Bytes, group: nat, value: nat)
    requires value + u * Pow128(group) < U64_LIMIT && (group > 0 ==> u > 0)
    ensures TakeFrom(Varint(u) + rest, group, value) == Some((value + u * Pow128(group), rest))
    decreases u
  {
    hide Pow128, TakeFrom;
    GroupFits(u, group, value);
    if u < 128 {
      TakeOne(u, rest, group, value);
    } else {
      var byte: Byte := 128 + u % 128;
      assert byte as int % 128 == u % 128;
      assert Varint(u) + rest == [byte] + (Varint(u / 128) + rest);
      TakeOne(byte, Varint(u / 128) + rest, group, value);
      VarintTaken(u / 128, rest, group + 1, value + (u % 128) * Pow128(group));
    }
  }

  // The next seven bits, and what stays above them.
  lemma GroupFits(u: nat, group: nat, value: nat)
    requires value + u * Pow128(group) < U64_LIMIT && (group > 0 ==> u > 0)
    ensures group <= 9 && (u % 128) * Pow128(group) < U64_LIMIT
    ensures value + (u % 128) * Pow128(group) + (u / 128) * Pow128(group + 1) == value + u * Pow128(group)
    ensures u < 128 ==> (u % 128) * Pow128(group) == u * Pow128(group)
  {
    hide Pow128;
    NextPower(group);
    var p := Pow128(group);
    Regroup(u, p);
    NotNegative(u / 128, 128 * p);
    if u > 0 {
      AtLeast(u, p);
      Pow128Fits(group);
    }
  }

  lemma NextPower(group: nat)
    ensures Pow128(group + 1) == 128 * Pow128(group)
  {
  }

  lemma NotNegative(a: nat, b: nat)
    ensures a * b >= 0
  {
  }

  lemma TakeOne(byte: Byte, rest: Bytes, group: nat, value: nat)
    requires group <= 9 && (byte as int % 128) * Pow128(group) < U64_LIMIT
    ensures var value' := value + (byte as int % 128) * Pow128(group);
            TakeFrom([byte] + rest, group, value) == if byte < 128 then Some((value', rest)) else TakeFrom(rest, group + 1, value')
  {
    hide Pow128;
    assert ([byte] + rest)[1..] == rest;
  }

  // Seven bits a byte, low first, a top bit on all but the last.
  method PutVarint(value0: u64, out: array<Byte>, at0: nat) returns (at: nat)
    requires at0 + |Varint(value0)| <= out.Length
    modifies out
    ensures at == at0 + |Varint(value0)|
    ensures out[..at] == old(out[..at0]) + Varint(value0)
    ensures out[at..] == old(out[at..])
  {
    at := at0;
    var value: nat := value0;
    while value >= 128
      invariant at0 <= at && at + |Varint(value)| == at0 + |Varint(value0)|
      invariant out[..at] + Varint(value) == old(out[..at0]) + Varint(value0)
      invariant forall k :: at <= k < out.Length ==> out[k] == old(out[k])
      decreases value
    {
      ghost var before := out[..at];
      var byte: Byte := 128 + value % 128;
      assert before + Varint(value) == (before + [byte]) + Varint(value / 128);
      out[at] := byte;
      at := at + 1;
      assert out[..at] == before + [byte];
      value := value / 128;
    }
    ghost var before := out[..at];
    assert Varint(value) == [value];
    out[at] := value;
    at := at + 1;
    assert out[..at] == before + [value];
  }

  method TakeVarint(bytes0: Bytes) returns (r: Option<(nat, Bytes)>)
    ensures r == TakeFrom(bytes0, 0, 0)
  {
    var bytes, value: nat, group: nat := bytes0, 0, 0;
    while bytes != []
      invariant TakeFrom(bytes, group, value) == TakeFrom(bytes0, 0, 0)
      decreases |bytes|
    {
      var byte := bytes[0];
      var part := byte as int % 128;
      // Past the top, or bits lost off it: not a value, rather than some other plausible one.
      if 7 * group >= 64 || part * Pow128(group) >= U64_LIMIT {
        return None;
      }
      value := value + part * Pow128(group);
      bytes := bytes[1..];
      if byte < 128 {
        return Some((value, bytes));
      }
      group := group + 1;
    }
    r := None;
  }

  // --- Base32 ---

  type Five = x: int | 0 <= x < 32

  function Pow2(n: nat): (r: nat)
    ensures r > 0
  {
    if n == 0 then 1 else 2 * Pow2(n - 1)
  }

  lemma Powers()
    ensures Pow2(0) == 1 && Pow2(1) == 2 && Pow2(2) == 4 && Pow2(3) == 8 && Pow2(4) == 16 && Pow2(5) == 32
    ensures Pow2(6) == 64 && Pow2(7) == 128 && Pow2(8) == 256
  {
    assert Pow2(3) == 2 * Pow2(2);
    assert Pow2(6) == 2 * Pow2(5);
  }

  // The encoder between bytes: digits out, a 32-bit accumulator, and how many of its low bits are pending.
  datatype Enc = Enc(digits: seq<Five>, acc: nat, bits: nat)

  function DigitOf(acc: nat, bits: nat): Five {
    acc / Pow2(bits) % 32
  }

  function Push(acc: nat, byte: Byte): nat {
    (acc * 256 + byte) % U32_LIMIT
  }

  // Every whole digit the pending bits hold.
  function Drain(e: Enc): Enc
    decreases e.bits
  {
    if e.bits < 5 then e else Drain(Enc(e.digits + [DigitOf(e.acc, e.bits - 5)], e.acc, e.bits - 5))
  }

  function EncodeFrom(bytes: Bytes): Enc {
    if bytes == [] then Enc([], 0, 0)
    else
      var e := EncodeFrom(bytes[..|bytes| - 1]);
      Drain(Enc(e.digits, Push(e.acc, bytes[|bytes| - 1]), e.bits + 8))
  }

  // Whatever the last byte left over, zero-padded to one final digit.
  function Finished(e: Enc): seq<Five> {
    if e.bits == 0 || e.bits > 4 then e.digits else e.digits + [e.acc * Pow2(5 - e.bits) % 32]
  }

  function Encoded(bytes: Bytes): seq<Five> {
    Finished(EncodeFrom(bytes))
  }

  datatype Dec = Dec(out: Bytes, acc: nat, bits: nat)

  function Feed(d: Dec, digit: Five): Dec {
    var acc := (d.acc * 32 + digit) % U32_LIMIT;
    if d.bits + 5 >= 8 then Dec(d.out + [acc / Pow2(d.bits + 5 - 8) % 256], acc, d.bits + 5 - 8)
    else Dec(d.out, acc, d.bits + 5)
  }

  function FeedAll(digits: seq<Five>): Dec {
    if digits == [] then Dec([], 0, 0) else Feed(FeedAll(digits[..|digits| - 1]), digits[|digits| - 1])
  }

  // Between bytes the decoder has every byte but the last, and the pending bits of the two sides make up
  // that last byte.
  predicate InStep(bytes: Bytes, e: Enc, d: Dec) {
    if bytes == [] || e.bits == 0 then e.bits == 0 && d.bits == 0 && d.out == bytes
    else
      var x := bytes[|bytes| - 1];
      && e.bits <= 4 && e.acc % Pow2(e.bits) == x as int % Pow2(e.bits)
      && d.out == bytes[..|bytes| - 1] && d.bits == 8 - e.bits
      && d.acc % Pow2(d.bits) == x as int / Pow2(e.bits)
  }

  lemma FeedNext(digits: seq<Five>, digit: Five)
    ensures FeedAll(digits + [digit]) == Feed(FeedAll(digits), digit)
  {
    assert (digits + [digit])[..|digits|] == digits;
  }

  // --- Low bits ---

  lemma {:induction false} Pow2Sum(a: nat, b: nat)
    ensures Pow2(a + b) == Pow2(a) * Pow2(b)
  {
    hide Pow2;
    Pow2Next(0);
    if b == 0 {
      assert a + b == a;
    } else {
      Pow2Sum(a, b - 1);
      Pow2Next(b - 1);
      Pow2Next(a + b - 1);
      Twice(Pow2(a), Pow2(b - 1));
    }
  }

  lemma Pow2Next(n: nat)
    ensures Pow2(n + 1) == 2 * Pow2(n) && Pow2(0) == 1
  {
  }

  lemma Twice(x: nat, y: nat)
    ensures x * (2 * y) == 2 * (x * y)
  {
  }

  lemma Word()
    ensures Pow2(32) == U32_LIMIT
  {
    Powers();
    Pow2Sum(8, 8);
    Pow2Sum(16, 16);
  }

  lemma DivMod(v: nat, k: nat)
    requires k > 0
    ensures v == (v / k) * k + v % k && 0 <= v % k < k
  {
  }

  lemma Away(d: int, k: nat)
    ensures d > 0 ==> d * k >= k
    ensures d < 0 ==> d * k <= -(k as int)
  {
    if d > 0 {
      AtLeast(d, k);
    } else if d < 0 {
      AtLeast(-d, k);
      assert d * k == -((-d) * k);
    }
  }

  lemma Minus(a: int, b: int, k: int)
    ensures (a - b) * k == a * k - b * k
  {
  }

  lemma Swap(a: nat, b: nat, c: nat)
    ensures a * (b * c) == (a * c) * b
  {
  }

  lemma Quotient(v: nat, k: nat, q: nat, r: nat)
    requires v == q * k + r && r < k
    ensures v / k == q && v % k == r
  {
    DivMod(v, k);
    Minus(v / k, q, k);
    Away(v / k - q, k);
  }

  // v as a multiple of m*k, a multiple of m below that, and the rest.
  lemma Parts(v: nat, m: nat, k: nat, mk: nat) returns (q: nat, r: nat)
    requires m > 0 && k > 0 && mk == m * k && mk > 0
    ensures r == v % mk && q == v / mk
    ensures v == (q * k + r / m) * m + r % m && r / m < k
  {
    q, r := v / mk, v % mk;
    DivMod(v, mk);
    DivMod(r, m);
    Swap(q, m, k);
    Distribute(q * k, r / m, m);
    Below(r, m, k);
  }

  lemma Below(r: nat, m: nat, k: nat)
    requires m > 0 && r < m * k
    ensures r / m < k
  {
    DivMod(r, m);
    Minus(r / m, k, m);
    Away(r / m - k, m);
  }

  lemma LowerPart(v: nat, m: nat, k: nat, mk: nat)
    requires m > 0 && k > 0 && mk == m * k && mk > 0
    ensures v % mk % m == v % m
  {
    var q, r := Parts(v, m, k, mk);
    Quotient(v, m, q * k + r / m, r % m);
  }

  lemma MiddlePart(v: nat, m: nat, k: nat, mk: nat)
    requires m > 0 && k > 0 && mk == m * k && mk > 0
    ensures v / m % k == v % mk / m
  {
    var q, r := Parts(v, m, k, mk);
    MiddleFrom(v, m, k, q, r / m, r % m);
  }

  lemma MiddleFrom(v: nat, m: nat, k: nat, q: nat, x: nat, y: nat)
    requires v == (q * k + x) * m + y && x < k && y < m
    ensures v / m % k == x
  {
    Quotient(v, m, q * k + x, y);
    Quotient(q * k + x, k, q, x);
  }

  lemma ShiftedPart(acc: nat, m: nat, w: nat, mw: nat, in_: nat)
    requires m > 0 && in_ < w && mw == m * w && mw > 0
    ensures (acc * w + in_) % mw == (acc % m) * w + in_
  {
    var s, r := acc / m, acc % m;
    DivMod(acc, m);
    Distribute(s * m, r, w);
    Swap(s, w, m);
    Room(r, m, w);
    Quotient(acc * w + in_, mw, s, r * w + in_);
  }

  lemma Room(r: nat, m: nat, w: nat)
    requires r < m
    ensures r * w + w <= m * w
  {
    Minus(m, r, w);
    AtLeast(m - r, w);
  }

  // Taking fewer low bits of low bits.
  lemma LowerBits(v: nat, a: nat, b: nat)
    requires a <= b
    ensures v % Pow2(b) % Pow2(a) == v % Pow2(a)
  {
    Pow2Sum(a, b - a);
    LowerPart(v, Pow2(a), Pow2(b - a), Pow2(b));
  }

  // The bits between.
  lemma MiddleBits(v: nat, low: nat, width: nat)
    ensures v / Pow2(low) % Pow2(width) == v % Pow2(low + width) / Pow2(low)
  {
    Pow2Sum(low, width);
    MiddlePart(v, Pow2(low), Pow2(width), Pow2(low + width));
  }

  // Shifting in `width` bits, in a 32-bit word: what was pending moves up by that much.
  lemma ShiftIn(acc: nat, pending: nat, in_: nat, width: nat)
    requires pending + width <= 32 && in_ < Pow2(width)
    ensures (acc * Pow2(width) + in_) % U32_LIMIT % Pow2(pending + width) == (acc % Pow2(pending)) * Pow2(width) + in_
  {
    Word();
    Pow2Sum(pending, width);
    LowerBits(acc * Pow2(width) + in_, pending + width, 32);
    ShiftedPart(acc, Pow2(pending), Pow2(width), Pow2(pending + width), in_);
  }

  // --- The two machines in step ---

  // The digit at the top of what is pending, and the rest.
  lemma TopDigit(acc: nat, bits: nat)
    requires bits >= 5
    ensures DigitOf(acc, bits - 5) as int == acc % Pow2(bits) / Pow2(bits - 5)
    ensures acc % Pow2(bits - 5) == acc % Pow2(bits) % Pow2(bits - 5)
  {
    Powers();
    MiddleBits(acc, bits - 5, 5);
    LowerBits(acc, bits - 5, bits);
  }

  lemma Pushed(acc: nat, bits: nat, byte: Byte)
    requires bits <= 4
    ensures Push(acc, byte) % Pow2(bits + 8) == (acc % Pow2(bits)) * 256 + byte
  {
    Powers();
    ShiftIn(acc, bits, byte, 8);
  }

  // One digit fed where fewer than three bits wait: they are kept.
  lemma FedPending(d: Dec, digit: Five)
    requires d.bits < 3
    ensures var after := Feed(d, digit);
            after.bits == d.bits + 5 && after.out == d.out
            && after.acc % Pow2(d.bits + 5) == (d.acc % Pow2(d.bits)) * 32 + digit
  {
    Powers();
    ShiftIn(d.acc, d.bits, digit, 5);
  }

  // One digit fed where more wait: a byte comes out, and what is below it is kept.
  lemma FedByte(d: Dec, digit: Five)
    requires 3 <= d.bits <= 7
    ensures var y := (d.acc % Pow2(d.bits)) * 32 + digit; var after := Feed(d, digit);
            && after.bits == d.bits - 3 && after.acc % Pow2(d.bits - 3) == y % Pow2(d.bits - 3)
            && |after.out| == |d.out| + 1 && after.out[..|d.out|] == d.out
            && after.out[|d.out|] as int == y / Pow2(d.bits - 3)
  {
    Powers();
    ShiftIn(d.acc, d.bits, digit, 5);
    var acc := (d.acc * 32 + digit) % U32_LIMIT;
    hide Pow2;
    LowerBits(acc, d.bits - 3, d.bits + 5);
    MiddleBits(acc, d.bits - 3, 8);
  }

  // --- The two machines in step ---

  lemma StepFromNone(bytes: Bytes, byte: Byte, e: Enc, d: Dec)
    requires e.bits == 0 && InStep(bytes, e, d)
    ensures var acc := Push(e.acc, byte);
            InStep(bytes + [byte], Enc(e.digits + [DigitOf(acc, 3)], acc, 3), Feed(d, DigitOf(acc, 3)))
  {
    var acc := Push(e.acc, byte);
    Powers();
    Pushed(e.acc, 0, byte);
    TopDigit(acc, 8);
    FedPending(d, DigitOf(acc, 3));
  }

  lemma SplitAfterOne(x: nat, byte: nat)
    requires x < 256 && byte < 256
    ensures var z := (x % Pow2(1)) * 256 + byte; var y := (x / Pow2(1)) * 32 + z / Pow2(4);
            y / Pow2(4) == x && y % Pow2(4) == byte / Pow2(4) && z % Pow2(4) == byte % Pow2(4)
  {
    Powers();
  }

  lemma StepFromOne(bytes: Bytes, byte: Byte, e: Enc, d: Dec)
    requires e.bits == 1 && InStep(bytes, e, d)
    ensures var acc := Push(e.acc, byte);
            InStep(bytes + [byte], Enc(e.digits + [DigitOf(acc, 4)], acc, 4), Feed(d, DigitOf(acc, 4)))
  {
    var acc := Push(e.acc, byte);
    Pushed(e.acc, 1, byte);
    TopDigit(acc, 9);
    FedByte(d, DigitOf(acc, 4));
    SplitAfterOne(bytes[|bytes| - 1], byte);
    hide Pow2, Feed, DigitOf, Push;
    var after := Feed(d, DigitOf(acc, 4));
    assert bytes == bytes[..|bytes| - 1] + [bytes[|bytes| - 1]];
    assert after.out == after.out[..|d.out|] + [after.out[|d.out|]];
  }

  // Two digits come out where two bits or more were pending: the first completes the byte before.
  lemma AfterFirst(bytes: Bytes, byte: Byte, e: Enc, d: Dec) returns (acc: nat, middle: Dec)
    requires 2 <= e.bits <= 4 && InStep(bytes, e, d)
    ensures acc == Push(e.acc, byte) && middle == Feed(d, DigitOf(acc, e.bits + 3))
    ensures middle.out == bytes && middle.bits == 5 - e.bits
    ensures middle.acc % Pow2(middle.bits) == byte as int / Pow2(e.bits + 3)
    ensures acc % Pow2(e.bits + 3) == byte as int % Pow2(e.bits + 3)
    ensures DigitOf(acc, e.bits - 2) as int == acc % Pow2(e.bits + 3) / Pow2(e.bits - 2)
    ensures acc % Pow2(e.bits - 2) == acc % Pow2(e.bits + 3) % Pow2(e.bits - 2)
  {
    hide Pow2, Feed, DigitOf, Push;
    acc := Push(e.acc, byte);
    Pushed(e.acc, e.bits, byte);
    TopDigit(acc, e.bits + 8);
    TopDigit(acc, e.bits + 3);
    FedByte(d, DigitOf(acc, e.bits + 3));
    middle := Feed(d, DigitOf(acc, e.bits + 3));
    FirstOut(bytes, byte, e, d, acc, middle);
  }

  lemma StepFromTwo(bytes: Bytes, byte: Byte, e: Enc, d: Dec)
    requires e.bits == 2 && InStep(bytes, e, d)
    ensures var acc := Push(e.acc, byte);
            InStep(bytes + [byte], Enc(e.digits + [DigitOf(acc, 5)] + [DigitOf(acc, 0)], acc, 0),
                   Feed(Feed(d, DigitOf(acc, 5)), DigitOf(acc, 0)))
  {
    var acc, middle := AfterFirst(bytes, byte, e, d);
    hide Pow2, Feed, DigitOf, Push;
    FedByte(middle, DigitOf(acc, 0));
    SecondOut(bytes, byte, acc, middle, Feed(middle, DigitOf(acc, 0)));
  }

  lemma StepFromMore(bytes: Bytes, byte: Byte, e: Enc, d: Dec)
    requires 3 <= e.bits <= 4 && InStep(bytes, e, d)
    ensures var acc := Push(e.acc, byte);
            InStep(bytes + [byte], Enc(e.digits + [DigitOf(acc, e.bits + 3)] + [DigitOf(acc, e.bits - 2)], acc, e.bits - 2),
                   Feed(Feed(d, DigitOf(acc, e.bits + 3)), DigitOf(acc, e.bits - 2)))
  {
    var acc, middle := AfterFirst(bytes, byte, e, d);
    hide Pow2, Feed, DigitOf, Push;
    FedPending(middle, DigitOf(acc, e.bits - 2));
    SecondKept(byte, acc, e.bits, middle);
    var x := (bytes + [byte])[|bytes|];
    assert x == byte && (bytes + [byte])[..|bytes|] == bytes;
  }

  // The first digit completes the byte before.
  lemma FirstOut(bytes: Bytes, byte: Byte, e: Enc, d: Dec, acc: nat, middle: Dec)
    requires 2 <= e.bits <= 4 && InStep(bytes, e, d)
    requires acc % Pow2(e.bits + 8) == (e.acc % Pow2(e.bits)) * 256 + byte
    requires var y := (d.acc % Pow2(d.bits)) * 32 + acc % Pow2(e.bits + 8) / Pow2(e.bits + 3);
             && middle.bits == d.bits - 3 && middle.acc % Pow2(d.bits - 3) == y % Pow2(d.bits - 3)
             && |middle.out| == |d.out| + 1 && middle.out[..|d.out|] == d.out && middle.out[|d.out|] as int == y / Pow2(d.bits - 3)
    ensures middle.out == bytes && middle.bits == 5 - e.bits
    ensures middle.acc % Pow2(middle.bits) == byte as int / Pow2(e.bits + 3)
    ensures acc % Pow2(e.bits + 8) % Pow2(e.bits + 3) == byte as int % Pow2(e.bits + 3)
  {
    var x: nat := bytes[|bytes| - 1];
    SplitByte(x, byte, e.bits);
    hide Pow2;
    assert middle.out[|d.out|] as int == x;
    assert bytes == bytes[..|bytes| - 1] + [bytes[|bytes| - 1]];
    assert middle.out == middle.out[..|d.out|] + [middle.out[|d.out|]];
  }

  lemma SplitByte(x: nat, byte: nat, bits: nat)
    requires x < 256 && byte < 256 && 2 <= bits <= 4
    ensures var z := (x % Pow2(bits)) * 256 + byte; var y := (x / Pow2(bits)) * 32 + z / Pow2(bits + 3);
            && y / Pow2(5 - bits) == x && y % Pow2(5 - bits) == byte / Pow2(bits + 3)
            && z % Pow2(bits + 3) == byte % Pow2(bits + 3)
  {
    Powers();
    if bits == 2 {
      SplitTwo(x, byte);
    } else if bits == 3 {
      SplitThree(x, byte);
    } else {
      SplitFour(x, byte);
    }
  }

  lemma SplitTwo(x: nat, byte: nat)
    requires x < 256 && byte < 256
    ensures var z := (x % 4) * 256 + byte; var y := (x / 4) * 32 + z / 32; y / 8 == x && y % 8 == byte / 32 && z % 32 == byte % 32
  {
  }

  lemma SplitThree(x: nat, byte: nat)
    requires x < 256 && byte < 256
    ensures var z := (x % 8) * 256 + byte; var y := (x / 8) * 32 + z / 64; y / 4 == x && y % 4 == byte / 64 && z % 64 == byte % 64
  {
  }

  lemma SplitFour(x: nat, byte: nat)
    requires x < 256 && byte < 256
    ensures var z := (x % 16) * 256 + byte; var y := (x / 16) * 32 + z / 128; y / 2 == x && y % 2 == byte / 128 && z % 128 == byte % 128
  {
  }

  lemma SecondOut(bytes: Bytes, byte: Byte, acc: nat, middle: Dec, after: Dec)
    requires middle.out == bytes && middle.bits == 3 && middle.acc % Pow2(3) == byte as int / Pow2(5)
    requires var y := (middle.acc % Pow2(3)) * 32 + byte as int % Pow2(5) / Pow2(0);
             && after.bits == 0 && |after.out| == |middle.out| + 1 && after.out[..|middle.out|] == middle.out
             && after.out[|middle.out|] as int == y / Pow2(0)
    ensures after.out == bytes + [byte]
  {
    Powers();
    assert after.out[|bytes|] == byte;
    assert after.out == after.out[..|bytes|] + [after.out[|bytes|]];
  }

  lemma SecondKept(byte: Byte, acc: nat, bits: nat, middle: Dec)
    requires 3 <= bits <= 4 && middle.acc % Pow2(5 - bits) == byte as int / Pow2(bits + 3)
    requires acc % Pow2(bits + 3) == byte as int % Pow2(bits + 3)
    ensures (middle.acc % Pow2(5 - bits)) * 32 + acc % Pow2(bits + 3) / Pow2(bits - 2) == byte as int / Pow2(bits - 2)
    ensures acc % Pow2(bits + 3) % Pow2(bits - 2) == byte as int % Pow2(bits - 2)
  {
    Powers();
  }

  // Encoding a byte at a time, with the decoder following: they never lose step.
  lemma {:induction false} StaysInStep(bytes: Bytes)
    ensures EncodeFrom(bytes).bits <= 4 && InStep(bytes, EncodeFrom(bytes), FeedAll(EncodeFrom(bytes).digits))
  {
    if bytes != [] {
      var shorter, byte := bytes[..|bytes| - 1], bytes[|bytes| - 1];
      StaysInStep(shorter);
      var e := EncodeFrom(shorter);
      var d, acc := FeedAll(e.digits), Push(e.acc, byte);
      assert bytes == shorter + [byte];
      Drained(e, acc);
      FeedNext(e.digits, DigitOf(acc, e.bits + 3));
      if e.bits == 0 {
        StepFromNone(shorter, byte, e, d);
      } else if e.bits == 1 {
        StepFromOne(shorter, byte, e, d);
      } else {
        FeedNext(e.digits + [DigitOf(acc, e.bits + 3)], DigitOf(acc, e.bits - 2));
        if e.bits == 2 {
          StepFromTwo(shorter, byte, e, d);
        } else {
          StepFromMore(shorter, byte, e, d);
        }
      }
    }
  }

  lemma Drained(e: Enc, acc: nat)
    requires e.bits <= 4
    ensures Drain(Enc(e.digits, acc, e.bits + 8)) ==
            if e.bits < 2 then Enc(e.digits + [DigitOf(acc, e.bits + 3)], acc, e.bits + 3)
            else Enc(e.digits + [DigitOf(acc, e.bits + 3)] + [DigitOf(acc, e.bits - 2)], acc, e.bits - 2)
  {
    var one := Enc(e.digits + [DigitOf(acc, e.bits + 3)], acc, e.bits + 3);
    assert Drain(Enc(e.digits, acc, e.bits + 8)) == Drain(one);
    if e.bits >= 2 {
      assert Drain(one) == Drain(Enc(one.digits + [DigitOf(acc, e.bits - 2)], acc, e.bits - 2));
    }
  }

  // The bytes a text of digits holds, if its padding is zero and its length is one a PID can have.
  function Decoded(digits: seq<Five>): Option<Bytes> {
    var d := FeedAll(digits);
    if d.acc % Pow2(d.bits) != 0 then None
    else if |d.out| > MAX_ALLOCATED && |d.out| != HASH_LEN then None
    else Some(d.out)
  }

  lemma PaddingIsZero(x: nat, bits: nat)
    requires x < 256 && 1 <= bits <= 4
    ensures var y := (x / Pow2(bits)) * 32 + (x % Pow2(bits)) * Pow2(5 - bits);
            (x % Pow2(bits)) * Pow2(5 - bits) < 32 && y / Pow2(5 - bits) == x && y % Pow2(5 - bits) == 0
  {
    Powers();
  }

  lemma LastDigit(acc: nat, bits: nat)
    requires 1 <= bits <= 4
    ensures acc * Pow2(5 - bits) % 32 == (acc % Pow2(bits)) * Pow2(5 - bits)
  {
    Powers();
    Pow2Sum(bits, 5 - bits);
    hide Pow2;
    ShiftedPart(acc, Pow2(bits), Pow2(5 - bits), Pow2(5), 0);
  }

  lemma {:induction false} Base32RoundTrip(bytes: Bytes)
    requires |bytes| <= MAX_ALLOCATED || |bytes| == HASH_LEN
    ensures Decoded(Encoded(bytes)) == Some(bytes)
  {
    hide Pow2, Feed, FeedAll;
    StaysInStep(bytes);
    Powers();
    var e := EncodeFrom(bytes);
    if e.bits > 0 {
      LastByte(bytes, e, FeedAll(e.digits));
      FeedNext(e.digits, e.acc * Pow2(5 - e.bits) % 32);
    }
  }

  // The padded last digit completes the last byte and leaves nothing but zeros.
  lemma LastByte(bytes: Bytes, e: Enc, d: Dec)
    requires InStep(bytes, e, d) && e.bits > 0
    ensures var after := Feed(d, e.acc * Pow2(5 - e.bits) % 32);
            after.out == bytes && after.acc % Pow2(after.bits) == 0
  {
    hide Pow2, Feed;
    var x: nat := bytes[|bytes| - 1];
    PaddingIsZero(x, e.bits);
    LastDigit(e.acc, e.bits);
    var digit: Five := e.acc * Pow2(5 - e.bits) % 32;
    FedByte(d, digit);
    var after := Feed(d, digit);
    assert bytes == bytes[..|bytes| - 1] + [bytes[|bytes| - 1]];
    assert after.out == after.out[..|d.out|] + [after.out[|d.out|]];
  }

  // --- Characters ---

  const ALPHABET: string := "0123456789abcdefghjkmnpqrstvwxyz"

  function DigitAt(v: Five): char {
    ALPHABET[v]
  }

  function Lower(c: char): char {
    if 'A' <= c <= 'Z' then c + 32 as char else c
  }

  // Case-insensitive, and a slip between look-alikes is corrected.
  function DigitValue(c: char): Option<Five> {
    var l := Lower(c);
    if l == '0' || l == 'o' then Some(0)
    else if l == '1' || l == 'i' || l == 'l' then Some(1)
    else if '2' <= l <= '9' then Some((l - '0') as int)
    else if 'a' <= l <= 'h' then Some((l - 'a') as int + 10)
    else if l == 'j' then Some(18)
    else if l == 'k' then Some(19)
    else if l == 'm' then Some(20)
    else if l == 'n' then Some(21)
    else if 'p' <= l <= 't' then Some((l - 'p') as int + 22)
    else if 'v' <= l <= 'z' then Some((l - 'v') as int + 27)
    else None
  }

  predicate ReadsAs(c: char, v: Five) {
    DigitValue(c) == Some(v) && c !in "-.:#[]"
  }

  lemma LowDigits(v: Five)
    requires v < 16
    ensures ReadsAs(DigitAt(v), v)
  {
  }

  lemma HighDigits(v: Five)
    requires v >= 16
    ensures ReadsAs(DigitAt(v), v)
  {
  }

  lemma DigitReadsBack(v: Five)
    ensures ReadsAs(DigitAt(v), v)
  {
    if v < 16 {
      LowDigits(v);
    } else {
      HighDigits(v);
    }
  }

  function Chars(digits: seq<Five>): (s: string)
    ensures |s| == |digits|
  {
    seq(|digits|, k requires 0 <= k < |digits| => DigitAt(digits[k]))
  }

  function Digits(text: string): Option<seq<Five>> {
    if text == "" then Some([])
    else
      var earlier, last := Digits(text[..|text| - 1]), DigitValue(text[|text| - 1]);
      if earlier.None? || last.None? then None else Some(earlier.value + [last.value])
  }

  lemma {:induction false} CharsReadBack(digits: seq<Five>)
    ensures Digits(Chars(digits)) == Some(digits)
  {
    if digits != [] {
      var n := |digits| - 1;
      CharsReadBack(digits[..n]);
      assert Chars(digits)[..n] == Chars(digits[..n]);
      DigitReadsBack(digits[n]);
      assert digits == digits[..n] + [digits[n]];
    }
  }

  function Letter(kind: PidKind): char {
    match kind
    case Object => 'o'
    case List => 'l'
    case Any => 'a'
    case AnyObject => 'j'
    case AnyArray => 'y'
    case AnyNumber => 'm'
    case String => 's'
    case Binary => 'b'
    case BigInt => 'n'
  }

  function FromLetter(letter: char): Option<PidKind> {
    var l := Lower(letter);
    if l == 'o' then Some(Object)
    else if l == 'l' then Some(List)
    else if l == 'a' then Some(Any)
    else if l == 'j' then Some(AnyObject)
    else if l == 'y' then Some(AnyArray)
    else if l == 'm' then Some(AnyNumber)
    else if l == 's' then Some(String)
    else if l == 'b' then Some(Binary)
    else if l == 'n' then Some(BigInt)
    else None
  }

  // --- The text form ---

  function Payload(p: Pid): Bytes {
    match p
    case Allocated(_, branch, allocator, counter) => Varint(branch) + Varint(allocator) + Varint(counter)
    case Content(_, hash) => hash
  }

  function Render(p: Pid): string {
    [Letter(p.kind), '-'] + Chars(Encoded(Payload(p)))
  }

  // Three varints and nothing after them, with an allocator that fits.
  function AllocatedFrom(kind: PidKind, bytes: Bytes): Option<Pid> {
    var branch := TakeFrom(bytes, 0, 0);
    if branch.None? then None
    else
      var allocator := TakeFrom(branch.value.1, 0, 0);
      if allocator.None? then None
      else
        var counter := TakeFrom(allocator.value.1, 0, 0);
        if counter.None? || counter.value.1 != [] || allocator.value.0 >= U32_LIMIT then None
        else if branch.value.0 >= U64_LIMIT || counter.value.0 >= U64_LIMIT then None
        else Some(Allocated(kind, branch.value.0, allocator.value.0, counter.value.0))
  }

  function Hyphen(text: string): nat {
    if text == "" || text[0] == '-' then 0 else 1 + Hyphen(text[1..])
  }

  function Unpacked(kind: PidKind, bytes: Bytes): Option<Pid> {
    if |bytes| == HASH_LEN then Some(Content(kind, bytes)) else AllocatedFrom(kind, bytes)
  }

  function Parse(text: string): Option<Pid> {
    var at := Hyphen(text);
    if at >= |text| || at != 1 || FromLetter(text[0]).None? then None
    else
      var digits := Digits(text[at + 1..]);
      if digits.None? || Decoded(digits.value).None? then None
      else Unpacked(FromLetter(text[0]).value, Decoded(digits.value).value)
  }

  lemma AllocatedReadsBack(kind: PidKind, branch: u64, allocator: u32, counter: u64)
    ensures var p := Allocated(kind, branch, allocator, counter);
            3 <= |Payload(p)| <= MAX_ALLOCATED && AllocatedFrom(kind, Payload(p)) == Some(p)
  {
    var a, b, c := Varint(branch), Varint(allocator), Varint(counter);
    VarintWidths(branch);
    VarintWidths(allocator);
    VarintWidths(counter);
    assert Pow128(0) == 1;
    assert a + b + c == a + (b + c) && c + [] == c;
    VarintTaken(branch, b + c, 0, 0);
    VarintTaken(allocator, c, 0, 0);
    VarintTaken(counter, [], 0, 0);
  }

  lemma LetterReadsBack(kind: PidKind)
    ensures FromLetter(Letter(kind)) == Some(kind) && Letter(kind) != '-'
  {
  }

  lemma PayloadOfContent(p: Pid)
    requires WellFormed(p)
    ensures p.Content? ==> Payload(p) == p.hash && |Payload(p)| == HASH_LEN
  {
  }

  // Reading a rendered PID gives it back, whatever its kind, numbers or hash. An allocated payload is never
  // as long as a hash, so length alone tells the two flavours apart.
  lemma ReadsBack(p: Pid)
    requires WellFormed(p)
    ensures Parse(Render(p)) == Some(p)
    ensures p.Allocated? ==> |Payload(p)| <= MAX_ALLOCATED < HASH_LEN
  {
    if p.Allocated? {
      AllocatedReadsBack(p.kind, p.branch, p.allocator, p.counter);
    }
    hide Encoded, Decoded, Digits, Chars, Payload, AllocatedFrom, Letter, FromLetter;
    var digits, text := Encoded(Payload(p)), Render(p);
    PayloadOfContent(p);
    Base32RoundTrip(Payload(p));
    CharsReadBack(digits);
    LetterReadsBack(p.kind);
    assert text[1..][0] == '-' && text[0] != '-';
    assert Hyphen(text) == 1 + Hyphen(text[1..]);
    assert text[2..] == Chars(digits);
    assert FromLetter(text[0]) == Some(p.kind);
  }

  // Two PIDs never share a text form.
  lemma Lossless(p: Pid, q: Pid)
    requires WellFormed(p) && WellFormed(q) && Render(p) == Render(q)
    ensures p == q
  {
    ReadsBack(p);
    ReadsBack(q);
  }

  // --- The loops ---

  method EncodeBase32(bytes: Bytes) returns (text: string)
    ensures text == Chars(Encoded(bytes))
  {
    var acc: nat, bits: nat := 0, 0;
    ghost var digits: seq<Five> := [];
    text := "";
    for k := 0 to |bytes|
      invariant EncodeFrom(bytes[..k]) == Enc(digits, acc, bits) && bits <= 4
      invariant text == Chars(digits)
    {
      StaysInStep(bytes[..k + 1]);
      assert bytes[..k + 1][..k] == bytes[..k];
      acc, bits := Push(acc, bytes[k]), bits + 8;
      while bits >= 5
        invariant Drain(Enc(digits, acc, bits)) == EncodeFrom(bytes[..k + 1])
        invariant text == Chars(digits)
      {
        bits := bits - 5;
        text := text + [DigitAt(DigitOf(acc, bits))];
        digits := digits + [DigitOf(acc, bits)];
      }
    }
    assert bytes[..|bytes|] == bytes;
    if bits > 0 {
      var last: Five := acc * Pow2(5 - bits) % 32;
      text := text + [DigitAt(last)];
      digits := digits + [last];
    }
  }

  lemma FeedOnly(digits: seq<Five>, n: nat)
    requires n <= |digits|
    ensures |FeedAll(digits[..n]).out| <= |FeedAll(digits).out|
    decreases |digits|
  {
    if n < |digits| {
      FeedOnly(digits[..|digits| - 1], n);
      assert digits[..|digits| - 1][..n] == digits[..n];
    } else {
      assert digits[..n] == digits;
    }
  }

  lemma {:induction false} DigitsOnly(text: string, n: nat)
    requires n <= |text|
    ensures Digits(text).Some? ==> Digits(text[..n]).Some? && Digits(text[..n]).value <= Digits(text).value
    decreases |text|
  {
    if n < |text| {
      DigitsOnly(text[..|text| - 1], n);
      assert text[..|text| - 1][..n] == text[..n];
    } else {
      assert text[..n] == text;
    }
  }

  lemma NothingFed()
    ensures Digits("") == Some([]) && FeedAll([]) == Dec([], 0, 0)
  {
  }

  lemma DigitsNext(text: string, c: char)
    ensures Digits(text + [c]) ==
            if Digits(text).None? || DigitValue(c).None? then None else Some(Digits(text).value + [DigitValue(c).value])
  {
    hide DigitValue;
    assert (text + [c])[..|text|] == text;
  }

  // Into a buffer the size of a hash; None for a bad digit, too many bytes, dirty padding or a length no PID has.
  method DecodeBase32(text: string) returns (r: Option<Bytes>)
    ensures r == if Digits(text).None? then None else Decoded(Digits(text).value)
  {
    hide Digits, FeedAll, Pow2;
    var out := new Byte[HASH_LEN];
    var acc: nat, bits: nat, len := 0, 0, 0;
    NothingFed();
    assert text[..0] == "" && out[..0] == [];
    ghost var digits: seq<Five> := [];
    for k := 0 to |text|
      invariant Digits(text[..k]) == Some(digits) && len <= HASH_LEN
      invariant FeedAll(digits) == Dec(out[..len], acc, bits)
    {
      assert text[..k + 1] == text[..k] + [text[k]];
      DigitsNext(text[..k], text[k]);
      DigitsOnly(text, k + 1);
      var digit := DigitValue(text[k]);
      if digit.None? {
        return None;
      }
      ghost var longer := digits + [digit.value];
      FeedNext(digits, digit.value);
      acc, bits := (acc * 32 + digit.value) % U32_LIMIT, bits + 5;
      if bits >= 8 {
        bits := bits - 8;
        if len == HASH_LEN {
          TooLong(text, k + 1, longer);
          return None;
        }
        out[len] := acc / Pow2(bits) % 256;
        len := len + 1;
        assert out[..len] == out[..len - 1] + [acc / Pow2(bits) % 256];
      }
      digits := longer;
    }
    assert text[..|text|] == text;
    if acc % Pow2(bits) != 0 {
      return None;
    }
    if len > MAX_ALLOCATED && len != HASH_LEN {
      return None;
    }
    r := Some(out[..len]);
  }

  lemma TooLong(text: string, n: nat, digits: seq<Five>)
    requires n <= |text| && Digits(text[..n]) == Some(digits) && |FeedAll(digits).out| > HASH_LEN
    ensures Digits(text).Some? ==> Decoded(Digits(text).value).None?
  {
    DigitsOnly(text, n);
    if Digits(text).Some? {
      var all := Digits(text).value;
      assert all[..|digits|] == digits;
      FeedOnly(all, |digits|);
    }
  }

  method AllocatedPayload(branch: u64, allocator: u32, counter: u64) returns (payload: Bytes)
    ensures payload == Varint(branch) + Varint(allocator) + Varint(counter)
  {
    AllocatedReadsBack(Object, branch, allocator, counter);
    var buf := new Byte[HASH_LEN];
    assert buf[..0] == [];
    var at := PutVarint(branch, buf, 0);
    assert buf[..at] == Varint(branch);
    at := PutVarint(allocator, buf, at);
    at := PutVarint(counter, buf, at);
    payload := buf[..at];
  }

  method RenderPid(p: Pid) returns (text: string)
    requires WellFormed(p)
    ensures text == Render(p)
  {
    var payload;
    match p {
      case Allocated(_, branch, allocator, counter) =>
        payload := AllocatedPayload(branch, allocator, counter);
      case Content(_, hash) =>
        payload := hash;
    }
    var body := EncodeBase32(payload);
    text := [Letter(p.kind), '-'] + body;
  }
}
