/** Canonical big integers: decimal text to minimal two's-complement bytes and back, one encoding for each
    number and one spelling for each encoding, so equal integers share one content address
    (crates/borg-core/src/bigint.rs, `encode`, `decode`, `increment`). */
module BigInt {
  import opened Core

  type Bytes = seq<Byte>

  // --- What bytes and digits denote ---

  function Pow256(n: nat): (r: nat)
    ensures r > 0
  {
    if n == 0 then 1 else 256 * Pow256(n - 1)
  }

  // Big-endian, unsigned.
  function Unsigned(b: Bytes): nat {
    if b == [] then 0 else Unsigned(b[..|b| - 1]) * 256 + b[|b| - 1]
  }

  // Big-endian two's complement; the empty string is zero.
  function Signed(b: Bytes): int {
    if b != [] && b[0] >= 128 then Unsigned(b) - Pow256(|b|) else Unsigned(b)
  }

  // No byte could be dropped.
  predicate Minimal(b: Bytes) {
    && (|b| == 1 ==> b[0] != 0)
    && (|b| > 1 ==> !(b[0] == 0 && b[1] < 128) && !(b[0] == 255 && b[1] >= 128))
  }

  predicate IsDigit(c: char) {
    '0' <= c <= '9'
  }

  predicate AllDigits(s: string) {
    forall k :: 0 <= k < |s| ==> IsDigit(s[k])
  }

  function Numeral(s: string): nat
    requires AllDigits(s)
  {
    if s == [] then 0 else Numeral(s[..|s| - 1]) * 10 + (s[|s| - 1] - '0') as int
  }

  function Unminus(s: string): string {
    if s != [] && s[0] == '-' then s[1..] else s
  }

  // An optional minus and at least one digit.
  predicate IsDecimal(s: string) {
    Unminus(s) != [] && AllDigits(Unminus(s))
  }

  function ValueOf(s: string): int
    requires IsDecimal(s)
  {
    if s[0] == '-' then -(Numeral(Unminus(s)) as int) else Numeral(s)
  }

  // The one spelling of each number: no leading zeros and no minus zero.
  predicate Canonical(s: string) {
    && IsDecimal(s)
    && (s == "0" || Unminus(s)[0] != '0')
  }

  lemma Short(a: Byte, b: Byte)
    ensures Unsigned([]) == 0 && Unsigned([a]) == a && Unsigned([a, b]) == 256 * a + b
    ensures Pow256(1) == 256 && Pow256(2) == 65536
  {
    assert [a, b][..1] == [a] && [a][..0] == [];
    assert Pow256(2) == 256 * Pow256(1);
  }

  // The bytes around which the sign comes and goes: the top bit of the first is the sign and nothing else.
  lemma KnownBytes()
    ensures Signed([]) == 0 && Signed([1]) == 1 && Signed([0xff]) == -1 && Signed([0, 0x80]) == 128
    ensures Signed([0x80]) == -128 && Signed([0xff, 1]) == -255
    ensures Minimal([]) && Minimal([1]) && Minimal([0xff]) && Minimal([0, 0x80]) && Minimal([0x80]) && Minimal([0xff, 1])
    ensures !Minimal([0]) && !Minimal([0, 1]) && !Minimal([0xff, 0x80])
  {
    Short(1, 0);
    Short(0xff, 1);
    Short(0, 0x80);
    Short(0x80, 0);
    hide Unsigned, Pow256;
  }

  lemma KnownDecimals()
    ensures IsDecimal("128") && ValueOf("128") == 128 && IsDecimal("-255") && ValueOf("-255") == -255
    ensures IsDecimal("-0") && ValueOf("-0") == 0 && !Canonical("-0") && !Canonical("007") && Canonical("0")
  {
    assert "128"[..2] == "12" && "12"[..1] == "1" && "1"[..0] == "";
    assert Unminus("-255") == "255" && "255"[..2] == "25" && "25"[..1] == "2" && "2"[..0] == "";
    assert Unminus("-0") == "0" && "0"[..0] == "" && Unminus("007")[0] == '0';
  }

  // Text that is no integer.
  lemma NoDecimals()
    ensures !IsDecimal("") && !IsDecimal("-") && !IsDecimal("1.5") && !IsDecimal("1n") && !IsDecimal("abc")
    ensures !IsDecimal("1 2") && !IsDecimal("+1") && !IsDecimal(" 1")
  {
    assert !IsDigit("1.5"[1]) && !IsDigit("1n"[1]) && !IsDigit("abc"[0]) && !IsDigit("1 2"[1]);
    assert !IsDigit("+1"[0]) && !IsDigit(" 1"[0]);
  }

  // --- Arithmetic of byte strings ---

  lemma {:induction false} UnsignedAppend(a: Bytes, b: Bytes)
    ensures Unsigned(a + b) == Unsigned(a) * Pow256(|b|) + Unsigned(b)
  {
    if b == [] {
      assert a + b == a;
    } else {
      var shorter := b[..|b| - 1];
      UnsignedAppend(a, shorter);
      assert (a + b)[..|a + b| - 1] == a + shorter;
      calc {
        Unsigned(a + b);
        Unsigned(a + shorter) * 256 + b[|b| - 1];
        (Unsigned(a) * Pow256(|shorter|) + Unsigned(shorter)) * 256 + b[|b| - 1];
        Unsigned(a) * Pow256(|shorter|) * 256 + Unsigned(b);
        { Shuffle(Unsigned(a), Pow256(|shorter|)); }
        Unsigned(a) * Pow256(|b|) + Unsigned(b);
      }
    }
  }

  lemma Shuffle(x: nat, p: nat)
    ensures x * p * 256 == x * (256 * p)
  {
  }

  lemma UnsignedCons(x: Byte, b: Bytes)
    ensures Unsigned([x] + b) == x * Pow256(|b|) + Unsigned(b)
  {
    UnsignedAppend([x], b);
    UnsignedOne(x);
    hide Unsigned, Pow256;
  }

  lemma UnsignedOne(x: Byte)
    ensures Unsigned([x]) == x && Unsigned([]) == 0 && Pow256(0) == 1
  {
    assert [x][..0] == [];
  }

  lemma {:induction false} UnsignedBound(b: Bytes)
    ensures Unsigned(b) < Pow256(|b|)
  {
    if b != [] {
      UnsignedBound(b[..|b| - 1]);
    }
  }

  lemma {:induction false} UnsignedInjective(a: Bytes, b: Bytes)
    requires |a| == |b| && Unsigned(a) == Unsigned(b)
    ensures a == b
  {
    if a != [] {
      UnsignedInjective(a[..|a| - 1], b[..|b| - 1]);
      assert a == a[..|a| - 1] + [a[|a| - 1]] && b == b[..|b| - 1] + [b[|b| - 1]];
    }
  }

  lemma {:induction false} AllZero(b: Bytes)
    ensures Unsigned(b) == 0 <==> forall k :: 0 <= k < |b| ==> b[k] == 0
  {
    if b != [] {
      AllZero(b[..|b| - 1]);
    }
  }

  // A signed string of n bytes spans exactly half the range on each side.
  lemma SignedRange(b: Bytes)
    requires b != []
    ensures -128 * Pow256(|b| - 1) <= Signed(b) < 128 * Pow256(|b| - 1)
    ensures Signed(b) < 0 <==> b[0] >= 128
  {
    var rest := b[1..];
    assert b == [b[0]] + rest;
    UnsignedCons(b[0], rest);
    UnsignedBound(rest);
    var p := Pow256(|rest|);
    ByteTimes(b[0], p);
  }

  lemma ByteTimes(x: Byte, p: nat)
    ensures x >= 128 ==> 128 * p <= x * p <= 255 * p
    ensures x < 128 ==> x * p <= 127 * p
  {
    if x >= 128 {
      Monotone(128, x, p);
      Monotone(x, 255, p);
    } else {
      Monotone(x, 127, p);
    }
  }

  lemma Monotone(a: nat, b: nat, p: nat)
    requires a <= b
    ensures a * p <= b * p
  {
    assert b * p == a * p + (b - a) * p;
  }

  // What a minimal string denotes does not fit in a byte fewer.
  lemma MinimalIsFar(b: Bytes)
    requires Minimal(b) && |b| > 1
    ensures Signed(b) < -128 * Pow256(|b| - 2) || Signed(b) >= 128 * Pow256(|b| - 2)
  {
    var rest, tail := b[1..], b[2..];
    assert b == [b[0]] + rest && rest == [rest[0]] + tail;
    UnsignedCons(b[0], rest);
    UnsignedCons(rest[0], tail);
    UnsignedBound(tail);
    var p := Pow256(|tail|);
    ByteTimes(rest[0], p);
    if b[0] >= 128 {
      if b[0] < 255 {
        Monotone(b[0], 254, 256 * p);
      }
    } else if b[0] > 0 {
      Monotone(1, b[0], 256 * p);
    }
  }

  lemma {:induction false} Pow256Grows(m: nat, n: nat)
    ensures m <= n ==> Pow256(m) <= Pow256(n)
  {
    if m < n {
      Pow256Grows(m, n - 1);
    }
  }

  lemma OneByte(b: Bytes)
    requires |b| == 1
    ensures Signed(b) == 0 <==> b[0] == 0
  {
    assert b[..|b| - 1] == [] && Unsigned([]) == 0;
    assert Unsigned(b) == b[0] as int;
    assert Pow256(0) == 1 && Pow256(1) == 256;
  }

  // The encoding is the shortest: no byte string denoting the same number is shorter.
  lemma MinimalIsShortest(a: Bytes, b: Bytes)
    requires Minimal(a) && Signed(a) == Signed(b)
    ensures |a| <= |b|
  {
    if |a| == 1 {
      OneByte(a);
    }
    if |a| > 1 {
      MinimalIsFar(a);
      if b != [] {
        SignedRange(b);
        Pow256Grows(|b| - 1, |a| - 2);
      }
    }
  }

  // So equal numbers have equal encodings, and one content address.
  lemma OneEncoding(a: Bytes, b: Bytes)
    requires Minimal(a) && Minimal(b) && Signed(a) == Signed(b)
    ensures a == b
  {
    MinimalIsShortest(a, b);
    MinimalIsShortest(b, a);
    if a != [] {
      SignedRange(a);
      SignedRange(b);
    }
    UnsignedInjective(a, b);
  }

  // --- The loops ---

  // One digit more: magnitude * 10 + digit. The carry that leaves the top is at most nine.
  method TimesTenPlus(magnitude: Bytes, digit: nat) returns (r: Bytes)
    requires digit <= 9
    ensures Unsigned(r) == Unsigned(magnitude) * 10 + digit
  {
    hide Unsigned, Pow256;
    r := magnitude;
    var carry: nat, i := digit, |magnitude|;
    UnsignedOne(0);
    assert r[i..] == [] && magnitude[i..] == [];
    while i > 0
      invariant 0 <= i <= |magnitude| == |r| && carry <= 9
      invariant r[..i] == magnitude[..i]
      invariant Unsigned(r[i..]) + carry * Pow256(|magnitude| - i) == Unsigned(magnitude[i..]) * 10 + digit
    {
      i := i - 1;
      var next: nat := r[i] as int * 10 + carry;
      var low: Byte := next % 256;
      ghost var before := r;
      r := r[i := low];
      CarryStep(magnitude[i], magnitude[i + 1..], before[i + 1..], next, low, carry, digit);
      assert magnitude[i..] == [magnitude[i]] + magnitude[i + 1..];
      assert r[i..] == [low] + before[i + 1..];
      carry := next / 256;
    }
    assert r[0..] == r && magnitude[0..] == magnitude;
    assert Unsigned(r) + carry * Pow256(|r|) == Unsigned(magnitude) * 10 + digit;
    if carry > 0 {
      UnsignedCons(carry, r);
      r := [carry] + r;
    }
  }

  lemma CarryStep(byte: Byte, low: Bytes, done: Bytes, next: nat, out: Byte, carry: nat, digit: nat)
    requires |low| == |done| && next == byte as int * 10 + carry && out == next % 256
    requires Unsigned(done) + carry * Pow256(|low|) == Unsigned(low) * 10 + digit
    ensures Unsigned([out] + done) + (next / 256) * Pow256(|low| + 1) == Unsigned([byte] + low) * 10 + digit
  {
    UnsignedCons(out, done);
    UnsignedCons(byte, low);
    CarryArithmetic(out, next / 256, byte, carry, Unsigned(low), Unsigned(done), digit, Pow256(|low|));
  }

  lemma CarryArithmetic(out: nat, over: nat, byte: nat, carry: nat, low: nat, done: nat, digit: nat, p: nat)
    requires out + over * 256 == byte * 10 + carry && done + carry * p == low * 10 + digit
    ensures out * p + done + over * (256 * p) == (byte * p + low) * 10 + digit
  {
    Spread(out, over * 256, p);
    Spread(byte * 10, carry, p);
    Shuffle(over, p);
    assert over * 256 * p == over * p * 256;
    assert byte * 10 * p == byte * p * 10;
  }

  lemma Spread(a: nat, b: nat, p: nat)
    ensures (a + b) * p == a * p + b * p
  {
  }

  lemma LeadingZero(b: Bytes)
    requires b != [] && b[0] == 0
    ensures Unsigned(b[1..]) == Unsigned(b)
  {
    UnsignedCons(0, b[1..]);
    assert b == [b[0]] + b[1..];
  }

  method Trim(magnitude: Bytes) returns (r: Bytes)
    ensures Unsigned(r) == Unsigned(magnitude) && (r != [] ==> r[0] != 0)
  {
    r := magnitude;
    while r != [] && r[0] == 0
      invariant Unsigned(r) == Unsigned(magnitude)
      decreases |r|
    {
      LeadingZero(r);
      r := r[1..];
    }
  }

  function Complemented(b: Bytes): (r: Bytes)
    ensures |r| == |b|
  {
    seq(|b|, k requires 0 <= k < |b| => 255 - b[k])
  }

  lemma {:induction false} ComplementIs(b: Bytes)
    ensures Unsigned(Complemented(b)) + Unsigned(b) + 1 == Pow256(|b|)
  {
    if b != [] {
      ComplementIs(b[..|b| - 1]);
      assert Complemented(b)[..|b| - 1] == Complemented(b[..|b| - 1]);
    }
  }

  // In place, one byte at a time.
  method Complement(b: Bytes) returns (r: Bytes)
    ensures r == Complemented(b)
  {
    r := b;
    for k := 0 to |b|
      invariant |r| == |b|
      invariant forall j :: 0 <= j < |b| ==> r[j] == if j < k then 255 - b[j] else b[j]
    {
      r := r[k := 255 - r[k]];
    }
  }

  // Adds one, discarding a carry out of the top. None escapes unless every byte is 255.
  method Increment(b: Bytes) returns (r: Bytes)
    ensures |r| == |b|
    ensures Unsigned(r) == if Unsigned(b) + 1 == Pow256(|b|) then 0 else Unsigned(b) + 1
  {
    hide Unsigned, Pow256;
    r := b;
    var i := |b|;
    assert b[i..] == [];
    UnsignedOne(0);
    while i > 0
      invariant 0 <= i <= |b| == |r| && r[..i] == b[..i]
      invariant Unsigned(b[i..]) + 1 == Pow256(|b| - i) && Unsigned(r[i..]) == 0
    {
      i := i - 1;
      ghost var before := r;
      var raised := r[i] as int + 1;
      r := r[i := raised % 256];
      assert r[i + 1..] == before[i + 1..];
      if r[i] != 0 {
        CarryStops(b, r, i);
        return;
      }
      CarryGoesOn(b, r, i);
    }
    assert b[0..] == b && r[0..] == r;
  }

  lemma CarryGoesOn(b: Bytes, r: Bytes, i: nat)
    requires i < |b| == |r| && b[i] == 255 && r[i] == 0
    requires Unsigned(b[i + 1..]) + 1 == Pow256(|b| - i - 1) && Unsigned(r[i + 1..]) == 0
    ensures Unsigned(b[i..]) + 1 == Pow256(|b| - i) && Unsigned(r[i..]) == 0
  {
    hide Unsigned;
    assert b[i..] == [b[i]] + b[i + 1..] && r[i..] == [r[i]] + r[i + 1..];
    UnsignedCons(b[i], b[i + 1..]);
    UnsignedCons(r[i], r[i + 1..]);
  }

  lemma CarryStops(b: Bytes, r: Bytes, i: nat)
    requires i < |b| == |r| && r[..i] == b[..i] && r[i] as int == b[i] as int + 1
    requires Unsigned(b[i + 1..]) + 1 == Pow256(|b| - i - 1) && Unsigned(r[i + 1..]) == 0
    ensures Unsigned(r) == Unsigned(b) + 1 && Unsigned(b) + 1 != Pow256(|b|)
  {
    hide Unsigned, Pow256;
    var p := Pow256(|b| - i - 1);
    assert b[i..] == [b[i]] + b[i + 1..] && r[i..] == [r[i]] + r[i + 1..];
    UnsignedCons(b[i], b[i + 1..]);
    UnsignedCons(r[i], r[i + 1..]);
    Spread(b[i], 1, p);
    assert Unsigned(r[i..]) == Unsigned(b[i..]) + 1;
    SameTop(b, r, i);
    UnsignedBound(r);
  }

  lemma SameTop(b: Bytes, r: Bytes, i: nat)
    requires i <= |b| == |r| && r[..i] == b[..i] && Unsigned(r[i..]) == Unsigned(b[i..]) + 1
    ensures Unsigned(r) == Unsigned(b) + 1
  {
    assert b == b[..i] + b[i..] && r == r[..i] + r[i..];
    UnsignedAppend(b[..i], b[i..]);
    UnsignedAppend(r[..i], r[i..]);
  }

  // Drops sign bytes that carry no information.
  method TrimSign(b: Bytes) returns (r: Bytes)
    requires b != [] && b[0] >= 128
    ensures r != [] && r[0] >= 128 && Signed(r) == Signed(b) && Minimal(r)
  {
    r := b;
    while |r| > 1 && r[0] == 255 && r[1] >= 128
      invariant r != [] && r[0] >= 128 && Signed(r) == Signed(b)
      decreases |r|
    {
      assert r == [r[0]] + r[1..];
      UnsignedCons(255, r[1..]);
      r := r[1..];
    }
  }

  // --- Encoding ---

  method Magnitude(digits: string) returns (magnitude: Bytes)
    requires AllDigits(digits)
    ensures Unsigned(magnitude) == Numeral(digits)
  {
    magnitude := [];
    for n := 0 to |digits|
      invariant Unsigned(magnitude) == Numeral(digits[..n])
    {
      assert digits[..n + 1][..n] == digits[..n];
      magnitude := TimesTenPlus(magnitude, (digits[n] - '0') as int);
    }
    assert digits[..|digits|] == digits;
  }

  method Negated(magnitude: Bytes) returns (r: Bytes)
    requires magnitude != [] && magnitude[0] != 0
    ensures Signed(r) + Unsigned(magnitude) == 0 && Minimal(r)
  {
    // One byte more than the magnitude needs, so that the sign has somewhere to go.
    var padded := [0] + magnitude;
    UnsignedCons(0, magnitude);
    UnsignedBound(magnitude);
    LeadingByte(magnitude);
    ComplementIs(padded);
    var flipped := Complement(padded);
    var raised := Increment(flipped);
    // 256^n+1 minus a magnitude below 256^n: the top byte is 255 and the carry stayed inside.
    assert Unsigned(raised) == Pow256(|padded|) - Unsigned(magnitude);
    TopByte(raised, Unsigned(magnitude));
    r := TrimSign(raised);
  }

  lemma LeadingByte(b: Bytes)
    requires b != [] && b[0] != 0
    ensures Unsigned(b) > 0
  {
    AllZero(b);
  }

  lemma TopByte(b: Bytes, gap: nat)
    requires b != [] && Unsigned(b) == Pow256(|b|) - gap && 0 < gap <= Pow256(|b| - 1)
    ensures b[0] >= 128
  {
    assert b == [b[0]] + b[1..];
    UnsignedCons(b[0], b[1..]);
    UnsignedBound(b[1..]);
    if b[0] < 128 {
      ByteTimes(b[0], Pow256(|b| - 1));
    }
  }

  // Decimal text to canonical bytes; None for anything that is not an integer.
  method Encode(decimal: string) returns (r: Option<Bytes>)
    ensures r.Some? <==> IsDecimal(decimal)
    ensures r.Some? ==> Signed(r.value) == ValueOf(decimal) && Minimal(r.value)
  {
    var digits := Unminus(decimal);
    if digits == [] || !AllDigits(digits) {
      return None;
    }
    var magnitude := Magnitude(digits);
    magnitude := Trim(magnitude);
    if magnitude == [] {
      return Some([]);
    }
    if decimal[0] != '-' {
      if magnitude[0] >= 128 {
        UnsignedCons(0, magnitude);
        magnitude := [0] + magnitude;
      }
      return Some(magnitude);
    }
    var negative := Negated(magnitude);
    r := Some(negative);
  }

  // --- Decoding ---

  // Long division by ten, most significant byte first.
  method DivideByTen(b: Bytes) returns (q: Bytes, remainder: nat)
    ensures |q| == |b| && remainder < 10 && Unsigned(q) * 10 + remainder == Unsigned(b)
  {
    q, remainder := b, 0;
    for k := 0 to |b|
      invariant |q| == |b| && q[k..] == b[k..] && remainder < 10
      invariant Unsigned(q[..k]) * 10 + remainder == Unsigned(b[..k])
    {
      var current := remainder * 256 + q[k];
      assert b[..k + 1][..k] == b[..k] && q[k] == b[k];
      ghost var before := q;
      q := q[k := current / 10];
      remainder := current % 10;
      assert q[..k + 1][..k] == before[..k];
    }
    assert q[..|b|] == q && b[..|b|] == b;
  }

  function Digit(d: nat): char
    requires d < 10
  {
    '0' + d as char
  }

  lemma {:induction false} NumeralCons(c: char, s: string)
    requires IsDigit(c) && AllDigits(s)
    ensures AllDigits([c] + s) && Numeral([c] + s) == (c - '0') as int * Pow10(|s|) + Numeral(s)
  {
    if s == [] {
      assert [c] + s == [c] && [c][..0] == [];
    } else {
      var shorter := s[..|s| - 1];
      NumeralCons(c, shorter);
      assert ([c] + s)[..|s|] == [c] + shorter;
      Tens((c - '0') as int, Pow10(|shorter|), Numeral(shorter));
    }
  }

  lemma Tens(x: nat, p: nat, n: nat)
    ensures (x * p + n) * 10 == x * (10 * p) + n * 10
  {
  }

  function Pow10(n: nat): (r: nat)
    ensures r > 0
  {
    if n == 0 then 1 else 10 * Pow10(n - 1)
  }

  // Digits of a number, most significant first, with no leading zero.
  method Decimals(b: Bytes) returns (digits: string)
    requires Unsigned(b) > 0
    ensures AllDigits(digits) && digits != [] && digits[0] != '0' && Numeral(digits) == Unsigned(b)
  {
    var value := b;
    digits := [];
    while exists k :: 0 <= k < |value| && value[k] != 0
      invariant AllDigits(digits)
      invariant Unsigned(value) * Pow10(|digits|) + Numeral(digits) == Unsigned(b)
      invariant Unsigned(value) == 0 ==> digits != [] && digits[0] != '0'
      decreases Unsigned(value)
    {
      AllZero(value);
      var q, remainder := DivideByTen(value);
      NumeralCons(Digit(remainder), digits);
      DigitOut(Unsigned(value), Unsigned(q), remainder, Pow10(|digits|));
      digits := [Digit(remainder)] + digits;
      value := q;
    }
    AllZero(value);
  }

  lemma DigitOut(v: nat, q: nat, r: nat, p: nat)
    requires v == q * 10 + r
    ensures v * p == q * (10 * p) + r * p
  {
    Spread(q * 10, r, p);
    assert q * 10 * p == q * (10 * p);
  }

  // Canonical bytes, or any others, to decimal text.
  method Decode(b: Bytes) returns (s: string)
    ensures Canonical(s) && ValueOf(s) == Signed(b)
  {
    AllZero(b);
    if forall k :: 0 <= k < |b| ==> b[k] == 0 {
      NumeralCons('0', []);
      return "0";
    }
    var negative, value := b[0] >= 128, b;
    if negative {
      ComplementIs(b);
      value := Complement(b);
      value := Increment(value);
      UnsignedBound(b);
    }
    var digits := Decimals(value);
    if negative {
      digits := ['-'] + digits;
      assert digits[1..] == Unminus(digits);
    }
    s := digits;
  }

  // --- Round trips ---

  lemma {:induction false} NumeralBound(s: string)
    requires AllDigits(s)
    ensures Numeral(s) < Pow10(|s|)
  {
    if s != [] {
      NumeralBound(s[..|s| - 1]);
    }
  }

  lemma NumeralLow(s: string)
    requires AllDigits(s) && s != [] && s[0] != '0'
    ensures Numeral(s) >= Pow10(|s| - 1)
  {
    assert s == [s[0]] + s[1..];
    assert AllDigits(s[1..]);
    NumeralCons(s[0], s[1..]);
    var d, p := (s[0] - '0') as int, Pow10(|s| - 1);
    Monotone(1, d, p);
  }

  lemma {:induction false} NumeralInjective(s: string, t: string)
    requires AllDigits(s) && AllDigits(t) && |s| == |t| && Numeral(s) == Numeral(t)
    ensures s == t
  {
    if s != [] {
      NumeralInjective(s[..|s| - 1], t[..|t| - 1]);
      assert s == s[..|s| - 1] + [s[|s| - 1]] && t == t[..|t| - 1] + [t[|t| - 1]];
    }
  }

  lemma {:induction false} Pow10Grows(m: nat, n: nat)
    ensures m <= n ==> Pow10(m) <= Pow10(n)
  {
    if m < n {
      Pow10Grows(m, n - 1);
    }
  }

  lemma OneNumeral(s: string, t: string)
    requires AllDigits(s) && AllDigits(t) && s != [] && t != [] && s[0] != '0' && t[0] != '0'
    requires Numeral(s) == Numeral(t)
    ensures s == t
  {
    NumeralBound(s);
    NumeralBound(t);
    NumeralLow(s);
    NumeralLow(t);
    Pow10Grows(|s|, |t| - 1);
    Pow10Grows(|t|, |s| - 1);
    NumeralInjective(s, t);
  }

  // A number has one canonical spelling.
  lemma OneSpelling(s: string, t: string)
    requires Canonical(s) && Canonical(t) && ValueOf(s) == ValueOf(t)
    ensures s == t
  {
    Sign(s);
    Sign(t);
    if ValueOf(s) != 0 {
      OneNumeral(Unminus(s), Unminus(t));
      assert s[0] == '-' ==> s == ['-'] + Unminus(s);
      assert t[0] == '-' ==> t == ['-'] + Unminus(t);
    }
  }

  lemma Sign(s: string)
    requires Canonical(s)
    ensures ValueOf(s) == 0 <==> s == "0"
    ensures ValueOf(s) < 0 <==> s[0] == '-'
  {
    if s == "0" {
      assert "0"[..0] == [];
    } else {
      NumeralLow(Unminus(s));
    }
  }

  // Leading zeros and minus zero normalised.
  function Normal(s: string): string
    requires IsDecimal(s)
  {
    var digits := Stripped(Unminus(s));
    if digits == [] then "0" else if s[0] == '-' then ['-'] + digits else digits
  }

  function Stripped(digits: string): string {
    if digits != [] && digits[0] == '0' then Stripped(digits[1..]) else digits
  }

  lemma {:induction false} StrippedSame(digits: string)
    requires AllDigits(digits)
    ensures AllDigits(Stripped(digits)) && Numeral(Stripped(digits)) == Numeral(digits)
    ensures Stripped(digits) != [] ==> Stripped(digits)[0] != '0'
  {
    if digits != [] && digits[0] == '0' {
      assert digits == [digits[0]] + digits[1..];
      assert AllDigits(digits[1..]);
      NumeralCons('0', digits[1..]);
      StrippedSame(digits[1..]);
    }
  }

  lemma NormalSame(s: string)
    requires IsDecimal(s)
    ensures Canonical(Normal(s)) && ValueOf(Normal(s)) == ValueOf(s)
  {
    StrippedSame(Unminus(s));
    var digits := Stripped(Unminus(s));
    if digits == [] {
      assert "0"[..0] == [];
    } else if s[0] == '-' {
      assert Unminus(['-'] + digits) == digits;
    }
  }

  // Encoding and decoding gives the text back, normalised.
  method TextRoundTrip(s: string) returns (t: string)
    requires IsDecimal(s)
    ensures t == Normal(s)
  {
    var b := Encode(s);
    t := Decode(b.value);
    NormalSame(s);
    OneSpelling(t, Normal(s));
  }

  // Decoding and encoding gives the shortest bytes for the same number, whatever bytes those were.
  method BytesRoundTrip(b: Bytes) returns (c: Bytes)
    ensures Minimal(c) && Signed(c) == Signed(b) && |c| <= |b|
    ensures Minimal(b) ==> c == b
  {
    var s := Decode(b);
    var r := Encode(s);
    c := r.value;
    MinimalIsShortest(c, b);
    if Minimal(b) {
      OneEncoding(c, b);
    }
  }
}
