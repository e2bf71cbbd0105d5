/** Which texts are read as which PID, said without either machine: the base32 half is one number written in
    base 32 and in base 256, and an allocated payload is three numbers in groups of seven bits. So a PID has
    one spelling in plain letters except for a spare zero digit and overlong numbers, which are read as well
    (crates/borg-core/src/pid.rs). */
module PidSpelling {
  import opened Core
  import opened PidText

  // --- Base 32 as a number ---

  // The number some digits denote, the first the highest; and some bytes.
  function Base32(digits: seq<Five>): nat {
    if digits == [] then 0 else 32 * Base32(digits[..|digits| - 1]) + digits[|digits| - 1]
  }

  function Base256(bytes: Bytes): nat {
    if bytes == [] then 0 else 256 * Base256(bytes[..|bytes| - 1]) + bytes[|bytes| - 1]
  }

  lemma Base256Next(bytes: Bytes, longer: Bytes)
    requires |longer| == |bytes| + 1 && longer[..|bytes|] == bytes
    ensures Base256(longer) == 256 * Base256(bytes) + longer[|bytes|]
  {
  }

  lemma Shifted(b: nat, w: nat, w': nat, low: nat)
    requires w' > 0
    ensures w == 32 * w' ==> b * w == 32 * (b * w')
    ensures w == 8 * w' ==> (256 * b + low / w') * w' + low % w' == 32 * (b * w) + low
  {
    if w == 8 * w' {
      DivMod(low, w');
      Distribute(256 * b, low / w', w');
      assert b * (8 * w') == 8 * (b * w');
    }
  }

  lemma Base32Next(digits: seq<Five>, digit: Five)
    ensures Base32(digits + [digit]) == 32 * Base32(digits) + digit
  {
    assert (digits + [digit])[..|digits|] == digits;
  }

  // What a decoder holds, as a number.
  function Held(d: Dec): nat {
    Base256(d.out) * Pow2(d.bits) + d.acc % Pow2(d.bits)
  }

  lemma OneFed(d: Dec, digit: Five)
    requires d.bits <= 7
    ensures var after := Feed(d, digit);
            after.bits <= 7 && 8 * |after.out| + after.bits == 8 * |d.out| + d.bits + 5 && Held(after) == 32 * Held(d) + digit
  {
    hide Feed, Base256;
    var w, after := Pow2(d.bits), Feed(d, digit);
    if d.bits < 3 {
      FedPending(d, digit);
      Pow2Sum(d.bits, 5);
      Powers();
      Shifted(Base256(d.out), Pow2(d.bits + 5), w, 0);
    } else {
      FedByte(d, digit);
      Pow2Sum(d.bits - 3, 3);
      Powers();
      Base256Next(d.out, after.out);
      Shifted(Base256(d.out), w, Pow2(d.bits - 3), (d.acc % w) * 32 + digit);
    }
  }

  // The digits fed and the bytes out, with what still waits, are one number.
  lemma {:induction false} FedIsTheNumber(digits: seq<Five>)
    ensures var d := FeedAll(digits); d.bits <= 7 && 8 * |d.out| + d.bits == 5 * |digits| && Held(d) == Base32(digits)
  {
    if digits == [] {
      Powers();
    } else {
      FedIsTheNumber(digits[..|digits| - 1]);
      OneFed(FeedAll(digits[..|digits| - 1]), digits[|digits| - 1]);
    }
  }

  lemma {:induction false} Base32Injective(a: seq<Five>, b: seq<Five>)
    requires |a| == |b| && Base32(a) == Base32(b)
    ensures a == b
  {
    if a != [] {
      var n := |a| - 1;
      Base32Injective(a[..n], b[..n]);
      assert a == a[..n] + [a[n]] && b == b[..n] + [b[n]];
    }
  }

  lemma {:induction false} Base256Injective(a: Bytes, b: Bytes)
    requires |a| == |b| && Base256(a) == Base256(b)
    ensures a == b
  {
    if a != [] {
      var n := |a| - 1;
      Base256Injective(a[..n], b[..n]);
      assert a == a[..n] + [a[n]] && b == b[..n] + [b[n]];
    }
  }

  // The digits are the bytes: the same number, shifted by fewer than eight zero bits.
  ghost predicate SameNumber(digits: seq<Five>, bytes: Bytes) {
    && 0 <= 5 * |digits| - 8 * |bytes| < 8
    && Base32(digits) == Base256(bytes) * Pow2(5 * |digits| - 8 * |bytes|)
  }

  lemma NoWaiting(b: nat, c: nat, w: nat, low: nat)
    requires b * w + low == c * w && low < w
    ensures b == c && low == 0
  {
    Minus(c, b, w);
    Away(c - b, w);
  }

  // Decoded is what has that number, where the length is one a PID can have.
  lemma DecodedWhen(digits: seq<Five>, bytes: Bytes)
    ensures Decoded(digits) == Some(bytes) <==> SameNumber(digits, bytes) && (|bytes| <= 25 || |bytes| == 32)
  {
    hide FeedAll, Base32, Base256, Pow2;
    FedIsTheNumber(digits);
    var d := FeedAll(digits);
    if SameNumber(digits, bytes) {
      assert |bytes| == |d.out|;
      NoWaiting(Base256(d.out), Base256(bytes), Pow2(d.bits), d.acc % Pow2(d.bits));
      Base256Injective(bytes, d.out);
    }
  }

  lemma {:induction false} EncodedLength(bytes: Bytes)
    ensures EncodeFrom(bytes).bits <= 4 && 5 * |EncodeFrom(bytes).digits| + EncodeFrom(bytes).bits == 8 * |bytes|
  {
    hide Pow2, DigitOf, Push, Drain;
    if bytes != [] {
      var e := EncodeFrom(bytes[..|bytes| - 1]);
      EncodedLength(bytes[..|bytes| - 1]);
      Drained(e, Push(e.acc, bytes[|bytes| - 1]));
    }
  }

  // Encoded is that number too, in as few digits as hold it.
  lemma EncodedIsTheNumber(bytes: Bytes)
    requires |bytes| <= 25 || |bytes| == 32
    ensures SameNumber(Encoded(bytes), bytes) && 5 * |Encoded(bytes)| - 8 * |bytes| < 5
  {
    hide Pow2, Decoded, EncodeFrom, Base32, Base256;
    Base32RoundTrip(bytes);
    DecodedWhen(Encoded(bytes), bytes);
    EncodedLength(bytes);
  }

  // So one more digit is all that ever tells two texts of the same bytes apart.
  lemma EncodedWhen(digits: seq<Five>, bytes: Bytes)
    requires Decoded(digits) == Some(bytes)
    ensures digits == Encoded(bytes) <==> 5 * |digits| % 8 < 5
  {
    hide Pow2, Decoded, Encoded, Base32, Base256;
    DecodedWhen(digits, bytes);
    EncodedIsTheNumber(bytes);
    assert 5 * |digits| % 8 == 5 * |digits| - 8 * |bytes|;
    if |digits| == |Encoded(bytes)| {
      Base32Injective(digits, Encoded(bytes));
    }
  }

  // --- Numbers in groups of seven bits ---

  // The low group first.
  function Groups(bytes: Bytes): nat {
    if bytes == [] then 0 else bytes[0] as int % 128 + 128 * Groups(bytes[1..])
  }

  // One number: a top bit on every byte but the last.
  predicate Framed(bytes: Bytes) {
    bytes != [] && bytes[|bytes| - 1] < 128 && forall k :: 0 <= k < |bytes| - 1 ==> bytes[k] >= 128
  }

  // A number goes on into a group that adds nothing to it.
  predicate Overlong(bytes: Bytes) {
    exists k :: 0 <= k < |bytes| - 1 && bytes[k] >= 128 && bytes[k + 1] == 0
  }

  lemma FramedRest(bytes: Bytes)
    requires |bytes| > 1
    ensures Framed(bytes) <==> bytes[0] >= 128 && Framed(bytes[1..])
    ensures Overlong(bytes) <==> (bytes[0] >= 128 && bytes[1] == 0) || Overlong(bytes[1..])
  {
    var rest := bytes[1..];
    assert forall k :: 0 <= k < |rest| ==> rest[k] == bytes[k + 1];
    if bytes[0] >= 128 && Framed(rest) {
      assert forall k :: 0 < k < |bytes| ==> bytes[k] == rest[k - 1];
    }
    if k :| 0 <= k < |bytes| - 1 && bytes[k] >= 128 && bytes[k + 1] == 0 && k > 0 {
      assert rest[k - 1] >= 128 && rest[k - 1 + 1] == 0;
    }
    if k :| 0 <= k < |rest| - 1 && rest[k] >= 128 && rest[k + 1] == 0 {
      assert bytes[k + 1] >= 128 && bytes[k + 1 + 1] == 0;
    }
  }

  lemma {:induction false} VarintIs(value: nat)
    ensures Framed(Varint(value)) && Groups(Varint(value)) == value && !Overlong(Varint(value))
    ensures value > 0 ==> Varint(value)[|Varint(value)| - 1] != 0
  {
    if value >= 128 {
      VarintIs(value / 128);
      FramedRest(Varint(value));
      assert Varint(value)[1..] == Varint(value / 128);
    }
  }

  lemma {:induction false} OneVarint(bytes: Bytes)
    requires Framed(bytes) && !Overlong(bytes)
    ensures bytes == Varint(Groups(bytes)) && (Groups(bytes) == 0 ==> bytes == [0])
  {
    if |bytes| == 1 {
      assert bytes[1..] == [];
    } else {
      FramedRest(bytes);
      OneVarint(bytes[1..]);
      assert Groups(bytes) / 128 == Groups(bytes[1..]) && Groups(bytes) % 128 == bytes[0] as int % 128;
      assert bytes == [bytes[0]] + bytes[1..];
    }
  }

  lemma TookOne(bytes: Bytes, group: nat, value: nat)
    requires TakeFrom(bytes, group, value).Some?
    ensures bytes != [] && group <= 9
    ensures var value' := value + (bytes[0] as int % 128) * Pow128(group);
            TakeFrom(bytes, group, value) == if bytes[0] < 128 then Some((value', bytes[1..])) else TakeFrom(bytes[1..], group + 1, value')
  {
    hide Pow128;
  }

  lemma GroupsFirst(bytes: Bytes)
    requires bytes != []
    ensures Groups(bytes) == bytes[0] as int % 128 + 128 * Groups(bytes[1..])
  {
  }

  lemma Times128(high: nat, p: nat)
    ensures 128 * high * p == high * (128 * p)
  {
  }

  lemma PartTimes(part: nat, high: nat, p: nat, q: nat)
    requires q == 128 * p
    ensures (part + 128 * high) * p == part * p + high * q && part * p >= 0 && high * q >= 0
  {
    Distribute(part, 128 * high, p);
    Times128(high, p);
    NotNegative(part, p);
    NotNegative(high, q);
  }

  lemma GroupsTimes(bytes: Bytes, p: nat, q: nat)
    requires bytes != [] && q == 128 * p
    ensures var part, high := bytes[0] as int % 128, Groups(bytes[1..]);
            Groups(bytes) * p == part * p + high * q && part * p >= 0 && high * q >= 0
  {
    hide Groups;
    GroupsFirst(bytes);
    PartTimes(bytes[0] as int % 128, Groups(bytes[1..]), p, q);
  }

  lemma GroupsOfOne(bytes: Bytes)
    requires |bytes| == 1
    ensures Groups(bytes) == bytes[0] as int % 128 && (Framed(bytes) <==> bytes[0] < 128)
  {
    assert bytes[1..] == [];
  }

  // A number that is taken was framed, and is what its groups say.
  lemma {:induction false} TakenIs(bytes: Bytes, group: nat, value: nat) returns (n: nat)
    requires TakeFrom(bytes, group, value).Some?
    ensures 0 < n <= |bytes| && n + group <= 10 && Framed(bytes[..n])
    ensures TakeFrom(bytes, group, value) == Some((value + Groups(bytes[..n]) * Pow128(group), bytes[n..]))
    decreases |bytes|
  {
    hide Pow128, TakeFrom, Framed, Groups;
    TookOne(bytes, group, value);
    if bytes[0] < 128 {
      n := 1;
      GroupsOfOne(bytes[..1]);
    } else {
      var n' := TakenIs(bytes[1..], group + 1, value + (bytes[0] as int % 128) * Pow128(group));
      n := n' + 1;
      assert bytes[..n][1..] == bytes[1..][..n'];
      FramedRest(bytes[..n]);
      NextPower(group);
      GroupsTimes(bytes[..n], Pow128(group), Pow128(group + 1));
      assert bytes[1..][n'..] == bytes[n..];
    }
  }

  lemma FramedNext(bytes: Bytes, rest: Bytes, group: nat, value: nat)
    requires Framed(bytes) && |bytes| + group <= 10 && value + Groups(bytes) * Pow128(group) < U64_LIMIT
    ensures var value' := value + (bytes[0] as int % 128) * Pow128(group);
            && value' + Groups(bytes[1..]) * Pow128(group + 1) == value + Groups(bytes) * Pow128(group)
            && TakeFrom(bytes + rest, group, value) ==
               if bytes[0] < 128 then Some((value', bytes[1..] + rest)) else TakeFrom(bytes[1..] + rest, group + 1, value')
  {
    hide Pow128, TakeFrom, Groups;
    NextPower(group);
    GroupsTimes(bytes, Pow128(group), Pow128(group + 1));
    assert bytes + rest == [bytes[0]] + (bytes[1..] + rest);
    TakeOne(bytes[0], bytes[1..] + rest, group, value);
  }

  // And every framed number of ten groups at most that fits is taken, overlong or not.
  lemma {:induction false} FramedIsTaken(bytes: Bytes, rest: Bytes, group: nat, value: nat)
    requires Framed(bytes) && |bytes| + group <= 10 && value + Groups(bytes) * Pow128(group) < U64_LIMIT
    ensures TakeFrom(bytes + rest, group, value) == Some((value + Groups(bytes) * Pow128(group), rest))
    decreases |bytes|
  {
    hide Pow128, TakeFrom;
    FramedNext(bytes, rest, group, value);
    if |bytes| == 1 {
      GroupsOfOne(bytes);
      assert bytes[1..] == [] && bytes[1..] + rest == rest;
    } else {
      FramedRest(bytes);
      FramedIsTaken(bytes[1..], rest, group + 1, value + (bytes[0] as int % 128) * Pow128(group));
    }
  }

  // --- Three numbers ---

  predicate IsNumber(bytes: Bytes, n: nat) {
    Framed(bytes) && |bytes| <= 10 && Groups(bytes) == n
  }

  predicate SplitsAt(bytes: Bytes, i: nat, j: nat, branch: nat, allocator: nat, counter: nat) {
    i <= j <= |bytes| && IsNumber(bytes[..i], branch) && IsNumber(bytes[i..j], allocator) && IsNumber(bytes[j..], counter)
  }

  ghost predicate ThreeNumbers(bytes: Bytes, branch: nat, allocator: nat, counter: nat) {
    exists i: nat, j: nat :: SplitsAt(bytes, i, j, branch, allocator, counter)
  }

  lemma AllocatedMeans(kind: PidKind, bytes: Bytes) returns (i: nat, j: nat)
    requires AllocatedFrom(kind, bytes).Some?
    ensures var p := AllocatedFrom(kind, bytes).value;
            p.Allocated? && p.kind == kind && SplitsAt(bytes, i, j, p.branch, p.allocator, p.counter)
  {
    hide TakeFrom, Framed, Groups;
    assert Pow128(0) == 1;
    i := TakenIs(bytes, 0, 0);
    var after := bytes[i..];
    var n := TakenIs(after, 0, 0);
    j := i + n;
    assert after[..n] == bytes[i..j] && after[n..] == bytes[j..];
    n := TakenIs(bytes[j..], 0, 0);
    assert bytes[j..][..n] == bytes[j..];
  }

  lemma AllocatedIsRead(kind: PidKind, bytes: Bytes, i: nat, j: nat, branch: u64, allocator: u32, counter: u64)
    requires SplitsAt(bytes, i, j, branch, allocator, counter)
    ensures AllocatedFrom(kind, bytes) == Some(Allocated(kind, branch, allocator, counter))
  {
    hide TakeFrom, Framed, Groups;
    assert Pow128(0) == 1;
    FramedIsTaken(bytes[..i], bytes[i..], 0, 0);
    FramedIsTaken(bytes[i..j], bytes[j..], 0, 0);
    FramedIsTaken(bytes[j..], [], 0, 0);
    assert bytes == bytes[..i] + bytes[i..] && bytes[i..] == bytes[i..j] + bytes[j..] && bytes[j..] == bytes[j..] + [];
  }

  lemma AllocatedWhen(kind: PidKind, bytes: Bytes, p: Pid)
    ensures AllocatedFrom(kind, bytes) == Some(p) <==>
            p.Allocated? && p.kind == kind && ThreeNumbers(bytes, p.branch, p.allocator, p.counter)
  {
    hide AllocatedFrom, SplitsAt;
    if AllocatedFrom(kind, bytes).Some? {
      var i, j := AllocatedMeans(kind, bytes);
    }
    if p.Allocated? && p.kind == kind {
      if i: nat, j: nat :| SplitsAt(bytes, i, j, p.branch, p.allocator, p.counter) {
        AllocatedIsRead(kind, bytes, i, j, p.branch, p.allocator, p.counter);
      }
    }
  }

  lemma OverlongParts(a: Bytes, b: Bytes)
    requires a != [] && a[|a| - 1] < 128
    ensures Overlong(a + b) <==> Overlong(a) || Overlong(b)
  {
    var c := a + b;
    if k :| 0 <= k < |c| - 1 && c[k] >= 128 && c[k + 1] == 0 {
      if k < |a| {
        assert a[k] >= 128 && a[k + 1] == 0;
      } else {
        assert b[k - |a|] >= 128 && b[k - |a| + 1] == 0;
      }
    }
    if k :| 0 <= k < |a| - 1 && a[k] >= 128 && a[k + 1] == 0 {
      assert c[k] >= 128 && c[k + 1] == 0;
    }
    if k :| 0 <= k < |b| - 1 && b[k] >= 128 && b[k + 1] == 0 {
      assert c[|a| + k] >= 128 && c[|a| + k + 1] == 0;
    }
  }

  lemma PartsOverlong(bytes: Bytes, i: nat, j: nat)
    requires i <= j <= |bytes| && Framed(bytes[..i]) && Framed(bytes[i..j])
    ensures Overlong(bytes) <==> Overlong(bytes[..i]) || Overlong(bytes[i..j]) || Overlong(bytes[j..])
  {
    hide Overlong;
    assert bytes == bytes[..i] + bytes[i..] && bytes[i..] == bytes[i..j] + bytes[j..];
    OverlongParts(bytes[..i], bytes[i..]);
    OverlongParts(bytes[i..j], bytes[j..]);
  }

  lemma TidyPart(bytes: Bytes, n: nat)
    requires IsNumber(bytes, n) && !Overlong(bytes)
    ensures bytes == Varint(n)
  {
    hide Overlong, Varint;
    OneVarint(bytes);
  }

  lemma TidyParts(bytes: Bytes, i: nat, j: nat, branch: nat, allocator: nat, counter: nat)
    requires SplitsAt(bytes, i, j, branch, allocator, counter) && !Overlong(bytes)
    ensures bytes == Varint(branch) + Varint(allocator) + Varint(counter)
  {
    hide Overlong, Groups, Varint;
    PartsOverlong(bytes, i, j);
    TidyPart(bytes[..i], branch);
    TidyPart(bytes[i..j], allocator);
    TidyPart(bytes[j..], counter);
    assert bytes == bytes[..i] + bytes[i..j] + bytes[j..];
  }

  // A payload is the one written exactly when none of its numbers goes on for nothing.
  lemma PayloadWhen(kind: PidKind, bytes: Bytes)
    requires AllocatedFrom(kind, bytes).Some?
    ensures Payload(AllocatedFrom(kind, bytes).value) == bytes <==> !Overlong(bytes)
  {
    hide AllocatedFrom, Overlong, SplitsAt, Varint;
    var p := AllocatedFrom(kind, bytes).value;
    var i, j := AllocatedMeans(kind, bytes);
    if !Overlong(bytes) {
      TidyParts(bytes, i, j, p.branch, p.allocator, p.counter);
    }
    PayloadIsTidy(p);
  }

  lemma PayloadIsTidy(p: Pid)
    requires p.Allocated?
    ensures !Overlong(Payload(p))
  {
    hide Overlong;
    var a, b, c := Varint(p.branch), Varint(p.allocator), Varint(p.counter);
    VarintIs(p.branch);
    VarintIs(p.allocator);
    VarintIs(p.counter);
    assert Payload(p) == a + (b + c);
    OverlongParts(a, b + c);
    OverlongParts(b, c);
  }

  // --- Characters ---

  lemma LowAlphabet(v: Five)
    requires v < 16
    ensures DigitAt(v) == if v < 10 then '0' + v as char else 'a' + (v - 10) as char
  {
  }

  lemma HighAlphabet(v: Five)
    requires v >= 16
    ensures DigitAt(v) == if v < 18 then 'a' + (v - 10) as char else if v < 20 then 'j' + (v - 18) as char
                          else if v < 22 then 'm' + (v - 20) as char else if v < 27 then 'p' + (v - 22) as char
                          else 'v' + (v - 27) as char
  {
  }

  lemma EitherAlphabet(v: Five)
    ensures DigitAt(v) == if v < 10 then '0' + v as char else if v < 18 then 'a' + (v - 10) as char
                          else if v < 20 then 'j' + (v - 18) as char else if v < 22 then 'm' + (v - 20) as char
                          else if v < 27 then 'p' + (v - 22) as char else 'v' + (v - 27) as char
  {
    hide DigitAt;
    if v < 16 {
      LowAlphabet(v);
    } else {
      HighAlphabet(v);
    }
  }

  // The digits are the decimal ones and the lower-case letters but for i, l, o and u, in order.
  lemma AlphabetIs(v: Five, w: Five)
    ensures v < w ==> DigitAt(v) < DigitAt(w)
    ensures '0' <= DigitAt(v) <= '9' || ('a' <= DigitAt(v) <= 'z' && DigitAt(v) !in "ilou")
  {
    hide DigitAt;
    EitherAlphabet(v);
    EitherAlphabet(w);
  }

  // The same letter in either case.
  predicate EitherCase(c: char, lower: char) {
    c == lower || ('A' <= c <= 'Z' && lower == c + 32 as char)
  }

  // A character is taken for a digit: itself in either case, or what it is easily mistaken for.
  predicate TakenFor(c: char, v: Five) {
    EitherCase(c, DigitAt(v)) || (v == 0 && c in "oO") || (v == 1 && c in "iIlL")
  }

  lemma DigitWhen(c: char, v: Five)
    ensures DigitValue(c) == Some(v) <==> TakenFor(c, v)
  {
    hide DigitAt;
    EitherAlphabet(v);
  }

  lemma {:induction false} DigitsWhen(text: string, digits: seq<Five>)
    ensures Digits(text) == Some(digits) <==> |digits| == |text| && forall k :: 0 <= k < |text| ==> TakenFor(text[k], digits[k])
  {
    hide TakenFor, DigitValue;
    if text != "" && digits != [] {
      var n, m := |text| - 1, |digits| - 1;
      DigitsWhen(text[..n], digits[..m]);
      DigitWhen(text[n], digits[m]);
      assert digits == digits[..m] + [digits[m]];
    }
  }

  // --- Texts ---

  // The bytes a text of digits stands for, whatever the case and the look-alikes.
  ghost predicate StandsFor(text: string, bytes: Bytes) {
    exists digits: seq<Five> :: DigitsAre(text, digits) && SameNumber(digits, bytes)
  }

  predicate DigitsAre(text: string, digits: seq<Five>) {
    |digits| == |text| && forall k :: 0 <= k < |text| ==> TakenFor(text[k], digits[k])
  }

  // A hash in full, or three numbers.
  ghost predicate Holds(bytes: Bytes, p: Pid) {
    match p
    case Content(_, hash) => hash == bytes && |bytes| == 32
    case Allocated(_, branch, allocator, counter) => |bytes| <= 25 && ThreeNumbers(bytes, branch, allocator, counter)
  }

  // A letter for each kind, in either case.
  predicate IsLetterOf(c: char, kind: PidKind) {
    match kind
    case Object => c in "oO"
    case List => c in "lL"
    case Any => c in "aA"
    case AnyObject => c in "jJ"
    case AnyArray => c in "yY"
    case AnyNumber => c in "mM"
    case String => c in "sS"
    case Binary => c in "bB"
    case BigInt => c in "nN"
  }

  ghost predicate Spells(text: string, p: Pid) {
    && |text| >= 2 && IsLetterOf(text[0], p.kind) && text[1] == '-'
    && exists bytes :: StandsFor(text[2..], bytes) && Holds(bytes, p)
  }

  lemma LetterWhen(c: char, kind: PidKind)
    ensures FromLetter(c) == Some(kind) <==> IsLetterOf(c, kind)
    ensures FromLetter(c).Some? ==> c != '-'
    ensures IsLetterOf(Letter(kind), kind)
  {
  }

  lemma HyphenSecond(text: string)
    ensures Hyphen(text) == 1 && |text| > 1 <==> |text| > 1 && text[0] != '-' && text[1] == '-'
  {
    if |text| > 1 {
      assert text[1..][0] == text[1];
    }
  }

  lemma UnpackedWhen(kind: PidKind, bytes: Bytes, p: Pid)
    requires |bytes| <= 25 || |bytes| == 32
    ensures Unpacked(kind, bytes) == Some(p) <==> p.kind == kind && Holds(bytes, p)
  {
    hide AllocatedFrom, ThreeNumbers;
    AllocatedWhen(kind, bytes, p);
  }

  lemma HeldLength(bytes: Bytes, p: Pid)
    requires Holds(bytes, p)
    ensures |bytes| <= 25 || |bytes| == 32
  {
  }

  // Exactly the texts that spell a PID are read as it; any other is refused.
  lemma ReadsWhen(text: string, p: Pid)
    ensures Parse(text) == Some(p) <==> Spells(text, p)
  {
    hide Hyphen, Digits, Decoded, FromLetter, Unpacked, Holds, SameNumber, DigitsAre, IsLetterOf;
    HyphenSecond(text);
    if |text| >= 2 {
      LetterWhen(text[0], p.kind);
      if Parse(text) == Some(p) {
        var digits := Digits(text[2..]).value;
        var bytes := Decoded(digits).value;
        LetterWhen(text[0], FromLetter(text[0]).value);
        DigitsAgree(text[2..], digits);
        DecodedWhen(digits, bytes);
        UnpackedWhen(FromLetter(text[0]).value, bytes, p);
      }
      if Spells(text, p) {
        var bytes :| StandsFor(text[2..], bytes) && Holds(bytes, p);
        var digits: seq<Five> :| DigitsAre(text[2..], digits) && SameNumber(digits, bytes);
        HeldLength(bytes, p);
        DigitsAgree(text[2..], digits);
        DecodedWhen(digits, bytes);
        UnpackedWhen(p.kind, bytes, p);
      }
    }
  }

  lemma DigitsAgree(text: string, digits: seq<Five>)
    ensures Digits(text) == Some(digits) <==> DigitsAre(text, digits)
  {
    DigitsWhen(text, digits);
  }

  // --- How many spellings ---

  // As it would be written: lower case, and no look-alikes.
  predicate Plain(text: string) {
    forall k :: 0 <= k < |text| && k != 1 ==> !('A' <= text[k] <= 'Z') && (k > 0 ==> text[k] !in "ilo")
  }

  // The bytes a text that is read holds.
  function BytesOf(text: string): Bytes
    requires Parse(text).Some?
  {
    Decoded(Digits(text[Hyphen(text) + 1..]).value).value
  }

  lemma PlainChars(text: string, digits: seq<Five>)
    requires DigitsAre(text, digits)
    ensures text == Chars(digits) <==> forall k :: 0 <= k < |text| ==> !('A' <= text[k] <= 'Z') && text[k] !in "ilo"
  {
    hide DigitAt;
    forall k | 0 <= k < |text|
      ensures text[k] == DigitAt(digits[k]) <==> !('A' <= text[k] <= 'Z') && text[k] !in "ilo"
    {
      AlphabetIs(digits[k], digits[k]);
      assert TakenFor(text[k], digits[k]);
    }
    if text == Chars(digits) {
      assert forall k :: 0 <= k < |text| ==> text[k] == DigitAt(digits[k]);
    }
  }

  lemma LetterIsPlain(c: char, kind: PidKind)
    requires IsLetterOf(c, kind)
    ensures c == Letter(kind) <==> !('A' <= c <= 'Z')
  {
  }

  // What was unpacked is what was packed, unless a number was overlong.
  lemma PackedWhen(kind: PidKind, bytes: Bytes, p: Pid)
    requires Unpacked(kind, bytes) == Some(p)
    ensures Payload(p) == bytes <==> |bytes| == 32 || !Overlong(bytes)
  {
    hide Overlong, AllocatedFrom;
    if |bytes| != 32 {
      PayloadWhen(kind, bytes);
    }
  }

  lemma WrittenPayload(p: Pid, kind: PidKind, bytes: Bytes)
    requires Unpacked(kind, bytes) == Some(p)
    ensures |Payload(p)| <= 25 || |Payload(p)| == 32
  {
    if p.Allocated? {
      AllocatedReadsBack(p.kind, p.branch, p.allocator, p.counter);
    }
  }

  lemma RestWhen(rest: string, digits: seq<Five>, bytes: Bytes, kind: PidKind, p: Pid)
    requires Digits(rest) == Some(digits) && Decoded(digits) == Some(bytes) && Unpacked(kind, bytes) == Some(p)
    ensures Chars(Encoded(Payload(p))) == rest <==>
            && (forall k :: 0 <= k < |rest| ==> !('A' <= rest[k] <= 'Z') && rest[k] !in "ilo")
            && 5 * |rest| % 8 < 5 && (|bytes| == 32 || !Overlong(bytes))
  {
    hide Digits, Decoded, Unpacked, Encoded, Payload, Overlong, Chars;
    DigitsWhen(rest, digits);
    PlainChars(rest, digits);
    EncodedWhen(digits, bytes);
    PackedWhen(kind, bytes, p);
    if Chars(Encoded(Payload(p))) == rest {
      CharsReadBack(Encoded(Payload(p)));
      WrittenPayload(p, kind, bytes);
      Base32RoundTrip(Payload(p));
    }
  }

  // A PID is written one way, and its text read back, but what is read as it is any case, any look-alike, a
  // zero digit to spare and an overlong number as well.
  lemma OneSpellingWhen(text: string)
    requires Parse(text).Some?
    ensures Render(Parse(text).value) == text <==>
            Plain(text) && 5 * (|text| - 2) % 8 < 5 && (|BytesOf(text)| == 32 || !Overlong(BytesOf(text)))
  {
    hide Hyphen, Digits, Decoded, FromLetter, Unpacked, Overlong, Chars, Encoded, Payload, IsLetterOf, Letter;
    HyphenSecond(text);
    var p, rest := Parse(text).value, text[2..];
    var kind, digits := FromLetter(text[0]).value, Digits(rest).value;
    UnpackedKind(kind, BytesOf(text), p);
    LetterWhen(text[0], kind);
    LetterIsPlain(text[0], kind);
    RestWhen(rest, digits, BytesOf(text), kind, p);
    SplitPlain(text);
    assert text == [text[0], '-'] + rest;
    assert Render(p)[2..] == Chars(Encoded(Payload(p)));
  }

  lemma UnpackedKind(kind: PidKind, bytes: Bytes, p: Pid)
    requires Unpacked(kind, bytes) == Some(p)
    ensures p.kind == kind
  {
  }

  lemma SplitPlain(text: string)
    requires |text| >= 2
    ensures Plain(text) <==> !('A' <= text[0] <= 'Z')
                             && forall k :: 0 <= k < |text[2..]| ==> !('A' <= text[2..][k] <= 'Z') && text[2..][k] !in "ilo"
  {
    if forall k :: 0 <= k < |text[2..]| ==> !('A' <= text[2..][k] <= 'Z') && text[2..][k] !in "ilo" {
      assert forall k :: 2 <= k < |text| ==> text[k] == text[2..][k - 2];
    }
  }

  // --- By example ---

  // What is written is the payload's number, in the digits it takes.
  lemma WrittenAs(p: Pid, digits: seq<Five>)
    requires WellFormed(p) && SameNumber(digits, Payload(p)) && 5 * |digits| - 8 * |Payload(p)| < 5
    ensures Render(p) == [Letter(p.kind), '-'] + Chars(digits)
  {
    hide Encoded, Base32, Base256, Pow2;
    if p.Allocated? {
      AllocatedReadsBack(p.kind, p.branch, p.allocator, p.counter);
    }
    EncodedIsTheNumber(Payload(p));
    Base32Injective(digits, Encoded(Payload(p)));
  }

  // Object one hundred of branch 1, and so for every kind.
  lemma KnownText(kind: PidKind)
    ensures Render(Allocated(kind, 1, 0, 100)) == [Letter(kind)] + "-04068"
  {
    var p, digits: seq<Five> := Allocated(kind, 1, 0, 100), [0, 4, 0, 6, 8];
    KnownPayload(kind);
    KnownNumber();
    hide Payload, SameNumber, DigitAt, Letter;
    WrittenAs(p, digits);
    KnownDigits();
  }

  lemma KnownPayload(kind: PidKind)
    ensures Payload(Allocated(kind, 1, 0, 100)) == [1, 0, 100]
  {
  }

  lemma KnownDigits()
    ensures Chars([0, 4, 0, 6, 8]) == "04068"
  {
    assert DigitAt(0) == '0' && DigitAt(4) == '4' && DigitAt(6) == '6' && DigitAt(8) == '8';
  }

  lemma KnownNumber()
    ensures SameNumber([0, 4, 0, 6, 8], [1, 0, 100])
  {
    hide Base32, Base256;
    NumberOfBytes([], 1, 0, 100);
    NumberOfDigits([], 0, 4, 0, 6, 8);
    Nothing();
    Powers();
    assert [] + [1, 0, 100] == [1, 0, 100];
    assert [] + [0, 4, 0, 6, 8] == [0, 4, 0, 6, 8];
  }

  lemma Nothing()
    ensures Base32([]) == 0 && Base256([]) == 0
  {
  }

  lemma NumberOfBytes(before: Bytes, a: Byte, b: Byte, c: Byte)
    ensures Base256(before + [a, b, c]) == 16777216 * Base256(before) + 65536 * a + 256 * b + c
  {
    hide Base256;
    Base256Next(before, before + [a]);
    Base256Next(before + [a], before + [a, b]);
    Base256Next(before + [a, b], before + [a, b, c]);
  }

  lemma NumberOfDigits(before: seq<Five>, a: Five, b: Five, c: Five, d: Five, e: Five)
    ensures Base32(before + [a, b, c, d, e])
            == 33554432 * Base32(before) + 1048576 * a + 32768 * b + 1024 * c + 32 * d + e
  {
    hide Base32;
    Base32Next(before, a);
    Base32Next(before + [a], b);
    Base32Next(before + [a] + [b], c);
    Base32Next(before + [a] + [b] + [c], d);
    Base32Next(before + [a] + [b] + [c] + [d], e);
    assert before + [a] + [b] + [c] + [d] + [e] == before + [a, b, c, d, e];
  }

  lemma IsRead(text: string, p: Pid, digits: seq<Five>, bytes: Bytes)
    requires |text| >= 2 && IsLetterOf(text[0], p.kind) && text[1] == '-' && DigitsAre(text[2..], digits)
    requires SameNumber(digits, bytes) && Holds(bytes, p)
    ensures Parse(text) == Some(p)
  {
    hide Parse, DigitsAre, SameNumber, Holds, IsLetterOf;
    ReadsWhen(text, p);
    assert StandsFor(text[2..], bytes);
  }

  // The first object of all has two more texts: one a digit longer, one with a branch that goes on for nothing.
  lemma MoreSpellings()
    ensures Parse("o-00000") == Parse("o-000000") == Parse("o-g000000") == Some(Allocated(Object, 0, 0, 0))
  {
    hide Parse, DigitsAre, SameNumber, Holds, IsLetterOf;
    var p := Allocated(Object, 0, 0, 0);
    Zeros();
    ZeroTexts();
    ZeroBytes(p);
    IsRead("o-00000", p, [0, 0, 0, 0, 0], [0, 0, 0]);
    IsRead("o-000000", p, [0, 0, 0, 0, 0, 0], [0, 0, 0]);
    IsRead("o-g000000", p, [16, 0, 0, 0, 0, 0, 0], [128, 0, 0, 0]);
  }

  lemma Zeros()
    ensures SameNumber([0, 0, 0, 0, 0], [0, 0, 0]) && SameNumber([0, 0, 0, 0, 0, 0], [0, 0, 0])
    ensures SameNumber([16, 0, 0, 0, 0, 0, 0], [128, 0, 0, 0])
  {
    hide Base32, Base256;
    Nothing();
    Powers();
    NumberOfBytes([], 0, 0, 0);
    Base256Next([], [128]);
    NumberOfBytes([128], 0, 0, 0);
    assert [] + [0, 0, 0] == [0, 0, 0] && [128] + [0, 0, 0] == [128, 0, 0, 0];
    NumberOfDigits([], 0, 0, 0, 0, 0);
    Base32Next([], 0);
    NumberOfDigits([] + [0], 0, 0, 0, 0, 0);
    Base32Next([], 16);
    Base32Next([] + [16], 0);
    NumberOfDigits([] + [16] + [0], 0, 0, 0, 0, 0);
    assert [] + [0, 0, 0, 0, 0] == [0, 0, 0, 0, 0] && [] + [0] + [0, 0, 0, 0, 0] == [0, 0, 0, 0, 0, 0];
    assert [] + [16] + [0] + [0, 0, 0, 0, 0] == [16, 0, 0, 0, 0, 0, 0];
  }

  lemma ZeroTexts()
    ensures DigitsAre("o-00000"[2..], [0, 0, 0, 0, 0]) && DigitsAre("o-000000"[2..], [0, 0, 0, 0, 0, 0])
    ensures DigitsAre("o-g000000"[2..], [16, 0, 0, 0, 0, 0, 0]) && IsLetterOf('o', Object)
  {
    EitherAlphabet(0);
    EitherAlphabet(16);
    hide DigitAt;
  }

  lemma ZeroParts()
    ensures Framed([0]) && Groups([0]) == 0 && Framed([128, 0]) && Groups([128, 0]) == 0
  {
    GroupsOfOne([0]);
    assert [128, 0][1..] == [0];
  }

  lemma ZeroBytes(p: Pid)
    requires p == Allocated(Object, 0, 0, 0)
    ensures Holds([0, 0, 0], p) && Holds([128, 0, 0, 0], p)
  {
    hide Framed, Groups, ThreeNumbers;
    ZeroParts();
    SplitsInto([0], [0], [0]);
    SplitsInto([128, 0], [0], [0]);
    assert [0] + [0] + [0] == [0, 0, 0] && [128, 0] + [0] + [0] == [128, 0, 0, 0];
  }

  lemma SplitsInto(a: Bytes, b: Bytes, c: Bytes)
    requires Framed(a) && Framed(b) && Framed(c) && |a| <= 10 && |b| <= 10 && |c| <= 10
    ensures ThreeNumbers(a + b + c, Groups(a), Groups(b), Groups(c))
  {
    var bytes, i, j := a + b + c, |a|, |a| + |b|;
    assert bytes[..i] == a && bytes[i..j] == b && bytes[j..] == c;
    assert SplitsAt(bytes, i, j, Groups(a), Groups(b), Groups(c));
  }
}
