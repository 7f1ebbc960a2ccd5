/** Ids in the layout of version 7 UUIDs (section 5.7 of RFC 9562), minted in
    string order by a counter under the timestamp (section 6.2, method 1). */
module Uuid {
  type Byte = b: int | 0 <= b < 0x100

  const COUNTER_MAX := 0xFFF
  const COUNTER_RANGE := 0x1000
  const MS_RANGE := 0x1_0000_0000_0000
  const RANDOM_START := 0x800

  // ---------- The clock the minter keeps ----------

  /** The last timestamp used and the counter within it. */
  datatype Clock = Clock(lastMs: int, counter: nat)

  ghost predicate ClockOk(c: Clock) {
    -1 <= c.lastMs && c.counter <= COUNTER_MAX && (c.lastMs == -1 ==> c.counter == 0)
  }

  function Ticked(c: Clock, now: nat, start: nat): Clock {
    if now > c.lastMs then Clock(now, start)
    else if c.counter + 1 > COUNTER_MAX then Clock(c.lastMs + 1, 0)
    else Clock(c.lastMs, c.counter + 1)
  }

  /** Timestamp and counter read as one number. */
  function Value(c: Clock): int {
    c.lastMs * COUNTER_RANGE + c.counter
  }

  /** The value grows with every mint, by exactly one when the clock has not
      advanced. */
  lemma TickGrows(c: Clock, now: nat, start: nat)
    requires ClockOk(c) && start < RANDOM_START
    ensures ClockOk(Ticked(c, now, start)) && Value(c) < Value(Ticked(c, now, start))
    ensures now <= c.lastMs ==> Value(Ticked(c, now, start)) == Value(c) + 1
    ensures now > c.lastMs ==> Value(Ticked(c, now, start)) < now * COUNTER_RANGE + RANDOM_START
  {
  }

  // ---------- Digits ----------

  function Digit(n: nat): char
    requires n < 16
  {
    "0123456789abcdef"[n]
  }

  function Hex(n: nat, digits: nat): (s: string)
    ensures |s| == digits
  {
    if digits == 0 then "" else Hex(n / 16, digits - 1) + [Digit(n % 16)]
  }

  function Two(b: Byte): string {
    [Digit(b / 16), Digit(b % 16)]
  }

  function HexOf(bytes: seq<Byte>): (s: string)
    ensures |s| == 2 * |bytes|
  {
    if bytes == [] then "" else HexOf(bytes[..|bytes| - 1]) + Two(bytes[|bytes| - 1])
  }

  function DigitValue(c: char): nat {
    if '0' <= c <= '9' then c as int - '0' as int else if 'a' <= c <= 'f' then c as int - 'a' as int + 10 else 0
  }

  function Parsed(s: string): nat {
    if s == "" then 0 else Parsed(s[..|s| - 1]) * 16 + DigitValue(s[|s| - 1])
  }

  function Pow16(n: nat): nat {
    if n == 0 then 1 else 16 * Pow16(n - 1)
  }

  lemma {:induction false} ParsedHex(n: nat, digits: nat)
    ensures n < Pow16(digits) ==> Parsed(Hex(n, digits)) == n
  {
    if digits > 0 {
      ParsedHex(n / 16, digits - 1);
      assert Hex(n, digits)[..digits - 1] == Hex(n / 16, digits - 1);
      assert DigitValue(Digit(n % 16)) == n % 16;
    }
  }

  // ---------- String order ----------

  /** One string sorts before another. */
  predicate Less(a: string, b: string) {
    b != "" && (a == "" || a[0] < b[0] || (a[0] == b[0] && Less(a[1..], b[1..])))
  }

  lemma {:induction false} LessAfter(p: string, a: string, b: string)
    requires Less(a, b)
    ensures Less(p + a, p + b)
  {
    if p == "" {
      assert p + a == a && p + b == b;
    } else {
      LessAfter(p[1..], a, b);
      assert (p + a)[1..] == p[1..] + a && (p + b)[1..] == p[1..] + b;
    }
  }

  lemma {:induction false} LessBefore(a: string, b: string, x: string, y: string)
    requires |a| == |b| && Less(a, b)
    ensures Less(a + x, b + y)
  {
    if a[0] == b[0] {
      LessBefore(a[1..], b[1..], x, y);
      assert (a + x)[1..] == a[1..] + x && (b + y)[1..] == b[1..] + y;
    }
  }

  lemma {:induction false} LessTransitive(a: string, b: string, c: string)
    requires Less(a, b) && Less(b, c)
    ensures Less(a, c)
  {
    if a != "" && a[0] == b[0] == c[0] {
      LessTransitive(a[1..], b[1..], c[1..]);
    }
  }

  lemma {:induction false} LessAsymmetric(a: string, b: string)
    requires Less(a, b)
    ensures !Less(b, a)
  {
    if a != "" && a[0] == b[0] {
      LessAsymmetric(a[1..], b[1..]);
    }
  }

  lemma {:induction false} LessSplit(a: string, b: string, at: nat)
    requires |a| == |b| && at <= |a| && Less(a, b)
    ensures if a[..at] == b[..at] then Less(a[at..], b[at..]) else Less(a[..at], b[..at])
    decreases at
  {
    if at > 0 && a[0] == b[0] {
      LessSplit(a[1..], b[1..], at - 1);
      assert a[..at] == [a[0]] + a[1..][..at - 1] && b[..at] == [b[0]] + b[1..][..at - 1];
      assert a[1..][at - 1..] == a[at..] && b[1..][at - 1..] == b[at..];
      assert a[..at][1..] == a[1..][..at - 1] && b[..at][1..] == b[1..][..at - 1];
    }
  }

  /** Putting the same string into both at the same place keeps their order. */
  lemma LessInsert(a: string, b: string, at: nat, s: string)
    requires |a| == |b| && at <= |a| && Less(a, b)
    ensures Less(a[..at] + s + a[at..], b[..at] + s + b[at..])
  {
    LessSplit(a, b, at);
    if a[..at] == b[..at] {
      LessAfter(a[..at] + s, a[at..], b[at..]);
    } else {
      LessBefore(a[..at], b[..at], s + a[at..], s + b[at..]);
      assert a[..at] + s + a[at..] == a[..at] + (s + a[at..]);
      assert b[..at] + s + b[at..] == b[..at] + (s + b[at..]);
    }
  }

  lemma DigitsInOrder(m: nat, n: nat)
    requires m < n < 16
    ensures Digit(m) < Digit(n)
  {
  }

  /** Fixed-width digits sort as the numbers do. */
  lemma {:induction false} HexLess(m: nat, n: nat, digits: nat)
    requires m < n < Pow16(digits)
    ensures Less(Hex(m, digits), Hex(n, digits))
  {
    var a, b := Hex(m / 16, digits - 1), Hex(n / 16, digits - 1);
    if m / 16 < n / 16 {
      HexLess(m / 16, n / 16, digits - 1);
      LessBefore(a, b, [Digit(m % 16)], [Digit(n % 16)]);
    } else {
      assert m % 16 < n % 16;
      DigitsInOrder(m % 16, n % 16);
      LessAfter(a, [Digit(m % 16)], [Digit(n % 16)]);
    }
  }

  // ---------- The id ----------

  /** An id from a timestamp, a counter and ten random bytes, of which the first
      gives its two high bits to the variant. */
  function IdOf(c: Clock, tail: seq<Byte>): (id: string)
    requires c.lastMs >= 0 && |tail| == 8
    ensures |id| == 36
  {
    var h := Hex(c.lastMs, 12);
    h[..8] + "-" + h[8..] + "-" + "7" + Hex(c.counter, 3) + "-"
    + Two(tail[0] % 0x40 + 0x80) + Two(tail[1]) + "-" + HexOf(tail[2..])
  }

  lemma VariantDigit(b: Byte)
    ensures Digit((b % 0x40 + 0x80) / 16) in "89ab"
  {
    assert 8 <= (b % 0x40 + 0x80) / 16 <= 11;
    assert "89ab"[(b % 0x40 + 0x80) / 16 - 8] == Digit((b % 0x40 + 0x80) / 16);
  }

  lemma Powers()
    ensures Pow16(12) == MS_RANGE && Pow16(3) == COUNTER_RANGE
  {
  }

  /** Bytes read as one number, the first the highest. */
  function Number(bytes: seq<Byte>): nat {
    if bytes == [] then 0 else Number(bytes[..|bytes| - 1]) * 0x100 + bytes[|bytes| - 1]
  }

  lemma ParsedTwo(s: string, b: Byte)
    ensures Parsed(s + Two(b)) == Parsed(s) * 0x100 + b
  {
    var high, low := Digit(b / 16), Digit(b % 16);
    assert s + Two(b) == s + [high] + [low];
    assert (s + [high] + [low])[..|s| + 1] == s + [high] && (s + [high])[..|s|] == s;
    assert DigitValue(high) == b / 16 && DigitValue(low) == b % 16;
  }

  lemma {:induction false} ParsedBytes(bytes: seq<Byte>)
    ensures Parsed(HexOf(bytes)) == Number(bytes)
  {
    if bytes != [] {
      ParsedBytes(bytes[..|bytes| - 1]);
      ParsedTwo(HexOf(bytes[..|bytes| - 1]), bytes[|bytes| - 1]);
    }
  }

  /** The last eight bytes of an id, of which the first lost its two high bits to
      the variant. */
  function Varied(tail: seq<Byte>): (bytes: seq<Byte>)
    requires |tail| == 8
    ensures |bytes| == 8
  {
    [tail[0] % 0x40 + 0x80] + tail[1..]
  }

  lemma {:induction false} NumberSplits(a: Byte, rest: seq<Byte>)
    ensures Number([a] + rest) == a * Pow16(2 * |rest|) + Number(rest)
    ensures Number(rest) < Pow16(2 * |rest|)
  {
    if rest == [] {
      assert [a] + rest == [a] && [a][..0] == [];
    } else {
      var n := |rest| - 1;
      NumberSplits(a, rest[..n]);
      assert ([a] + rest)[..n + 1] == [a] + rest[..n];
      assert Pow16(2 * |rest|) == 0x100 * Pow16(2 * n);
      assert (a * Pow16(2 * n) + Number(rest[..n])) * 0x100 == a * (0x100 * Pow16(2 * n)) + Number(rest[..n]) * 0x100;
    }
  }

  lemma SixtyTwoBits(t: Byte, r: nat)
    requires r < 0x100_0000_0000_0000
    ensures (t * 0x100_0000_0000_0000 + r) % 0x4000_0000_0000_0000 == t % 0x40 * 0x100_0000_0000_0000 + r
  {
    var q := t / 0x40;
    assert t * 0x100_0000_0000_0000 + r == q * 0x4000_0000_0000_0000 + (t % 0x40 * 0x100_0000_0000_0000 + r);
  }

  lemma SevenBytes()
    ensures Pow16(14) == 0x100_0000_0000_0000
  {
  }

  lemma VariedNumber(tail: seq<Byte>)
    requires |tail| == 8
    ensures Number(Varied(tail)) == 0x8000_0000_0000_0000 + Number(tail) % 0x4000_0000_0000_0000
  {
    hide Number;
    hide Pow16;
    var t: Byte, r := tail[0], Number(tail[1..]);
    assert tail == [t] + tail[1..];
    SevenBytes();
    NumberSplits(t, tail[1..]);
    NumberSplits(t % 0x40 + 0x80, tail[1..]);
    SixtyTwoBits(t, r);
    assert (t % 0x40 + 0x80) * 0x100_0000_0000_0000 == t % 0x40 * 0x100_0000_0000_0000 + 0x8000_0000_0000_0000;
  }

  lemma HexOfTwo(bytes: seq<Byte>)
    requires |bytes| == 2
    ensures HexOf(bytes) == Two(bytes[0]) + Two(bytes[1])
  {
    assert bytes[..1] == [bytes[0]] && bytes[..1][..0] == [];
  }

  lemma {:induction false} HexOfConcat(a: seq<Byte>, b: seq<Byte>)
    ensures HexOf(a + b) == HexOf(a) + HexOf(b)
  {
    if b == [] {
      assert a + b == a;
    } else {
      HexOfConcat(a, b[..|b| - 1]);
      assert (a + b)[..|a + b| - 1] == a + b[..|b| - 1];
    }
  }

  lemma TailDigits(tail: seq<Byte>)
    requires |tail| == 8
    ensures Two(tail[0] % 0x40 + 0x80) + Two(tail[1]) + HexOf(tail[2..]) == HexOf(Varied(tail))
  {
    var v := Varied(tail);
    HexOfTwo(v[..2]);
    HexOfConcat(v[..2], v[2..]);
    assert v[..2] + v[2..] == v && v[2..] == tail[2..];
    hide HexOf;
  }

  /** What can be read back from an id: its shape, the version and variant bits,
      the timestamp, the counter and sixty-two random bits. */
  lemma IdDecodes(c: Clock, tail: seq<Byte>)
    requires 0 <= c.lastMs < MS_RANGE && c.counter <= COUNTER_MAX && |tail| == 8
    ensures var id := IdOf(c, tail);
            && id[8] == '-' && id[13] == '-' && id[18] == '-' && id[23] == '-'
            && id[14] == '7' && id[19] in "89ab"
            && Parsed(id[..8] + id[9..13]) == c.lastMs
            && Parsed(id[15..18]) == c.counter
            && Parsed(id[19..23] + id[24..]) == 0x8000_0000_0000_0000 + Number(tail) % 0x4000_0000_0000_0000
  {
    hide Hex;
    hide HexOf;
    hide Parsed;
    hide Pow16;
    hide Digit;
    hide Number;
    var id, h := IdOf(c, tail), Hex(c.lastMs, 12);
    assert id[19] == Digit((tail[0] % 0x40 + 0x80) / 16);
    VariantDigit(tail[0]);
    hide Two;
    TailDigits(tail);
    assert id[19..23] + id[24..] == Two(tail[0] % 0x40 + 0x80) + Two(tail[1]) + HexOf(tail[2..]);
    ParsedBytes(Varied(tail));
    VariedNumber(tail);
    assert id[..8] + id[9..13] == h;
    assert id[15..18] == Hex(c.counter, 3);
    Powers();
    ParsedHex(c.lastMs, 12);
    ParsedHex(c.counter, 3);
  }

  lemma IdParts(c: Clock, tail: seq<Byte>) returns (p: string, s: string)
    requires 0 <= c.lastMs && |tail| == 8
    ensures p == Hex(c.lastMs, 12)[..8] + "-" + Hex(c.lastMs, 12)[8..]
    ensures IdOf(c, tail) == p + ("-7" + (Hex(c.counter, 3) + s))
  {
    p := Hex(c.lastMs, 12)[..8] + "-" + Hex(c.lastMs, 12)[8..];
    s := "-" + Two(tail[0] % 0x40 + 0x80) + Two(tail[1]) + "-" + HexOf(tail[2..]);
  }

  lemma IdLess(c: Clock, c': Clock, tail: seq<Byte>, tail': seq<Byte>)
    requires 0 <= c.lastMs < MS_RANGE && c.counter <= COUNTER_MAX && |tail| == 8
    requires 0 <= c'.lastMs < MS_RANGE && c'.counter <= COUNTER_MAX && |tail'| == 8
    requires Value(c) < Value(c')
    ensures Less(IdOf(c, tail), IdOf(c', tail'))
  {
    hide IdOf;
    hide Hex;
    hide Less;
    hide Pow16;
    var p, s := IdParts(c, tail);
    var p', s' := IdParts(c', tail');
    var k, k' := Hex(c.counter, 3), Hex(c'.counter, 3);
    Powers();
    if c.lastMs < c'.lastMs {
      HexLess(c.lastMs, c'.lastMs, 12);
      LessInsert(Hex(c.lastMs, 12), Hex(c'.lastMs, 12), 8, "-");
      LessBefore(p, p', "-7" + (k + s), "-7" + (k' + s'));
    } else {
      HexLess(c.counter, c'.counter, 3);
      LessBefore(k, k', s, s');
      LessAfter("-7", k + s, k' + s');
      LessAfter(p, "-7" + (k + s), "-7" + (k' + s'));
    }
  }

  lemma {:induction false} HexOfPower(digits: nat)
    ensures Hex(Pow16(digits), digits) == Hex(0, digits)
  {
    if digits > 0 {
      HexOfPower(digits - 1);
    }
  }

  /** The next id sorts after the last one unless the counter runs out of the
      last millisecond that forty-eight bits can hold, and then it never does. */
  lemma NextSortsAfter(c: Clock, now: nat, start: nat, tail: seq<Byte>, tail': seq<Byte>)
    requires ClockOk(c) && 0 <= c.lastMs < MS_RANGE && now < MS_RANGE && start < RANDOM_START
    requires |tail| == 8 && |tail'| == 8
    ensures Less(IdOf(c, tail), IdOf(Ticked(c, now, start), tail'))
            <==> !(now <= c.lastMs && c.lastMs == MS_RANGE - 1 && c.counter == COUNTER_MAX)
  {
    var n := Ticked(c, now, start);
    TickGrows(c, now, start);
    if n.lastMs < MS_RANGE {
      IdLess(c, n, tail, tail');
    } else {
      assert n == Clock(MS_RANGE, 0) && Pow16(12) == MS_RANGE;
      HexOfPower(12);
      assert IdOf(n, tail') == IdOf(Clock(0, 0), tail');
      IdLess(Clock(0, 0), c, tail', tail);
      LessAsymmetric(IdOf(n, tail'), IdOf(c, tail));
    }
  }

  // ---------- Runs of mints ----------

  /** One mint's reading of the clock and its random start. */
  datatype Reading = Reading(now: nat, start: nat)

  function Minted(c: Clock, rs: seq<Reading>): Clock {
    if rs == [] then c
    else Ticked(Minted(c, rs[..|rs| - 1]), rs[|rs| - 1].now, rs[|rs| - 1].start)
  }

  ghost predicate ReadingsOk(rs: seq<Reading>, latest: nat) {
    forall r :: r in rs ==> r.now <= latest && r.start < RANDOM_START
  }

  lemma {:induction false} MintedBounds(c: Clock, rs: seq<Reading>, latest: nat)
    requires ClockOk(c) && ReadingsOk(rs, latest) && Value(c) < latest * COUNTER_RANGE + RANDOM_START
    ensures ClockOk(Minted(c, rs)) && (rs != [] ==> Minted(c, rs).lastMs >= 0)
    ensures Value(Minted(c, rs)) < latest * COUNTER_RANGE + RANDOM_START + |rs|
  {
    if rs != [] {
      var front, last := rs[..|rs| - 1], rs[|rs| - 1];
      assert last in rs;
      MintedBounds(c, front, latest);
      TickGrows(Minted(c, front), last.now, last.start);
    }
  }

  lemma {:induction false} MintedGrows(c: Clock, rs: seq<Reading>, i: nat, j: nat, latest: nat)
    requires ClockOk(c) && ReadingsOk(rs, latest) && Value(c) < latest * COUNTER_RANGE + RANDOM_START
    requires i < j <= |rs|
    ensures Value(Minted(c, rs[..i])) < Value(Minted(c, rs[..j]))
    decreases j
  {
    var front, last := rs[..j - 1], rs[j - 1];
    assert rs[..j][..j - 1] == front && last in rs;
    MintedBounds(c, front, latest);
    TickGrows(Minted(c, front), last.now, last.start);
    if i < j - 1 {
      MintedGrows(c, rs, i, j - 1, latest);
    }
  }

  /** Under any clock, stuck, jumping or running backwards, every id sorts after
      all the ids before it, as long as the latest reading and the number of
      mints leave the timestamp in forty-eight bits. */
  lemma IdsInMintOrder(c: Clock, rs: seq<Reading>, latest: nat, i: nat, j: nat, tail: seq<Byte>, tail': seq<Byte>)
    requires ClockOk(c) && ReadingsOk(rs, latest) && Value(c) < latest * COUNTER_RANGE + RANDOM_START
    requires latest * COUNTER_RANGE + RANDOM_START + |rs| <= MS_RANGE * COUNTER_RANGE
    requires 0 < i < j <= |rs| && |tail| == 8 && |tail'| == 8
    ensures Minted(c, rs[..i]).lastMs >= 0 && Minted(c, rs[..j]).lastMs >= 0
    ensures Less(IdOf(Minted(c, rs[..i]), tail), IdOf(Minted(c, rs[..j]), tail'))
  {
    MintedBounds(c, rs[..i], latest);
    MintedBounds(c, rs[..j], latest);
    MintedGrows(c, rs, i, j, latest);
    IdLess(Minted(c, rs[..i]), Minted(c, rs[..j]), tail, tail');
  }

  /** No reading of the run is ahead of the timestamp it is minted under. */
  ghost predicate AllStale(c: Clock, rs: seq<Reading>) {
    rs != [] ==> AllStale(c, rs[..|rs| - 1]) && rs[|rs| - 1].now <= Minted(c, rs[..|rs| - 1]).lastMs
  }

  lemma {:induction false} StaleAddsOne(c: Clock, t: nat, start: nat, rs: seq<Reading>)
    requires ClockOk(c) && c.lastMs < t && start < RANDOM_START
    requires AllStale(Ticked(c, t, start), rs) && forall r :: r in rs ==> r.start < RANDOM_START
    ensures var c' := Minted(Ticked(c, t, start), rs);
            ClockOk(c') && Value(c') == t * COUNTER_RANGE + start + |rs|
  {
    if rs != [] {
      var front, last := rs[..|rs| - 1], rs[|rs| - 1];
      assert last in rs;
      StaleAddsOne(c, t, start, front);
      TickGrows(Minted(Ticked(c, t, start), front), last.now, last.start);
    }
  }

  /** How far borrowing can run ahead: after k mints on a clock that has not
      advanced past the reading t, the timestamp is at most (k + 2047) / 4096
      milliseconds ahead of t. */
  lemma DriftBound(c: Clock, t: nat, start: nat, rs: seq<Reading>)
    requires ClockOk(c) && c.lastMs < t && start < RANDOM_START
    requires AllStale(Ticked(c, t, start), rs) && forall r :: r in rs ==> r.start < RANDOM_START
    ensures t <= Minted(Ticked(c, t, start), rs).lastMs <= t + (|rs| + 2047) / 4096
  {
    StaleAddsOne(c, t, start, rs);
  }

  // ---------- The minter ----------

  /** The first six bytes as they are written: a shift to the right takes the
      low thirty-two bits first. */
  predicate HoldsTimestamp(ms: nat, bytes: seq<Byte>) {
    && |bytes| == 6
    && bytes[0] == ms / 0x100_0000_0000 % 0x100 && bytes[1] == ms / 0x1_0000_0000 % 0x100
    && bytes[2] == ms % 0x1_0000_0000 / 0x100_0000 % 0x100
    && bytes[3] == ms % 0x1_0000_0000 / 0x1_0000 % 0x100
    && bytes[4] == ms % 0x1_0000_0000 / 0x100 % 0x100
    && bytes[5] == ms % 0x100
  }

  /** The timestamp, the version, the counter and the variant are written over
      the random bytes. */
  method Lay(ms: nat, counter: nat, bytes: array<Byte>)
    requires bytes.Length == 16 && counter <= COUNTER_MAX
    modifies bytes
    ensures HoldsTimestamp(ms, bytes[..6])
    ensures bytes[6] == 0x70 + counter / 0x100 && bytes[7] == counter % 0x100
    ensures bytes[8] == old(bytes[8]) % 0x40 + 0x80 && bytes[9..] == old(bytes[9..])
  {
    bytes[0] := (ms / 0x100_0000_0000) % 0x100;
    bytes[1] := (ms / 0x1_0000_0000) % 0x100;
    bytes[2] := ms % 0x1_0000_0000 / 0x100_0000 % 0x100;
    bytes[3] := ms % 0x1_0000_0000 / 0x1_0000 % 0x100;
    bytes[4] := ms % 0x1_0000_0000 / 0x100 % 0x100;
    bytes[5] := ms % 0x100;

    // Setting bits that are clear is addition.
    bytes[6] := 0x70 + counter / 0x100;
    bytes[7] := counter % 0x100;
    bytes[8] := bytes[8] % 0x40 + 0x80;
  }

  method Spelt(bytes: array<Byte>) returns (hex: string)
    ensures hex == HexOf(bytes[..])
  {
    hex := "";
    for i := 0 to bytes.Length
      invariant hex == HexOf(bytes[..i])
    {
      hex := hex + Two(bytes[i]);
      assert bytes[..i + 1][..i] == bytes[..i];
    }
    assert bytes[..bytes.Length] == bytes[..];
  }

  lemma Empty(n: nat)
    ensures HexOf([]) == "" == Hex(n, 0)
  {
  }

  lemma TwoHex(n: nat, digits: nat)
    ensures Hex(n, digits + 2) == Hex(n / 0x100, digits) + Two(n % 0x100)
  {
    assert Hex(n, digits + 2) == Hex(n / 16, digits + 1) + [Digit(n % 16)];
    assert Hex(n / 16, digits + 1) == Hex(n / 16 / 16, digits) + [Digit(n / 16 % 16)];
    assert n / 16 / 16 == n / 0x100 && n / 16 % 16 == n % 0x100 / 16 && n % 16 == n % 0x100 % 16;
  }

  /** If the bytes before spell all but the last two digits, one byte more spells all. */
  lemma NextByte(bytes: seq<Byte>, i: nat, n: nat, digits: nat)
    requires i < |bytes| && bytes[i] == n % 0x100
    requires HexOf(bytes[..i]) == Hex(n / 0x100, digits)
    ensures HexOf(bytes[..i + 1]) == Hex(n, digits + 2)
  {
    assert bytes[..i + 1][..i] == bytes[..i];
    TwoHex(n, digits);
  }

  lemma SixBytes(n: nat, a: nat, b: nat, c: nat, d: nat, e: nat, bytes: seq<Byte>)
    requires a == n / 0x100 && b == a / 0x100 && c == b / 0x100 && d == c / 0x100 && e == d / 0x100
    requires |bytes| == 6
    requires bytes[0] == e % 0x100 && bytes[1] == d % 0x100 && bytes[2] == c % 0x100
    requires bytes[3] == b % 0x100 && bytes[4] == a % 0x100 && bytes[5] == n % 0x100
    ensures HexOf(bytes) == Hex(n, 12)
  {
    hide HexOf;
    hide Hex;
    Empty(e / 0x100);
    assert bytes[..0] == [];
    NextByte(bytes, 0, e, 0);
    NextByte(bytes, 1, d, 2);
    NextByte(bytes, 2, c, 4);
    NextByte(bytes, 3, b, 6);
    NextByte(bytes, 4, a, 8);
    NextByte(bytes, 5, n, 10);
    assert bytes[..6] == bytes;
  }

  lemma Quotients(ms: nat)
    ensures ms / 0x100 / 0x100 == ms / 0x1_0000 && ms / 0x1_0000 / 0x100 == ms / 0x100_0000
    ensures ms / 0x100_0000 / 0x100 == ms / 0x1_0000_0000 && ms / 0x1_0000_0000 / 0x100 == ms / 0x100_0000_0000
  {
  }

  lemma Shift24(q: nat, r: nat)
    ensures r / 0x100_0000 % 0x100 == (q * 0x1_0000_0000 + r) / 0x100_0000 % 0x100
  {
    assert (q * 0x1_0000_0000 + r) / 0x100_0000 == q * 0x100 + r / 0x100_0000;
  }

  lemma Shift16(q: nat, r: nat)
    ensures r / 0x1_0000 % 0x100 == (q * 0x1_0000_0000 + r) / 0x1_0000 % 0x100
  {
    assert (q * 0x1_0000_0000 + r) / 0x1_0000 == (q * 0x100) * 0x100 + r / 0x1_0000;
  }

  lemma Shift8(q: nat, r: nat)
    ensures r / 0x100 % 0x100 == (q * 0x1_0000_0000 + r) / 0x100 % 0x100
  {
    assert (q * 0x1_0000_0000 + r) / 0x100 == (q * 0x1_0000) * 0x100 + r / 0x100;
  }

  /** Taking thirty-two bits before shifting changes no byte below them. */
  lemma LowBits(ms: nat)
    ensures ms % 0x1_0000_0000 / 0x100_0000 % 0x100 == ms / 0x100_0000 % 0x100
    ensures ms % 0x1_0000_0000 / 0x1_0000 % 0x100 == ms / 0x1_0000 % 0x100
    ensures ms % 0x1_0000_0000 / 0x100 % 0x100 == ms / 0x100 % 0x100
  {
    var q, r := ms / 0x1_0000_0000, ms % 0x1_0000_0000;
    Shift24(q, r);
    Shift16(q, r);
    Shift8(q, r);
  }

  /** The first six bytes spell the timestamp. */
  lemma TimestampBytes(ms: nat, bytes: seq<Byte>)
    requires HoldsTimestamp(ms, bytes)
    ensures HexOf(bytes) == Hex(ms, 12)
  {
    LowBits(ms);
    var a, b, c, d, e := ms / 0x100, ms / 0x1_0000, ms / 0x100_0000, ms / 0x1_0000_0000, ms / 0x100_0000_0000;
    Quotients(ms);
    SixBytes(ms, a, b, c, d, e, bytes);
  }

  lemma OneHex(n: nat)
    requires n < 16
    ensures Hex(n, 1) == [Digit(n)]
  {
    assert n / 16 == 0 && n % 16 == n;
    Empty(0);
  }

  lemma CounterBytes(counter: nat, bytes: seq<Byte>)
    requires counter <= COUNTER_MAX && |bytes| == 2
    requires bytes[0] == 0x70 + counter / 0x100 && bytes[1] == counter % 0x100
    ensures HexOf(bytes) == "7" + Hex(counter, 3)
  {
    TwoHex(counter, 1);
    HexOfTwo(bytes);
    OneHex(counter / 0x100);
    hide Hex;
    hide HexOf;
    assert Two(bytes[0]) == "7" + [Digit(counter / 0x100)];
  }

  lemma TailBytes(bytes: seq<Byte>, tail: seq<Byte>)
    requires |bytes| == 2 && |tail| == 8
    requires bytes[0] == tail[0] % 0x40 + 0x80 && bytes[1] == tail[1]
    ensures HexOf(bytes) == Two(tail[0] % 0x40 + 0x80) + Two(tail[1])
  {
    HexOfTwo(bytes);
  }

  lemma SameTail(bytes: seq<Byte>, random: seq<Byte>)
    requires |bytes| == 16 && |random| == 16 && bytes[9..] == random[9..]
    ensures bytes[9] == random[8..][1] && bytes[10..] == random[8..][2..]
  {
    assert bytes[9] == bytes[9..][0] == random[9..][0] == random[9];
    assert bytes[10..] == bytes[9..][1..] == random[9..][1..] == random[8..][2..];
  }

  lemma SpeltInParts(bytes: seq<Byte>)
    requires |bytes| == 16
    ensures var hex := HexOf(bytes);
            && hex[0..8] == HexOf(bytes[..6])[..8] && hex[8..12] == HexOf(bytes[..6])[8..]
            && hex[12..16] == HexOf(bytes[6..8]) && hex[16..20] == HexOf(bytes[8..10])
            && hex[20..] == HexOf(bytes[10..])
  {
    var a, b, d, e := bytes[..6], bytes[6..8], bytes[8..10], bytes[10..];
    assert bytes == a + b + d + e;
    HexOfConcat(a + b + d, e);
    HexOfConcat(a + b, d);
    HexOfConcat(a, b);
    hide HexOf;
  }

  /** The sixteen bytes, spelt and cut at the dashes, are the id. */
  lemma LayoutOf(c: Clock, bytes: seq<Byte>, random: seq<Byte>)
    requires c.lastMs >= 0 && c.counter <= COUNTER_MAX && |bytes| == 16 && |random| == 16
    requires HoldsTimestamp(c.lastMs, bytes[..6])
    requires bytes[6] == 0x70 + c.counter / 0x100 && bytes[7] == c.counter % 0x100
    requires bytes[8] == random[8] % 0x40 + 0x80 && bytes[9..] == random[9..]
    ensures var hex := HexOf(bytes);
            IdOf(c, random[8..])
            == hex[0..8] + "-" + hex[8..12] + "-" + hex[12..16] + "-" + hex[16..20] + "-" + hex[20..]
  {
    hide HoldsTimestamp;
    hide HexOf;
    hide Hex;
    hide Two;
    TimestampBytes(c.lastMs, bytes[..6]);
    CounterBytes(c.counter, bytes[6..8]);
    SameTail(bytes, random);
    TailBytes(bytes[8..10], random[8..]);
    SpeltInParts(bytes);
  }

  class Minter {
    var lastMs: int
    var counter: nat

    ghost predicate Valid()
      reads this
    {
      ClockOk(Clock(lastMs, counter))
    }

    function State(): Clock
      reads this
    {
      Clock(lastMs, counter)
    }

    constructor ()
      ensures Valid() && State() == Clock(-1, 0)
    {
      lastMs, counter := -1, 0;
    }

    /** One mint: the state ticks, and the id is the layout of the new state over
        the last eight random bytes. */
    method Mint(now: nat, random: seq<Byte>) returns (id: string)
      requires Valid() && |random| == 16
      modifies this
      ensures Valid() && State() == Ticked(old(State()), now, (random[6] * 0x100 + random[7]) % RANDOM_START)
      ensures lastMs >= 0 && id == IdOf(State(), random[8..])
      ensures var high: int, low: int := random[6], random[7];
              var start := (high * 0x100 + low) % 0x800;
              if now > old(lastMs) then lastMs == now && counter == start
              else if old(counter) < 0xFFF then lastMs == old(lastMs) && counter == old(counter) + 1
              else lastMs == old(lastMs) + 1 && counter == 0
    {
      hide IdOf;
      hide HexOf;
      var bytes := new Byte[16](i requires 0 <= i < 16 => random[i]);
      var ms: int := now;
      if ms > lastMs {
        counter := (bytes[6] * 0x100 + bytes[7]) % RANDOM_START;
      } else {
        ms := lastMs;
        counter := counter + 1;
        if counter > COUNTER_MAX {
          ms := ms + 1;
          counter := 0;
        }
      }
      lastMs := ms;

      Lay(ms, counter, bytes);
      var hex := Spelt(bytes);
      LayoutOf(State(), bytes[..], random);
      id := hex[0..8] + "-" + hex[8..12] + "-" + hex[12..16] + "-" + hex[16..20] + "-" + hex[20..];
    }
  }
}
