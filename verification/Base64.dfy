// The base64 codec of crates/inference-core/src/audio.rs, section 4 of RFC 4648.
// Shifts and masks on u32 are written as division and remainder by powers of two.
module Base64 {
  import opened Wrappers

  type sextet = x: nat | x < 64

  const UPPER: string := "ABCDEFGHIJKLMNOPQRSTUVWXYZ"
  const LOWER: string := "abcdefghijklmnopqrstuvwxyz"
  const DIGITS: string := "0123456789"
  const TABLE: string := UPPER + LOWER + DIGITS + "+/"

  function EncodeChar(v: sextet): char {
    TABLE[v]
  }

  function DecodeChar(c: char): Option<sextet> {
    if 'A' <= c <= 'Z' then Some(c as int - 'A' as int)
    else if 'a' <= c <= 'z' then Some(c as int - 'a' as int + 26)
    else if '0' <= c <= '9' then Some(c as int - '0' as int + 52)
    else if c == '+' then Some(62)
    else if c == '/' then Some(63)
    else None
  }

  // ---- Encoding ------------------------------------------------------------

  // Three bytes as one 24-bit number.
  function Group(a: byte, b: byte, c: byte): nat {
    (a as int) * 65536 + (b as int) * 256 + (c as int)
  }

  // Six bits of a group, counted from the given power of two.
  function Digit(n: nat, unit: nat): sextet
    requires unit > 0
  {
    n / unit % 64
  }

  // Where the bits of three bytes go: 6, 2 + 4, 4 + 2, 6.
  function Six0(a: byte): sextet {
    (a as int) / 4
  }

  function Six1(a: byte, b: byte): sextet {
    (a as int) % 4 * 16 + (b as int) / 16
  }

  function Six2(b: byte, c: byte): sextet {
    (b as int) % 16 * 4 + (c as int) / 64
  }

  function Six3(c: byte): sextet {
    (c as int) % 64
  }

  // A group in both shapes, and the two conversions between them.
  datatype Bytes = Bytes(b0: byte, b1: byte, b2: byte)
  datatype Quad = Quad(s0: sextet, s1: sextet, s2: sextet, s3: sextet)

  function Cut(): Bytes -> Quad {
    (g: Bytes) => Quad(Six0(g.b0), Six1(g.b0, g.b1), Six2(g.b1, g.b2), Six3(g.b2))
  }

  function Join(): Quad -> Bytes {
    (q: Quad) => Bytes(Byte0(q.s0, q.s1), Byte1(q.s1, q.s2), Byte2(q.s2, q.s3))
  }

  // The sextets an input is cut into; a short last group is filled with zeros.
  function Pack(cut: Bytes -> Quad, x: seq<byte>): seq<sextet> {
    if |x| >= 3 then
      var q := cut(Bytes(x[0], x[1], x[2]));
      [q.s0, q.s1, q.s2, q.s3] + Pack(cut, x[3..])
    else if |x| == 2 then
      var q := cut(Bytes(x[0], x[1], 0));
      [q.s0, q.s1, q.s2]
    else if |x| == 1 then
      var q := cut(Bytes(x[0], 0, 0));
      [q.s0, q.s1]
    else []
  }

  // Four sextets are three bytes; two or three at the end are one or two.
  function Unpack(join: Quad -> Bytes, vs: seq<sextet>): seq<byte> {
    if |vs| >= 4 then
      var g := join(Quad(vs[0], vs[1], vs[2], vs[3]));
      [g.b0, g.b1, g.b2] + Unpack(join, vs[4..])
    else if |vs| == 3 then
      var g := join(Quad(vs[0], vs[1], vs[2], 0));
      [g.b0, g.b1]
    else if |vs| == 2 then
      [join(Quad(vs[0], vs[1], 0, 0)).b0]
    else []
  }

  function Byte0(a: sextet, b: sextet): byte {
    (a as int) * 4 + (b as int) / 16
  }

  function Byte1(b: sextet, c: sextet): byte {
    (b as int) % 16 * 16 + (c as int) / 4
  }

  function Byte2(c: sextet, d: sextet): byte {
    (c as int) % 4 * 64 + (d as int)
  }

  function Chars(vs: seq<sextet>): string {
    seq(|vs|, i requires 0 <= i < |vs| => EncodeChar(vs[i]))
  }

  // Padding after n sextets.
  function Padding(n: nat): string {
    if n % 4 == 2 then "==" else if n % 4 == 3 then "=" else ""
  }

  function Encoded(x: seq<byte>): string {
    var vs := Pack(Cut(), x);
    Chars(vs) + Padding(|vs|)
  }

  lemma Parts16(q: nat, r: nat)
    requires r < 16
    ensures (q * 16 + r) / 16 == q && (q * 16 + r) % 16 == r
  {
  }

  lemma Parts4(q: nat, r: nat)
    requires r < 4
    ensures (q * 4 + r) / 4 == q && (q * 4 + r) % 4 == r
  {
  }

  lemma Parts64(q: nat, r: nat)
    requires r < 64
    ensures (q * 64 + r) / 64 == q && (q * 64 + r) % 64 == r
  {
  }

  lemma Parts4096(q: nat, r: nat)
    requires r < 4096
    ensures (q * 4096 + r) / 4096 == q
  {
  }

  lemma Parts262144(q: nat, r: nat)
    requires r < 262144
    ensures (q * 262144 + r) / 262144 == q
  {
  }

  lemma SmallRemainder(n: nat, m: nat)
    requires n < m
    ensures n % m == n
  {
  }

  lemma Digit0(a: byte, b: byte, c: byte)
    ensures Digit(Group(a, b, c), 262144) == Six0(a)
  {
    Parts262144(Six0(a), (a as int) % 4 * 65536 + (b as int) * 256 + (c as int));
    assert Group(a, b, c) == Six0(a) as int * 262144 + ((a as int) % 4 * 65536 + (b as int) * 256 + (c as int));
    SmallRemainder(Six0(a), 64);
  }

  lemma Digit1(a: byte, b: byte, c: byte)
    ensures Digit(Group(a, b, c), 4096) == Six1(a, b)
  {
    var q: nat := (a as int) * 16 + (b as int) / 16;
    Parts4096(q, (b as int) % 16 * 256 + (c as int));
    assert Group(a, b, c) == q * 4096 + ((b as int) % 16 * 256 + (c as int));
    Parts64(Six0(a), Six1(a, b));
    assert q == (Six0(a) as int) * 64 + (Six1(a, b) as int);
  }

  lemma Digit2(a: byte, b: byte, c: byte)
    ensures Digit(Group(a, b, c), 64) == Six2(b, c)
  {
    var q: nat := (a as int) * 1024 + (b as int) * 4 + (c as int) / 64;
    Parts64(q, Six3(c));
    assert Group(a, b, c) == q * 64 + (Six3(c) as int);
    Parts64((a as int) * 16 + (b as int) / 16, Six2(b, c));
    assert q == ((a as int) * 16 + (b as int) / 16) * 64 + (Six2(b, c) as int);
  }

  lemma Digit3(a: byte, b: byte, c: byte)
    ensures Digit(Group(a, b, c), 1) == Six3(c)
  {
    Parts64((a as int) * 1024 + (b as int) * 4 + (c as int) / 64, Six3(c));
  }

  // The shifts and masks of one group pick the right bits.
  lemma GroupDigits(a: byte, b: byte, c: byte)
    ensures var n := Group(a, b, c);
            Quad(Digit(n, 262144), Digit(n, 4096), Digit(n, 64), Digit(n, 1)) == Cut()(Bytes(a, b, c))
  {
    Digit0(a, b, c);
    Digit1(a, b, c);
    Digit2(a, b, c);
    Digit3(a, b, c);
  }

  method EncodeGroup(a: byte, b: byte, c: byte) returns (digits: string)
    ensures var q := Cut()(Bytes(a, b, c)); digits == Chars([q.s0, q.s1, q.s2, q.s3])
  {
    var n := Group(a, b, c);
    GroupDigits(a, b, c);
    digits := [EncodeChar(Digit(n, 262144)), EncodeChar(Digit(n, 4096)), EncodeChar(Digit(n, 64)), EncodeChar(Digit(n, 1))];
  }

  method Encode(input: seq<byte>) returns (out: string)
    ensures out == Encoded(input)
  {
    out := "";
    var i := 0;
    assert input[0..] == input;
    while i + 3 <= |input|
      invariant i <= |input|
      invariant out + Encoded(input[i..]) == Encoded(input)
    {
      var group := EncodeGroup(input[i], input[i + 1], input[i + 2]);
      EncodedGroup(input[i..]);
      assert input[i..][3..] == input[i + 3..];
      Regroup(out, group, Encoded(input[i + 3..]));
      out := out + group;
      i := i + 3;
    }
    var last := EncodeRest(input[i..]);
    out := out + last;
  }

  // The one or two bytes after the last whole group, padded.
  method EncodeRest(rem: seq<byte>) returns (out: string)
    requires |rem| < 3
    ensures out == Encoded(rem)
  {
    if |rem| == 1 {
      var group := EncodeGroup(rem[0], 0, 0);
      out := group[..2] + "==";
    } else if |rem| == 2 {
      var group := EncodeGroup(rem[0], rem[1], 0);
      out := group[..3] + "=";
    } else {
      out := "";
    }
  }

  lemma CharsAppend(a: seq<sextet>, b: seq<sextet>)
    ensures Chars(a + b) == Chars(a) + Chars(b)
  {
  }

  lemma PaddingRepeats(n: nat)
    ensures Padding(4 + n) == Padding(n)
  {
  }

  lemma EncodedGroup(x: seq<byte>)
    requires |x| >= 3
    ensures var q := Cut()(Bytes(x[0], x[1], x[2]));
            Encoded(x) == Chars([q.s0, q.s1, q.s2, q.s3]) + Encoded(x[3..])
  {
    var q, rest := Cut()(Bytes(x[0], x[1], x[2])), Pack(Cut(), x[3..]);
    var g := [q.s0, q.s1, q.s2, q.s3];
    CharsAppend(g, rest);
    PaddingRepeats(|rest|);
    Regroup(Chars(g), Chars(rest), Padding(|rest|));
  }

  // ---- Decoding ------------------------------------------------------------

  function TrimEnd(s: string): string {
    if s != [] && s[|s| - 1] == '=' then TrimEnd(s[..|s| - 1]) else s
  }

  // Trimming takes the padding signs at the end, all of them and nothing else.
  lemma {:induction false} TrimEndTakesPadding(s: string)
    ensures TrimEnd(s) <= s && forall i :: |TrimEnd(s)| <= i < |s| ==> s[i] == '='
    ensures TrimEnd(s) != "" ==> TrimEnd(s)[|TrimEnd(s)| - 1] != '='
  {
    if s != "" && s[|s| - 1] == '=' {
      TrimEndTakesPadding(s[..|s| - 1]);
    }
  }

  function Pow2(n: nat): nat {
    if n == 0 then 1 else 2 * Pow2(n - 1)
  }

  // The decoder's accumulator: `bits` pending bits in `buf`.
  datatype Acc = Acc(buf: u32, bits: nat, out: seq<byte>)

  const EMPTY := Acc(0, 0, [])

  lemma Pow2Positive(n: nat)
    ensures Pow2(n) > 0
  {
  }

  // `n & (p - 1)` and `n >> bits` for p = 2^bits
  function LowBits(n: nat, p: nat): (r: nat)
    requires p > 0
    ensures r < p && r <= n
  {
    n % p
  }

  function HighBits(n: nat, p: nat): nat
    requires p > 0
  {
    n / p
  }

  // One loop iteration, with u32 wrap-around and the u8 cast written out.
  function Feed(a: Acc, v: sextet): Acc {
    var buf: nat := ((a.buf as int) * 64 + (v as int)) % U32_SPAN;
    var bits := a.bits + 6;
    if bits >= 8 then
      Pow2Positive(bits - 8);
      Acc(LowBits(buf, Pow2(bits - 8)), bits - 8, a.out + [HighBits(buf, Pow2(bits - 8)) % 256])
    else
      Acc(buf, bits, a.out)
  }

  function FeedAll(a: Acc, vs: seq<sextet>): Acc
    decreases |vs|
  {
    if vs == [] then a else FeedAll(Feed(a, vs[0]), vs[1..])
  }

  function Sextets(t: string): Option<seq<sextet>> {
    if t == [] then Some([])
    else
      match DecodeChar(t[0])
      case None => None
      case Some(v) =>
        match Sextets(t[1..])
        case None => None
        case Some(vs) => Some([v] + vs)
  }

  function Decoded(s: string): Result<seq<byte>, ()> {
    match Sextets(TrimEnd(s))
    case None => Err(())
    case Some(vs) => Ok(FeedAll(EMPTY, vs).out)
  }

  ghost predicate InRange(a: Acc) {
    a.bits in {0, 2, 4, 6} && a.buf < Pow2(a.bits)
  }

  lemma SmallPowers()
    ensures Pow2(0) == 1 && Pow2(2) == 4 && Pow2(4) == 16 && Pow2(6) == 64
  {
    assert Pow2(2) == 4;
    assert Pow2(4) == 16;
  }

  // At most six bits are pending after each iteration, so neither the shift nor
  // the cast ever drops anything.
  lemma FeedStaysInRange(a: Acc, v: sextet)
    requires InRange(a)
    ensures InRange(Feed(a, v)) && Feed(a, v).bits <= 6
    ensures (a.buf as int) * 64 + (v as int) < U32_SPAN
    ensures a.bits + 6 >= 8 ==> ((a.buf as int) * 64 + (v as int)) / Pow2(a.bits - 2) < 256
  {
    SmallPowers();
  }

  lemma FeedWithoutWrap(a: Acc, v: sextet, n: nat)
    requires InRange(a) && n == (a.buf as int) * 64 + (v as int)
    ensures a.bits + 6 < 8 ==> n < U32_SPAN && Feed(a, v) == Acc(n, a.bits + 6, a.out)
    ensures a.bits + 6 >= 8 ==>
              var p := Pow2(a.bits - 2);
              p > 0 && HighBits(n, p) < 256
              && Feed(a, v) == Acc(LowBits(n, p), a.bits - 2, a.out + [HighBits(n, p)])
  {
    FeedStaysInRange(a, v);
    SmallRemainder(n, U32_SPAN);
    if a.bits + 6 >= 8 {
      Pow2Positive(a.bits - 2);
      SmallRemainder(HighBits(n, Pow2(a.bits - 2)), 256);
    }
  }

  // The loop body on plain integers: nothing wraps, nothing is cut off.
  method Accumulate(a: Acc, v: sextet) returns (next: Acc)
    requires InRange(a)
    ensures next == Feed(a, v) && InRange(next)
  {
    FeedStaysInRange(a, v);
    var buf: nat := (a.buf as int) * 64 + (v as int);
    var bits := a.bits + 6;
    FeedWithoutWrap(a, v, buf);
    if bits >= 8 {
      bits := bits - 8;
      next := Acc(LowBits(buf, Pow2(bits)), bits, a.out + [HighBits(buf, Pow2(bits))]);
    } else {
      next := Acc(buf, bits, a.out);
    }
  }

  // What is left to do from the i-th character on.
  function Resume(a: Acc, rest: string): Result<seq<byte>, ()> {
    match Sextets(rest)
    case None => Err(())
    case Some(vs) => Ok(FeedAll(a, vs).out)
  }

  lemma ResumeStep(a: Acc, rest: string)
    requires rest != []
    ensures Resume(a, rest) == match DecodeChar(rest[0])
                               case None => Err(())
                               case Some(v) => Resume(Feed(a, v), rest[1..])
  {
    if DecodeChar(rest[0]).Some? && Sextets(rest[1..]).Some? {
      var v, vs := DecodeChar(rest[0]).value, Sextets(rest[1..]).value;
      assert ([v] + vs)[1..] == vs;
    }
  }

  method Decode(s: string) returns (r: Result<seq<byte>, ()>)
    ensures r == Decoded(s)
  {
    var trimmed := TrimEnd(s);
    var a := EMPTY;
    SmallPowers();
    assert trimmed[0..] == trimmed;
    for i := 0 to |trimmed|
      invariant InRange(a)
      invariant Resume(a, trimmed[i..]) == Decoded(s)
    {
      ResumeStep(a, trimmed[i..]);
      assert trimmed[i..][1..] == trimmed[i + 1..];
      var v := DecodeChar(trimmed[i]);
      if v.None? {
        return Err(());
      }
      a := Accumulate(a, v.value);
    }
    r := Ok(a.out);
  }

  // ---- What the accumulator computes ---------------------------------------

  lemma FeedFirst(out: seq<byte>, a: sextet)
    ensures Feed(Acc(0, 0, out), a) == Acc(a, 6, out)
  {
  }

  // Appending a sextet v to n pending bits above it: the low and high parts.
  lemma Over16(a: nat, v: nat)
    ensures (a * 64 + v) % 16 == v % 16 && (a * 64 + v) / 16 == a * 4 + v / 16
  {
  }

  lemma Over4(a: nat, v: nat)
    ensures (a * 64 + v) % 4 == v % 4 && (a * 64 + v) / 4 == a * 16 + v / 4
  {
  }

  lemma FeedWide(a: Acc, v: sextet, p: nat)
    requires InRange(a) && a.bits >= 2 && p == Pow2(a.bits - 2) > 0
    ensures var buf: nat := (a.buf as int) * 64 + (v as int);
            && HighBits(buf, p) < 256 && LowBits(buf, p) < U32_SPAN
            && Feed(a, v) == Acc(LowBits(buf, p), a.bits - 2, a.out + [HighBits(buf, p)])
  {
    FeedStaysInRange(a, v);
    var buf: nat := (a.buf as int) * 64 + (v as int);
    SmallRemainder(buf, U32_SPAN);
    SmallRemainder(HighBits(buf, p), 256);
  }

  lemma FeedSecond(out: seq<byte>, a: sextet, b: sextet)
    ensures Feed(Acc(a, 6, out), b) == Acc((b as int) % 16, 4, out + [Byte0(a, b)])
  {
    SmallPowers();
    FeedWide(Acc(a, 6, out), b, 16);
    Over16(a, b);
  }

  lemma FeedThird(out: seq<byte>, b: sextet, c: sextet)
    ensures Feed(Acc((b as int) % 16, 4, out), c) == Acc((c as int) % 4, 2, out + [Byte1(b, c)])
  {
    SmallPowers();
    FeedWide(Acc((b as int) % 16, 4, out), c, 4);
    Over4((b as int) % 16, c);
  }

  lemma FeedFourth(out: seq<byte>, c: sextet, d: sextet)
    ensures Feed(Acc((c as int) % 4, 2, out), d) == Acc(0, 0, out + [Byte2(c, d)])
  {
    SmallPowers();
    FeedWide(Acc((c as int) % 4, 2, out), d, 1);
  }

  lemma FeedTail(out: seq<byte>, vs: seq<sextet>)
    requires |vs| >= 2
    ensures FeedAll(Acc(0, 0, out), vs) == FeedAll(Acc((vs[1] as int) % 16, 4, out + [Byte0(vs[0], vs[1])]), vs[2..])
    ensures |vs| >= 3 ==> FeedAll(Acc(0, 0, out), vs)
                          == FeedAll(Acc((vs[2] as int) % 4, 2, out + [Byte0(vs[0], vs[1])] + [Byte1(vs[1], vs[2])]), vs[3..])
  {
    FeedFirst(out, vs[0]);
    FeedSecond(out, vs[0], vs[1]);
    assert vs[1..][0] == vs[1] && vs[1..][1..] == vs[2..];
    if |vs| >= 3 {
      FeedThird(out + [Byte0(vs[0], vs[1])], vs[1], vs[2]);
      assert vs[2..][0] == vs[2] && vs[2..][1..] == vs[3..];
    }
  }

  // Four sextets fed to an empty accumulator leave it empty again.
  lemma FeedGroup(out: seq<byte>, vs: seq<sextet>)
    requires |vs| >= 4
    ensures FeedAll(Acc(0, 0, out), vs)
            == FeedAll(Acc(0, 0, out + [Byte0(vs[0], vs[1]), Byte1(vs[1], vs[2]), Byte2(vs[2], vs[3])]), vs[4..])
  {
    FeedTail(out, vs);
    FeedFourth(out + [Byte0(vs[0], vs[1])] + [Byte1(vs[1], vs[2])], vs[2], vs[3]);
    assert vs[3..][0] == vs[3] && vs[3..][1..] == vs[4..];
    assert out + [Byte0(vs[0], vs[1])] + [Byte1(vs[1], vs[2])] + [Byte2(vs[2], vs[3])]
        == out + [Byte0(vs[0], vs[1]), Byte1(vs[1], vs[2]), Byte2(vs[2], vs[3])];
  }

  // The streaming decoder computes the group-wise inverse.
  lemma {:induction false} FeedAllUnpacks(out: seq<byte>, vs: seq<sextet>)
    ensures FeedAll(Acc(0, 0, out), vs).out == out + Unpack(Join(), vs)
    decreases |vs|
  {
    if |vs| >= 4 {
      FeedGroup(out, vs);
      FeedAllUnpacks(out + [Byte0(vs[0], vs[1]), Byte1(vs[1], vs[2]), Byte2(vs[2], vs[3])], vs[4..]);
    } else if |vs| >= 2 {
      FeedTail(out, vs);
    }
  }

  // ---- Groups --------------------------------------------------------------

  // Joining what was cut, and cutting what was joined, byte by byte.
  lemma JoinOfCut(a: byte, b: byte, c: byte)
    ensures Byte0(Six0(a), Six1(a, b)) == a
    ensures Byte1(Six1(a, b), Six2(b, c)) == b
    ensures Byte2(Six2(b, c), Six3(c)) == c
  {
    Parts16((a as int) % 4, (b as int) / 16);
    Parts4((b as int) % 16, (c as int) / 64);
  }

  lemma CutOfJoin(a: sextet, b: sextet, c: sextet, d: sextet)
    ensures Six0(Byte0(a, b)) == a
    ensures Six1(Byte0(a, b), Byte1(b, c)) == b
    ensures Six2(Byte1(b, c), Byte2(c, d)) == c
    ensures Six3(Byte2(c, d)) == d
  {
    Parts4(a, (b as int) / 16);
    Parts16((b as int) % 16, (c as int) / 4);
    Parts64((c as int) % 4, d);
  }

  // Zero bits at the end of a short group, in both directions.
  lemma ShortGroups(a: byte, b: byte)
    ensures Six2(b, 0) % 4 == 0 && Six1(a, 0) % 16 == 0
  {
  }

  lemma ShortJoins(b: sextet, c: sextet)
    ensures c % 4 == 0 ==> Byte2(c, 0) == 0
    ensures b % 16 == 0 ==> Byte1(b, 0) == 0
  {
  }

  // What the two conversions are used for, without the bit arithmetic.
  ghost predicate Inverse(cut: Bytes -> Quad, join: Quad -> Bytes) {
    && (forall g :: join(cut(g)) == g)
    && (forall q :: cut(join(q)) == q)
    && (forall a, b :: cut(Bytes(a, b, 0)).s2 % 4 == 0 && cut(Bytes(a, b, 0)).s3 == 0)
    && (forall a :: cut(Bytes(a, 0, 0)).s1 % 16 == 0 && cut(Bytes(a, 0, 0)).s2 == 0)
    && (forall a, b, c: sextet :: c % 4 == 0 ==> join(Quad(a, b, c, 0)).b2 == 0)
    && (forall a, b: sextet :: b % 16 == 0 ==> join(Quad(a, b, 0, 0)).b1 == 0)
  }

  lemma CutAndJoinAreInverse()
    ensures Inverse(Cut(), Join())
  {
    forall g
      ensures Join()(Cut()(g)) == g
    {
      JoinOfCut(g.b0, g.b1, g.b2);
    }
    forall q
      ensures Cut()(Join()(q)) == q
    {
      CutOfJoin(q.s0, q.s1, q.s2, q.s3);
    }
    forall a, b
      ensures Cut()(Bytes(a, b, 0)).s2 % 4 == 0 && Cut()(Bytes(a, b, 0)).s3 == 0
      ensures Cut()(Bytes(a, 0, 0)).s1 % 16 == 0 && Cut()(Bytes(a, 0, 0)).s2 == 0
    {
      ShortGroups(a, b);
    }
    forall a, b, c: sextet
      ensures c % 4 == 0 ==> Join()(Quad(a, b, c, 0)).b2 == 0
      ensures b % 16 == 0 ==> Join()(Quad(a, b, 0, 0)).b1 == 0
    {
      ShortJoins(b, c);
    }
  }

  lemma {:induction false} UnpackPack(cut: Bytes -> Quad, join: Quad -> Bytes, x: seq<byte>)
    requires Inverse(cut, join)
    ensures Unpack(join, Pack(cut, x)) == x
    decreases |x|
  {
    if |x| >= 3 {
      UnpackPack(cut, join, x[3..]);
      assert Pack(cut, x)[4..] == Pack(cut, x[3..]);
    }
  }

  // The bits of the last sextet that carry no data are zero.
  predicate CleanTail(vs: seq<sextet>) {
    match |vs| % 4
    case 1 => false
    case 2 => vs[|vs| - 1] % 16 == 0
    case 3 => vs[|vs| - 1] % 4 == 0
    case _ => true
  }

  lemma {:induction false} PackUnpack(cut: Bytes -> Quad, join: Quad -> Bytes, vs: seq<sextet>)
    requires Inverse(cut, join) && CleanTail(vs)
    ensures Pack(cut, Unpack(join, vs)) == vs
    decreases |vs|
  {
    if |vs| >= 4 {
      PackUnpack(cut, join, vs[4..]);
      PackUnpackGroup(cut, join, vs);
    }
  }

  lemma PackUnpackGroup(cut: Bytes -> Quad, join: Quad -> Bytes, vs: seq<sextet>)
    requires Inverse(cut, join) && |vs| >= 4
    ensures Pack(cut, Unpack(join, vs)) == [vs[0], vs[1], vs[2], vs[3]] + Pack(cut, Unpack(join, vs[4..]))
  {
    var q := Quad(vs[0], vs[1], vs[2], vs[3]);
    assert cut(join(q)) == q;
    assert Unpack(join, vs)[3..] == Unpack(join, vs[4..]);
  }

  function PackedSize(n: nat): nat {
    4 * (n / 3) + (if n % 3 == 0 then 0 else n % 3 + 1)
  }

  lemma PackedSizeStep(n: nat)
    ensures PackedSize(n + 3) == PackedSize(n) + 4
  {
  }

  lemma {:induction false} PackLength(cut: Bytes -> Quad, x: seq<byte>)
    ensures |Pack(cut, x)| == PackedSize(|x|)
    decreases |x|
  {
    if |x| >= 3 {
      PackLength(cut, x[3..]);
      PackedSizeStep(|x| - 3);
    }
  }

  lemma CleanTailAppend(g: seq<sextet>, rest: seq<sextet>)
    requires |g| == 4 && CleanTail(rest)
    ensures CleanTail(g + rest)
  {
  }

  lemma {:induction false} PackIsClean(cut: Bytes -> Quad, join: Quad -> Bytes, x: seq<byte>)
    requires Inverse(cut, join)
    ensures CleanTail(Pack(cut, x))
    decreases |x|
  {
    if |x| >= 3 {
      PackIsClean(cut, join, x[3..]);
      var q := cut(Bytes(x[0], x[1], x[2]));
      CleanTailAppend([q.s0, q.s1, q.s2, q.s3], Pack(cut, x[3..]));
    }
  }

  lemma {:induction false} UnpackLength(join: Quad -> Bytes, vs: seq<sextet>)
    ensures |Unpack(join, vs)| == 6 * |vs| / 8
    decreases |vs|
  {
    if |vs| >= 4 {
      UnpackLength(join, vs[4..]);
    }
  }

  // ---- Characters ----------------------------------------------------------

  lemma UpperLetter(v: nat)
    requires v < 26
    ensures UPPER[v] == ('A' as int + v) as char
  {
    assert UPPER[0] == 'A' && UPPER[1] == 'B' && UPPER[2] == 'C' && UPPER[3] == 'D' && UPPER[4] == 'E' && UPPER[5] == 'F' &&
           UPPER[6] == 'G' && UPPER[7] == 'H' && UPPER[8] == 'I' && UPPER[9] == 'J' && UPPER[10] == 'K' && UPPER[11] == 'L' &&
           UPPER[12] == 'M' && UPPER[13] == 'N' && UPPER[14] == 'O' && UPPER[15] == 'P' && UPPER[16] == 'Q' && UPPER[17] == 'R' &&
           UPPER[18] == 'S' && UPPER[19] == 'T' && UPPER[20] == 'U' && UPPER[21] == 'V' && UPPER[22] == 'W' && UPPER[23] == 'X' &&
           UPPER[24] == 'Y' && UPPER[25] == 'Z';
  }

  lemma LowerLetter(v: nat)
    requires v < 26
    ensures LOWER[v] == ('a' as int + v) as char
  {
    assert LOWER[0] == 'a' && LOWER[1] == 'b' && LOWER[2] == 'c' && LOWER[3] == 'd' && LOWER[4] == 'e' && LOWER[5] == 'f' &&
           LOWER[6] == 'g' && LOWER[7] == 'h' && LOWER[8] == 'i' && LOWER[9] == 'j' && LOWER[10] == 'k' && LOWER[11] == 'l' &&
           LOWER[12] == 'm' && LOWER[13] == 'n' && LOWER[14] == 'o' && LOWER[15] == 'p' && LOWER[16] == 'q' && LOWER[17] == 'r' &&
           LOWER[18] == 's' && LOWER[19] == 't' && LOWER[20] == 'u' && LOWER[21] == 'v' && LOWER[22] == 'w' && LOWER[23] == 'x' &&
           LOWER[24] == 'y' && LOWER[25] == 'z';
  }

  lemma DigitLetter(v: nat)
    requires v < 10
    ensures DIGITS[v] == ('0' as int + v) as char
  {
    assert DIGITS[0] == '0' && DIGITS[1] == '1' && DIGITS[2] == '2' && DIGITS[3] == '3' && DIGITS[4] == '4' && DIGITS[5] == '5' &&
           DIGITS[6] == '6' && DIGITS[7] == '7' && DIGITS[8] == '8' && DIGITS[9] == '9';
  }

  // The alphabet of section 4 of RFC 4648.
  lemma TableLetters(v: sextet)
    ensures v < 26 ==> TABLE[v] == ('A' as int + v) as char
    ensures 26 <= v < 52 ==> TABLE[v] == ('a' as int + (v - 26)) as char
    ensures 52 <= v < 62 ==> TABLE[v] == ('0' as int + (v - 52)) as char
    ensures v == 62 ==> TABLE[v] == '+'
    ensures v == 63 ==> TABLE[v] == '/'
  {
    if v < 26 {
      UpperLetter(v);
    } else if v < 52 {
      LowerLetter(v - 26);
    } else if v < 62 {
      DigitLetter(v - 52);
    }
  }

  lemma CharRoundTrip(v: sextet)
    ensures DecodeChar(EncodeChar(v)) == Some(v) && EncodeChar(v) != '='
  {
    TableLetters(v);
  }

  lemma CharIsFromTable(c: char)
    requires DecodeChar(c).Some?
    ensures EncodeChar(DecodeChar(c).value) == c && c != '='
  {
    TableLetters(DecodeChar(c).value);
  }

  lemma {:induction false} SextetsOfChars(vs: seq<sextet>)
    ensures Sextets(Chars(vs)) == Some(vs)
  {
    if vs != [] {
      CharRoundTrip(vs[0]);
      assert Chars(vs)[1..] == Chars(vs[1..]);
      SextetsOfChars(vs[1..]);
      assert [vs[0]] + vs[1..] == vs;
    }
  }

  lemma {:induction false} CharsOfSextets(t: string)
    requires Sextets(t).Some?
    ensures Chars(Sextets(t).value) == t
    ensures |Sextets(t).value| == |t|
  {
    if t != [] {
      CharIsFromTable(t[0]);
      CharsOfSextets(t[1..]);
      CharsAppend([DecodeChar(t[0]).value], Sextets(t[1..]).value);
      assert Chars([DecodeChar(t[0]).value]) == [t[0]];
    }
  }

  ghost predicate HasForeign(t: string) {
    exists i :: 0 <= i < |t| && DecodeChar(t[i]).None?
  }

  lemma {:induction false} SextetsFailExactly(t: string)
    ensures Sextets(t).None? <==> HasForeign(t)
  {
    if t != [] {
      SextetsFailExactly(t[1..]);
      if HasForeign(t[1..]) {
        var i :| 0 <= i < |t[1..]| && DecodeChar(t[1..][i]).None?;
        assert DecodeChar(t[i + 1]).None?;
      }
      if HasForeign(t) {
        var i :| 0 <= i < |t| && DecodeChar(t[i]).None?;
        assert i == 0 || DecodeChar(t[1..][i - 1]).None?;
      }
    }
  }

  // Trimming removes exactly the padding that encoding put there.
  lemma TrimChars(vs: seq<sextet>)
    ensures TrimEnd(Chars(vs)) == Chars(vs)
  {
    if vs != [] {
      CharRoundTrip(vs[|vs| - 1]);
      assert Chars(vs)[|vs| - 1] == EncodeChar(vs[|vs| - 1]);
    }
  }

  lemma TrimPadding(vs: seq<sextet>, n: nat)
    ensures TrimEnd(Chars(vs) + Padding(n)) == Chars(vs)
  {
    var t := Chars(vs);
    TrimChars(vs);
    assert (t + "=")[..|t|] == t;
    assert (t + "==")[..|t| + 1] == t + "=";
    assert t + "" == t;
  }

  // ---- Main results --------------------------------------------------------

  lemma DecodeOfChars(vs: seq<sextet>)
    ensures Decoded(Chars(vs) + Padding(|vs|)) == Ok(Unpack(Join(), vs))
    ensures TrimEnd(Chars(vs) + Padding(|vs|)) == Chars(vs)
  {
    TrimPadding(vs, |vs|);
    SextetsOfChars(vs);
    FeedAllUnpacks([], vs);
    assert [] + Unpack(Join(), vs) == Unpack(Join(), vs);
  }

  lemma RoundTrip(x: seq<byte>)
    ensures Decoded(Encoded(x)) == Ok(x)
  {
    CutAndJoinAreInverse();
    DecodeOfChars(Pack(Cut(), x));
    UnpackPack(Cut(), Join(), x);
  }

  lemma EncodeIsInjective(x: seq<byte>, y: seq<byte>)
    requires Encoded(x) == Encoded(y)
    ensures x == y
  {
    RoundTrip(x);
    RoundTrip(y);
  }

  lemma PaddedLength(vs: seq<sextet>, n: nat)
    requires |vs| == PackedSize(n)
    ensures |Chars(vs) + Padding(|vs|)| == 4 * ((n + 2) / 3)
  {
  }

  lemma EncodedLength(x: seq<byte>)
    ensures |Encoded(x)| == 4 * ((|x| + 2) / 3)
  {
    PackLength(Cut(), x);
    PaddedLength(Pack(Cut(), x), |x|);
  }

  // Decoding fails exactly on a foreign character left after trimming, and
  // k remaining characters give floor(6k / 8) bytes.
  lemma DecodeOutcome(s: string)
    ensures Decoded(s).Err? <==> HasForeign(TrimEnd(s))
    ensures Decoded(s).Ok? ==> |Decoded(s).value| == 6 * |TrimEnd(s)| / 8
  {
    var t := TrimEnd(s);
    SextetsFailExactly(t);
    if Sextets(t).Some? {
      CharsOfSextets(t);
      FeedAllUnpacks([], Sextets(t).value);
      UnpackLength(Join(), Sextets(t).value);
    }
  }

  // Canonical in the sense of section 3.5 of RFC 4648: padded to a multiple of
  // four, and no stray bits in the last sextet.
  predicate Canonical(s: string) {
    var t := TrimEnd(s);
    && Sextets(t).Some?
    && CleanTail(Sextets(t).value)
    && s == t + Padding(|t|)
  }

  lemma EncodedIsCanonical(x: seq<byte>)
    ensures Canonical(Encoded(x))
  {
    var vs := Pack(Cut(), x);
    DecodeOfChars(vs);
    SextetsOfChars(vs);
    CutAndJoinAreInverse();
    PackIsClean(Cut(), Join(), x);
  }

  // The decoder accepts more texts than the encoder emits: encoding what was
  // decoded restores the text exactly when it was canonical.
  lemma ReencodesExactlyCanonical(s: string)
    requires Decoded(s).Ok?
    ensures Encoded(Decoded(s).value) == s <==> Canonical(s)
  {
    if Canonical(s) {
      var vs := Sextets(TrimEnd(s)).value;
      CharsOfSextets(TrimEnd(s));
      DecodeOfChars(vs);
      CutAndJoinAreInverse();
      PackUnpack(Cut(), Join(), vs);
    } else {
      EncodedIsCanonical(Decoded(s).value);
    }
  }

  lemma SextetsCons(a: char, t: string)
    requires DecodeChar(a).Some? && Sextets(t).Some?
    ensures Sextets([a] + t) == Some([DecodeChar(a).value] + Sextets(t).value)
  {
    assert ([a] + t)[1..] == t;
  }

  lemma TwoDigits(a: char, b: char)
    requires DecodeChar(a).Some? && DecodeChar(b).Some?
    ensures TrimEnd([a, b]) == [a, b] && TrimEnd([a, b, '=', '=']) == [a, b]
    ensures Sextets([a, b]) == Some([DecodeChar(a).value, DecodeChar(b).value])
  {
    assert [a, b, '=', '='][..3] == [a, b, '='] && [a, b, '='][..2] == [a, b];
    SextetsCons(b, []);
    SextetsCons(a, [b]);
    assert [b] + [] == [b] && [a] + [b] == [a, b];
    var va, vb := DecodeChar(a).value, DecodeChar(b).value;
    assert [vb] + [] == [vb] && [va] + [vb] == [va, vb];
  }

  // Such texts: two digits without their padding, and padded ones with stray bits.
  lemma NonCanonicalIsAccepted(a: char, b: char)
    requires DecodeChar(a).Some? && DecodeChar(b).Some?
    ensures var s := [a, b]; Decoded(s).Ok? && Encoded(Decoded(s).value) != s
    ensures var s := [a, b, '=', '=']; Decoded(s).Ok? && (Encoded(Decoded(s).value) == s <==> DecodeChar(b).value % 16 == 0)
  {
    TwoDigits(a, b);
    ReencodesExactlyCanonical([a, b]);
    ReencodesExactlyCanonical([a, b, '=', '=']);
    assert [a, b] + ['=', '='] == [a, b, '=', '='];
  }

  // "AA" and "AB==", for instance.
  lemma AcceptedExamples(a: char, b: char)
    requires a == 'A' && b == 'B'
    ensures var s := [a, a]; Decoded(s).Ok? && Encoded(Decoded(s).value) != s
    ensures var s := [a, b, '=', '=']; Decoded(s).Ok? && Encoded(Decoded(s).value) != s
  {
    NonCanonicalIsAccepted(a, a);
    NonCanonicalIsAccepted(a, b);
  }

  // ---- The code's own definition -------------------------------------------

  // Three bytes and the four digits they are cut into are the same 24-bit number,
  // most significant first.
  lemma CutKeepsTheNumber(a: byte, b: byte, c: byte)
    ensures var q := Cut()(Bytes(a, b, c));
            (a as int) * 65536 + (b as int) * 256 + (c as int)
            == (q.s0 as int) * 262144 + (q.s1 as int) * 4096 + (q.s2 as int) * 64 + (q.s3 as int)
  {
  }

  lemma FewChars(a: sextet, b: sextet, c: sextet, d: sextet)
    ensures Chars([a, b]) == [EncodeChar(a), EncodeChar(b)]
    ensures Chars([a, b, c]) == [EncodeChar(a), EncodeChar(b), EncodeChar(c)]
    ensures Chars([a, b, c, d]) == [EncodeChar(a), EncodeChar(b), EncodeChar(c), EncodeChar(d)]
  {
  }

  lemma EncodedOne(a: byte, q: Quad)
    requires q == Cut()(Bytes(a, 0, 0))
    ensures Encoded([a]) == Chars([q.s0, q.s1]) + "=="
  {
  }

  lemma EncodedTwo(a: byte, b: byte, q: Quad)
    requires q == Cut()(Bytes(a, b, 0))
    ensures Encoded([a, b]) == Chars([q.s0, q.s1, q.s2]) + "="
  {
  }

  // What is written for a group, and for the one or two bytes after the last one:
  // the leading digits of the group filled with zeros, and padding.
  lemma EncodedParts(x: seq<byte>, q: Quad)
    requires |x| > 0 && q == Cut()(Bytes(x[0], if |x| > 1 then x[1] else 0, if |x| > 2 then x[2] else 0))
    ensures |x| == 1 ==> Encoded(x) == Chars([q.s0, q.s1]) + "=="
    ensures |x| == 2 ==> Encoded(x) == Chars([q.s0, q.s1, q.s2]) + "="
    ensures |x| >= 3 ==> Encoded(x) == Chars([q.s0, q.s1, q.s2, q.s3]) + Encoded(x[3..])
  {
    if |x| >= 3 {
      EncodedGroup(x);
    } else if |x| == 2 {
      assert x == [x[0], x[1]];
      EncodedTwo(x[0], x[1], q);
    } else {
      assert x == [x[0]];
      EncodedOne(x[0], q);
    }
  }

  lemma NothingEncoded()
    ensures Encoded([]) == ""
  {
  }
}
