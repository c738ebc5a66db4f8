/** What is hashed for source, semantic and artifact identities, and the text
    form of an identity (src/content_identity.rs). The hash itself is not
    modelled: identities are compared through their preimages. */
module ContentIdentity {
  import opened Options
  import opened Sorting

  newtype byte = x: int | 0 <= x < 0x100

  type Bytes = seq<byte>

  const U32_SPACE: nat := 0x1_0000_0000

  predicate ByteLess(a: byte, b: byte) { a < b }

  predicate BytesLess(a: Bytes, b: Bytes) { Lex(a, b, ByteLess) }

  lemma {:induction false} BytesLessTotal()
    ensures TotalOrder(BytesLess)
  {
    hide Lex;
    assert TotalOrder(ByteLess);
    LexTotal(BytesLess, ByteLess);
  }

  // ----- preimages -----

  /** A 32-bit little-endian number; larger numbers lose their high bits. */
  function PutU32(n: nat): (r: Bytes)
    ensures |r| == 4
  {
    [(n % 0x100) as byte, (n / 0x100 % 0x100) as byte, (n / 0x1_0000 % 0x100) as byte, (n / 0x100_0000 % 0x100) as byte]
  }

  function PutBytes(b: Bytes): Bytes { PutU32(|b|) + b }

  const SOURCE_DOMAIN: Bytes :=
    [110, 117, 108, 97, 110, 103, 46, 115, 111, 117, 114, 99, 101, 45, 105, 100, 46, 118, 49, 0]
  const SEMANTIC_DOMAIN: Bytes :=
    [110, 117, 108, 97, 110, 103, 46, 115, 101, 109, 97, 110, 116, 105, 99, 45, 105, 100, 46, 118, 49, 0]
  const ARTIFACT_DOMAIN: Bytes :=
    [110, 117, 108, 97, 110, 103, 46, 97, 114, 116, 105, 102, 97, 99, 116, 45, 105, 100, 46, 118, 49, 0]

  function SourcePreimage(bytes: Bytes): Bytes { SOURCE_DOMAIN + PutBytes(bytes) }

  function Concat(xs: seq<Bytes>): Bytes {
    if xs == [] then [] else xs[0] + Concat(xs[1..])
  }

  function Framed(xs: seq<Bytes>): seq<Bytes> { seq(|xs|, i requires 0 <= i < |xs| => PutBytes(xs[i])) }

  /** References and flags are sets: sorted, without repeats. */
  function Listed(xs: seq<Bytes>): seq<Bytes> { SortDedup(xs, BytesLess) }

  function SemanticPreimage(bytes: Bytes, references: seq<Bytes>): Bytes {
    SEMANTIC_DOMAIN + (PutBytes(bytes) + (PutU32(|Listed(references)|) + Concat(Listed(references))))
  }

  datatype Config = Config(semantic: Bytes, compiler: Bytes, target: Bytes, abi: Bytes, backend: Bytes, flags: seq<Bytes>)

  function FlagsPart(flags: seq<Bytes>): Bytes { PutU32(|Listed(flags)|) + Concat(Framed(Listed(flags))) }

  function ArtifactPreimage(c: Config): Bytes {
    ARTIFACT_DOMAIN
    + (c.semantic + (PutBytes(c.compiler) + (PutBytes(c.target) + (PutBytes(c.abi) + (PutBytes(c.backend) + FlagsPart(c.flags))))))
  }

  /** The incremental hasher of the source fed with the artifact fields. */
  method HashArtifact(c: Config) returns (fed: Bytes)
    ensures fed == ArtifactPreimage(c)
  {
    var flags := Listed(c.flags);
    fed := ARTIFACT_DOMAIN;
    fed := fed + c.semantic;
    fed := fed + PutBytes(c.compiler);
    fed := fed + PutBytes(c.target);
    fed := fed + PutBytes(c.abi);
    fed := fed + PutBytes(c.backend);
    fed := fed + PutU32(|flags|);
    ghost var head := fed;
    for i := 0 to |flags|
      invariant fed == head + Concat(Framed(flags[..i]))
    {
      ConcatSnoc(Framed(flags[..i]), PutBytes(flags[i]));
      assert Framed(flags[..i + 1]) == Framed(flags[..i]) + [PutBytes(flags[i])];
      fed := fed + PutBytes(flags[i]);
    }
    assert flags[..|flags|] == flags;
    Regrouped(c);
  }

  lemma {:induction false} ConcatSnoc(xs: seq<Bytes>, x: Bytes)
    ensures Concat(xs + [x]) == Concat(xs) + x
    decreases |xs|
  {
    if xs == [] {
      assert [x][1..] == [];
      assert Concat([x]) == x + Concat([]);
    } else {
      assert (xs + [x])[1..] == xs[1..] + [x];
      ConcatSnoc(xs[1..], x);
    }
  }

  lemma {:induction false} Regrouped(c: Config)
    ensures ArtifactPreimage(c) ==
            ARTIFACT_DOMAIN + c.semantic + PutBytes(c.compiler) + PutBytes(c.target) + PutBytes(c.abi) + PutBytes(c.backend)
            + PutU32(|Listed(c.flags)|) + Concat(Framed(Listed(c.flags)))
  {
    hide PutBytes, Listed, Concat, Framed, PutU32;
    var a, b, d, e, f := c.semantic, PutBytes(c.compiler), PutBytes(c.target), PutBytes(c.abi), PutBytes(c.backend);
    var g, h := PutU32(|Listed(c.flags)|), Concat(Framed(Listed(c.flags)));
    assert ARTIFACT_DOMAIN + (a + (b + (d + (e + (f + (g + h)))))) == ARTIFACT_DOMAIN + a + b + d + e + f + g + h;
  }

  // ----- framing is injective -----

  lemma {:induction false} U32Injective(m: nat, n: nat)
    requires m < U32_SPACE && n < U32_SPACE && PutU32(m) == PutU32(n)
    ensures m == n
  {
    U32Value(m);
    U32Value(n);
  }

  function U32Of(b: Bytes): nat
    requires |b| == 4
  {
    b[0] as nat + 0x100 * (b[1] as nat) + 0x1_0000 * (b[2] as nat) + 0x100_0000 * (b[3] as nat)
  }

  lemma {:induction false} U32Value(n: nat)
    requires n < U32_SPACE
    ensures U32Of(PutU32(n)) == n
  {
    var q0 := n / 0x100;
    var q1 := n / 0x1_0000;
    var q2 := n / 0x100_0000;
    assert q1 == q0 / 0x100 && q2 == q1 / 0x100 && q2 < 0x100;
    assert n == 0x100 * q0 + n % 0x100;
    assert q0 == 0x100 * q1 + q0 % 0x100;
    assert q1 == 0x100 * q2 + q1 % 0x100;
  }

  lemma {:induction false} SplitEqual(a: Bytes, b: Bytes, x: Bytes, y: Bytes)
    requires a + x == b + y && |a| == |b|
    ensures a == b && x == y
  {
    assert a == (a + x)[..|a|] && b == (b + y)[..|b|];
    assert x == (a + x)[|a|..] && y == (b + y)[|b|..];
  }

  lemma {:induction false} BytesSplit(a: Bytes, b: Bytes, x: Bytes, y: Bytes)
    requires |a| < U32_SPACE && |b| < U32_SPACE && PutBytes(a) + x == PutBytes(b) + y
    ensures a == b && x == y
  {
    hide PutU32;
    assert PutBytes(a) + x == PutU32(|a|) + (a + x) && PutBytes(b) + y == PutU32(|b|) + (b + y);
    SplitEqual(PutU32(|a|), PutU32(|b|), a + x, b + y);
    U32Injective(|a|, |b|);
    SplitEqual(a, b, x, y);
  }

  lemma {:induction false} FramedInjective(xs: seq<Bytes>, ys: seq<Bytes>)
    requires |xs| == |ys| && (forall x :: x in xs ==> |x| < U32_SPACE) && (forall y :: y in ys ==> |y| < U32_SPACE)
    requires Concat(Framed(xs)) == Concat(Framed(ys))
    ensures xs == ys
    decreases |xs|
  {
    hide PutBytes;
    if xs != [] {
      assert Framed(xs)[1..] == Framed(xs[1..]) && Framed(ys)[1..] == Framed(ys[1..]);
      BytesSplit(xs[0], ys[0], Concat(Framed(xs[1..])), Concat(Framed(ys[1..])));
      FramedInjective(xs[1..], ys[1..]);
      assert xs == [xs[0]] + xs[1..] && ys == [ys[0]] + ys[1..];
    }
  }

  lemma {:induction false} FixedInjective(xs: seq<Bytes>, ys: seq<Bytes>, n: nat)
    requires |xs| == |ys| && (forall x :: x in xs ==> |x| == n) && (forall y :: y in ys ==> |y| == n)
    requires Concat(xs) == Concat(ys)
    ensures xs == ys
    decreases |xs|
  {
    if xs != [] {
      assert xs[0] in xs && ys[0] in ys;
      SplitEqual(xs[0], ys[0], Concat(xs[1..]), Concat(ys[1..]));
      FixedInjective(xs[1..], ys[1..], n);
      assert xs == [xs[0]] + xs[1..] && ys == [ys[0]] + ys[1..];
    }
  }

  // ----- sets -----

  lemma {:induction false} ListedFacts(xs: seq<Bytes>)
    ensures forall x :: x in Listed(xs) <==> x in xs
    ensures Ascending(Listed(xs), BytesLess)
  {
    hide SortDedup;
    BytesLessTotal();
    SortDedupCanonical(xs, BytesLess);
  }

  /** Order and repetition do not matter, and nothing else is lost. */
  lemma {:induction false} ListedSame(xs: seq<Bytes>, ys: seq<Bytes>)
    ensures Listed(xs) == Listed(ys) <==> forall x :: x in xs <==> x in ys
  {
    hide Listed;
    ListedFacts(xs);
    ListedFacts(ys);
    if forall x :: x in xs <==> x in ys {
      BytesLessTotal();
      AscendingUnique(Listed(xs), Listed(ys), BytesLess);
    }
  }

  // ----- identities -----

  /** Distinct domains keep the three kinds of preimage apart. */
  lemma {:induction false} KindsApart(bytes: Bytes, text: Bytes, references: seq<Bytes>, c: Config)
    ensures SourcePreimage(bytes) != SemanticPreimage(text, references)
    ensures SourcePreimage(bytes) != ArtifactPreimage(c)
    ensures SemanticPreimage(text, references) != ArtifactPreimage(c)
  {
    hide PutBytes, PutU32, Listed, Concat, FlagsPart;
    assert SourcePreimage(bytes)[8] == SOURCE_DOMAIN[8] == 111;
    assert SemanticPreimage(text, references)[8] == SEMANTIC_DOMAIN[8] == 101;
    assert ArtifactPreimage(c)[8] == ARTIFACT_DOMAIN[8] == 114;
  }

  /** One field needs no length to be recovered: this holds at any size. */
  lemma {:induction false} SourceInjective(a: Bytes, b: Bytes)
    ensures SourcePreimage(a) == SourcePreimage(b) <==> a == b
  {
    hide PutU32;
    if SourcePreimage(a) == SourcePreimage(b) {
      SplitEqual(SOURCE_DOMAIN, SOURCE_DOMAIN, PutBytes(a), PutBytes(b));
      SplitEqual(PutU32(|a|), PutU32(|b|), a, b);
    }
  }

  lemma {:induction false} SemanticInjective(a: Bytes, r: seq<Bytes>, b: Bytes, q: seq<Bytes>)
    requires |a| < U32_SPACE && |b| < U32_SPACE && |Listed(r)| < U32_SPACE && |Listed(q)| < U32_SPACE
    requires (forall x :: x in r ==> |x| == 32) && (forall x :: x in q ==> |x| == 32)
    ensures SemanticPreimage(a, r) == SemanticPreimage(b, q) <==> a == b && forall x :: x in r <==> x in q
  {
    hide PutU32, Listed, PutBytes, Concat;
    ListedSame(r, q);
    if SemanticPreimage(a, r) == SemanticPreimage(b, q) {
      var x, y := PutU32(|Listed(r)|) + Concat(Listed(r)), PutU32(|Listed(q)|) + Concat(Listed(q));
      SplitEqual(SEMANTIC_DOMAIN, SEMANTIC_DOMAIN, PutBytes(a) + x, PutBytes(b) + y);
      BytesSplit(a, b, x, y);
      SplitEqual(PutU32(|Listed(r)|), PutU32(|Listed(q)|), Concat(Listed(r)), Concat(Listed(q)));
      U32Injective(|Listed(r)|, |Listed(q)|);
      ListedFacts(r);
      ListedFacts(q);
      FixedInjective(Listed(r), Listed(q), 32);
    }
  }

  predicate Fits(c: Config) {
    && |c.semantic| == 32 && |c.compiler| < U32_SPACE && |c.target| < U32_SPACE && |c.abi| < U32_SPACE && |c.backend| < U32_SPACE
    && |Listed(c.flags)| < U32_SPACE && forall f :: f in c.flags ==> |f| < U32_SPACE
  }

  lemma {:induction false} FlagsSame(f: seq<Bytes>, g: seq<Bytes>)
    requires |Listed(f)| < U32_SPACE && |Listed(g)| < U32_SPACE
    requires (forall x :: x in f ==> |x| < U32_SPACE) && (forall x :: x in g ==> |x| < U32_SPACE)
    ensures FlagsPart(f) == FlagsPart(g) <==> forall x :: x in f <==> x in g
  {
    hide PutU32, Listed, Concat, Framed;
    ListedSame(f, g);
    if FlagsPart(f) == FlagsPart(g) {
      SplitEqual(PutU32(|Listed(f)|), PutU32(|Listed(g)|), Concat(Framed(Listed(f))), Concat(Framed(Listed(g))));
      U32Injective(|Listed(f)|, |Listed(g)|);
      ListedFacts(f);
      ListedFacts(g);
      FramedInjective(Listed(f), Listed(g));
    }
  }

  ghost predicate SameConfig(c: Config, d: Config) {
    && c.(flags := []) == d.(flags := [])
    && forall f :: f in c.flags <==> f in d.flags
  }

  /** Equal artifact preimages mean equal fields and equal flag sets. */
  lemma {:induction false} ArtifactInjective(c: Config, d: Config)
    requires Fits(c) && Fits(d)
    ensures ArtifactPreimage(c) == ArtifactPreimage(d) <==> SameConfig(c, d)
  {
    hide PutBytes, FlagsPart, Listed;
    FlagsSame(c.flags, d.flags);
    if ArtifactPreimage(c) == ArtifactPreimage(d) {
      var c4, d4 := PutBytes(c.backend) + FlagsPart(c.flags), PutBytes(d.backend) + FlagsPart(d.flags);
      var c3, d3 := PutBytes(c.abi) + c4, PutBytes(d.abi) + d4;
      var c2, d2 := PutBytes(c.target) + c3, PutBytes(d.target) + d3;
      var c1, d1 := PutBytes(c.compiler) + c2, PutBytes(d.compiler) + d2;
      SplitEqual(ARTIFACT_DOMAIN, ARTIFACT_DOMAIN, c.semantic + c1, d.semantic + d1);
      SplitEqual(c.semantic, d.semantic, c1, d1);
      BytesSplit(c.compiler, d.compiler, c2, d2);
      BytesSplit(c.target, d.target, c3, d3);
      BytesSplit(c.abi, d.abi, c4, d4);
      BytesSplit(c.backend, d.backend, FlagsPart(c.flags), FlagsPart(d.flags));
    }
  }

  // ----- the length bound is needed -----

  const L1: nat := 0x7F7F_7F70
  const L2: nat := 0x7F7F_7F7F
  const L3: nat := 0x0101_0105

  function Zeros(n: nat): Bytes { seq(n, i => 0) }

  /** Three framed fields of zeros, 2^32 bytes in all. */
  function LongFields(): Bytes { PutBytes(Zeros(L1)) + (PutBytes(Zeros(L2)) + PutBytes(Zeros(L3))) }

  function LongCompiler(semantic: Bytes): Config { Config(semantic, LongFields(), [9], [], [], []) }

  function LongRest(semantic: Bytes): Config { Config(semantic, [], Zeros(L1), Zeros(L2), Zeros(L3), [Zeros(9)]) }

  predicate Ascii(b: Bytes) { forall i :: 0 <= i < |b| ==> b[i] < 0x80 }

  /** Fields and flags are text, so they hold at most what a string can. */
  predicate AsciiFields(c: Config) {
    Ascii(c.compiler) && Ascii(c.target) && Ascii(c.abi) && Ascii(c.backend) && forall f :: f in c.flags ==> Ascii(f)
  }

  lemma {:induction false} ListedSmall(x: Bytes)
    ensures Listed([]) == [] && Listed([x]) == [x]
  {
    ListedFacts([]);
    assert Sort([x], BytesLess) == [x];
  }

  lemma {:induction false} SmallFlags()
    ensures FlagsPart([]) == [0, 0, 0, 0]
    ensures FlagsPart([Zeros(9)]) == [1, 0, 0, 0, 9, 0, 0, 0, 0, 0, 0, 0, 0, 0, 0, 0, 0]
    ensures PutBytes([]) == [0, 0, 0, 0] && PutBytes([9]) == [1, 0, 0, 0, 9]
  {
    hide Listed;
    var flag := Zeros(9);
    ListedSmall(flag);
    assert flag == [0, 0, 0, 0, 0, 0, 0, 0, 0];
    assert PutBytes(flag) == [9, 0, 0, 0, 0, 0, 0, 0, 0, 0, 0, 0, 0];
    var one: seq<Bytes> := [flag];
    assert Framed(one) == [PutBytes(flag)];
    assert Framed(one)[1..] == [] && Concat([]) == [];
    assert Concat(Framed(one)) == PutBytes(flag);
    assert PutU32(1) == [1, 0, 0, 0];
  }

  lemma {:induction false} LongWord1()
    ensures PutU32(L1) == [0x70, 0x7F, 0x7F, 0x7F]
  {
    assert L1 % 0x100 == 0x70 && L1 / 0x100 % 0x100 == 0x7F && L1 / 0x1_0000 % 0x100 == 0x7F && L1 / 0x100_0000 % 0x100 == 0x7F;
  }

  lemma {:induction false} LongWord2()
    ensures PutU32(L2) == [0x7F, 0x7F, 0x7F, 0x7F]
  {
    assert L2 % 0x100 == 0x7F && L2 / 0x100 % 0x100 == 0x7F && L2 / 0x1_0000 % 0x100 == 0x7F && L2 / 0x100_0000 % 0x100 == 0x7F;
  }

  lemma {:induction false} LongWord3()
    ensures PutU32(L3) == [5, 1, 1, 1]
  {
    assert L3 % 0x100 == 5 && L3 / 0x100 % 0x100 == 1 && L3 / 0x1_0000 % 0x100 == 1 && L3 / 0x100_0000 % 0x100 == 1;
  }

  lemma {:induction false} WrappedLength()
    ensures PutU32(U32_SPACE) == [0, 0, 0, 0] && L1 + L2 + L3 + 12 == U32_SPACE
  {
  }

  lemma {:induction false} LongLength()
    ensures |LongFields()| == U32_SPACE
  {
    hide PutU32;
    WrappedLength();
  }

  lemma {:induction false} LongIsAscii()
    ensures Ascii(LongFields())
  {
    hide PutU32;
    LongWord1();
    LongWord2();
    LongWord3();
    assert Ascii(PutBytes(Zeros(L1))) && Ascii(PutBytes(Zeros(L2))) && Ascii(PutBytes(Zeros(L3)));
  }

  /** A compiler version of 2^32 bytes wraps its length and makes two
      different configurations of plain text share a preimage. */
  lemma {:induction false} LengthBoundNeeded(semantic: Bytes)
    ensures ArtifactPreimage(LongCompiler(semantic)) == ArtifactPreimage(LongRest(semantic))
    ensures !SameConfig(LongCompiler(semantic), LongRest(semantic))
    ensures AsciiFields(LongCompiler(semantic)) && AsciiFields(LongRest(semantic))
  {
    hide FlagsPart, Listed, PutU32;
    var c, d := LongCompiler(semantic), LongRest(semantic);
    SmallFlags();
    LongLength();
    WrappedLength();
    LongIsAscii();
    var tail: Bytes := [1, 0, 0, 0, 9, 0, 0, 0, 0, 0, 0, 0, 0, 0, 0, 0, 0];
    var head: Bytes := [0, 0, 0, 0];
    assert PutBytes(c.compiler) == head + LongFields();
    SameTail(PutBytes(c.target), PutBytes(c.abi), PutBytes(c.backend), FlagsPart(c.flags), tail);
    Reassociate(head, PutBytes(Zeros(L1)), PutBytes(Zeros(L2)), PutBytes(Zeros(L3)), tail);
    assert c.compiler != d.compiler by { assert |c.compiler| == U32_SPACE; }
  }

  lemma {:induction false} SameTail(a: Bytes, b: Bytes, c: Bytes, d: Bytes, tail: Bytes)
    requires a == [1, 0, 0, 0, 9] && b == c == d == [0, 0, 0, 0]
    requires tail == [1, 0, 0, 0, 9, 0, 0, 0, 0, 0, 0, 0, 0, 0, 0, 0, 0]
    ensures a + (b + (c + d)) == tail
  {
  }

  lemma {:induction false} Reassociate(head: Bytes, a: Bytes, b: Bytes, c: Bytes, tail: Bytes)
    ensures (head + (a + (b + c))) + tail == head + (a + (b + (c + tail)))
  {
  }

  // ----- text form -----

  function HexDigit(n: nat): char
    requires n < 16
  {
    ['0', '1', '2', '3', '4', '5', '6', '7', '8', '9', 'a', 'b', 'c', 'd', 'e', 'f'][n]
  }

  function HexValue(c: char): Option<nat> {
    if '0' <= c <= '9' then Some((c - '0') as nat)
    else if 'a' <= c <= 'f' then Some((c - 'a') as nat + 10)
    else if 'A' <= c <= 'F' then Some((c - 'A') as nat + 10)
    else None
  }

  function ToHex(b: Bytes): (s: string)
    ensures |s| == 2 * |b|
  {
    if b == [] then [] else [HexDigit(b[0] as nat / 16), HexDigit(b[0] as nat % 16)] + ToHex(b[1..])
  }

  function FromHex(s: string): Option<Bytes> {
    if s == [] then Some([])
    else if |s| == 1 then None
    else
      var high, low, rest := HexValue(s[0]), HexValue(s[1]), FromHex(s[2..]);
      if high.Some? && low.Some? && rest.Some? && high.value < 16 && low.value < 16 then
        Some([(high.value * 16 + low.value) as byte] + rest.value)
      else None
  }

  /** Exactly 64 hexadecimal digits, in either case. */
  function ParseHash(s: string): Option<Bytes> { if |s| != 64 then None else FromHex(s) }

  lemma {:induction false} FromHexLength(s: string)
    ensures FromHex(s).Some? ==> |s| == 2 * |FromHex(s).value|
    decreases |s|
  {
    if |s| > 1 { FromHexLength(s[2..]); }
  }

  lemma {:induction false} ParsedLength(s: string)
    requires ParseHash(s).Some?
    ensures |ParseHash(s).value| == 32
  {
    FromHexLength(s);
  }

  // ----- either case parses, lower case is printed -----

  function LowerChar(c: char): char { if 'A' <= c <= 'Z' then 'a' + (c - 'A') else c }

  function Lower(s: string): string { seq(|s|, i requires 0 <= i < |s| => LowerChar(s[i])) }

  lemma {:induction false} DigitParses(c: char, n: nat)
    requires n < 16
    ensures HexValue(c) == Some(n) <==> LowerChar(c) == HexDigit(n)
  {
  }

  lemma {:induction false} ByteOf(b: byte, high: nat, low: nat)
    requires high < 16 && low < 16
    ensures b as nat == high * 16 + low <==> high == b as nat / 16 && low == b as nat % 16
  {
  }

  lemma {:induction false} LowerHead(s: string)
    requires |s| >= 2
    ensures Lower(s) == [LowerChar(s[0]), LowerChar(s[1])] + Lower(s[2..])
  {
  }

  lemma {:induction false} HexParses(s: string, b: Bytes)
    ensures FromHex(s) == Some(b) <==> Lower(s) == ToHex(b)
    decreases |s|
  {
    hide HexDigit, LowerChar, HexValue;
    if |s| >= 2 && b != [] {
      var x := b[0] as nat;
      HexParses(s[2..], b[1..]);
      LowerHead(s);
      DigitParses(s[0], x / 16);
      DigitParses(s[1], x % 16);
      var high, low, rest := HexValue(s[0]), HexValue(s[1]), FromHex(s[2..]);
      if high.Some? && low.Some? && high.value < 16 && low.value < 16 { ByteOf(b[0], high.value, low.value); }
      assert b == [b[0]] + b[1..];
      HexTail(s, b);
    } else {
      assert |Lower(s)| == |s| && |ToHex(b)| == 2 * |b|;
    }
  }

  lemma {:induction false} HexTail(s: string, b: Bytes)
    requires |s| >= 2 && b != []
    ensures Lower(s) == ToHex(b) <==>
            LowerChar(s[0]) == HexDigit(b[0] as nat / 16) && LowerChar(s[1]) == HexDigit(b[0] as nat % 16) && Lower(s[2..]) == ToHex(b[1..])
  {
    hide HexDigit, LowerChar;
    LowerHead(s);
    var l, t := Lower(s), ToHex(b);
    assert l[0] == LowerChar(s[0]) && l[1] == LowerChar(s[1]) && l[2..] == Lower(s[2..]);
    assert t[0] == HexDigit(b[0] as nat / 16) && t[1] == HexDigit(b[0] as nat % 16) && t[2..] == ToHex(b[1..]);
    assert l[0] == t[0] && l[1] == t[1] && l[2..] == t[2..] ==> l == [t[0], t[1]] + t[2..];
  }

  lemma {:induction false} DigitLower(n: nat)
    requires n < 16
    ensures LowerChar(HexDigit(n)) == HexDigit(n)
  {
  }

  lemma {:induction false} LowerHex(b: Bytes)
    ensures Lower(ToHex(b)) == ToHex(b)
    decreases |b|
  {
    hide HexDigit, LowerChar;
    if b != [] {
      var s := ToHex(b);
      assert s[2..] == ToHex(b[1..]);
      LowerHex(b[1..]);
      LowerHead(s);
      DigitLower(b[0] as nat / 16);
      DigitLower(b[0] as nat % 16);
    }
  }

  /** A text parses to an identity exactly when it is the printed identity up
      to the case of its letters; so printing and parsing gives it back. */
  lemma {:induction false} IdentityRoundTrip(s: string, id: Bytes)
    requires |id| == 32
    ensures ParseHash(s) == Some(id) <==> Lower(s) == ToHex(id)
    ensures ParseHash(ToHex(id)) == Some(id)
  {
    hide FromHex, ToHex;
    HexParses(s, id);
    assert |Lower(s)| == |s|;
    LowerHex(id);
    HexParses(ToHex(id), id);
  }
}
