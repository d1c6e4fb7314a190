/** Base32 secrets (RFC 4648), HOTP truncation (RFC 4226) and TOTP verification (RFC 6238). */
module Totp {
  import opened Prelude
  import opened Decimal

  type Byte = n: nat | n < 256

  datatype Error = BadSecret | CounterOutOfRange

  // ---------------------------------------------------------------- big-endian bits

  function Pow2(k: nat): (p: nat)
    ensures p > 0
  {
    if k == 0 then 1 else 2 * Pow2(k - 1)
  }

  function ToBits(v: nat, k: nat): (b: seq<bool>)
    ensures |b| == k
  {
    if k == 0 then [] else ToBits(v / 2, k - 1) + [v % 2 == 1]
  }

  function FromBits(b: seq<bool>): nat {
    if b == [] then 0 else 2 * FromBits(b[..|b| - 1]) + if b[|b| - 1] then 1 else 0
  }

  lemma {:induction false} BitsReadBack(v: nat, k: nat)
    requires v < Pow2(k)
    ensures FromBits(ToBits(v, k)) == v
  {
    if k > 0 {
      BitsReadBack(v / 2, k - 1);
      assert ToBits(v, k)[..k - 1] == ToBits(v / 2, k - 1);
    }
  }

  lemma {:induction false} BitsWriteBack(b: seq<bool>)
    ensures ToBits(FromBits(b), |b|) == b && FromBits(b) < Pow2(|b|)
  {
    if b != [] {
      BitsWriteBack(b[..|b| - 1]);
    }
  }

  /** Numbers read off a bit string in groups of `k`; an incomplete last group is dropped. */
  function Pack(b: seq<bool>, k: nat): seq<nat>
    requires k > 0
    decreases |b|
  {
    if |b| < k then [] else [FromBits(b[..k])] + Pack(b[k..], k)
  }

  function Unpack(vs: seq<nat>, k: nat): seq<bool> {
    if vs == [] then [] else ToBits(vs[0], k) + Unpack(vs[1..], k)
  }

  lemma {:induction false} UnpackLength(vs: seq<nat>, k: nat)
    requires k == 5 || k == 8
    ensures |Unpack(vs, k)| == k * |vs|
  {
    if vs != [] {
      UnpackLength(vs[1..], k);
    }
  }

  /** The bits are exactly `n` groups of `k`. */
  ghost predicate InGroups(b: seq<bool>, k: nat, n: nat)
    decreases n
  {
    if n == 0 then b == [] else k <= |b| && InGroups(b[k..], k, n - 1)
  }

  lemma {:induction false} FivesAreGroups(b: seq<bool>, n: nat)
    requires |b| == 5 * n
    ensures InGroups(b, 5, n)
    decreases n
  {
    if n > 0 {
      FivesAreGroups(b[5..], n - 1);
    }
  }

  lemma {:induction false} PackUnpack(vs: seq<nat>, k: nat)
    requires k > 0 && forall i :: 0 <= i < |vs| ==> vs[i] < Pow2(k)
    ensures Pack(Unpack(vs, k), k) == vs
  {
    if vs != [] {
      PackUnpack(vs[1..], k);
      BitsReadBack(vs[0], k);
      var b := Unpack(vs, k);
      assert b[..k] == ToBits(vs[0], k) && b[k..] == Unpack(vs[1..], k);
    }
  }

  lemma {:induction false} UnpackPack(b: seq<bool>, k: nat, n: nat)
    requires k > 0 && InGroups(b, k, n)
    ensures |Pack(b, k)| == n && Unpack(Pack(b, k), k) == b
    ensures forall i :: 0 <= i < n ==> Pack(b, k)[i] < Pow2(k)
    decreases n
  {
    if n > 0 {
      var group, rest := b[..k], b[k..];
      UnpackPack(rest, k, n - 1);
      GroupReadBack(group, Pack(rest, k), k);
      PackHead(b, k);
      assert b == group + rest;
    }
  }

  lemma PackHead(b: seq<bool>, k: nat)
    requires 0 < k <= |b|
    ensures Pack(b, k) == [FromBits(b[..k])] + Pack(b[k..], k)
  {
  }

  /** A number written from one full group gives that group back, ahead of the rest. */
  lemma GroupReadBack(group: seq<bool>, vs: seq<nat>, k: nat)
    requires |group| == k
    ensures Unpack([FromBits(group)] + vs, k) == group + Unpack(vs, k) && FromBits(group) < Pow2(k)
  {
    BitsWriteBack(group);
    UnpackHead(FromBits(group), vs, k);
  }

  lemma UnpackHead(v: nat, vs: seq<nat>, k: nat)
    ensures Unpack([v] + vs, k) == ToBits(v, k) + Unpack(vs, k)
  {
    assert ([v] + vs)[1..] == vs;
  }

  // ---------------------------------------------------------------- Base32

  const PAD := '='

  function CharOf(v: nat): char
    requires v < 32
  {
    if v < 26 then 'A' + v as char else '2' + (v - 26) as char
  }

  const ALPHABET := "ABCDEFGHIJKLMNOPQRSTUVWXYZ234567"

  function ValueOfChar(c: char): Option<nat> {
    if 'A' <= c <= 'Z' then Some(c as int - 'A' as int)
    else if '2' <= c <= '7' then Some(c as int - '2' as int + 26)
    else None
  }

  function Zeros(n: nat): seq<bool> {
    seq(n, i => false)
  }

  /** Zero bits that complete the last group of five. */
  function Fill(bits: nat): nat {
    (5 - bits % 5) % 5
  }

  /** The bits of the data, completed with zeros. */
  function Padded(data: seq<Byte>): seq<bool> {
    Unpack(data, 8) + Zeros(Fill(8 * |data|))
  }

  lemma GroupsAreExact(data: seq<Byte>)
    ensures var vs := Pack(Padded(data), 5);
            && (forall i :: 0 <= i < |vs| ==> vs[i] < 32)
            && 5 * |vs| == 8 * |data| + Fill(8 * |data|) && Unpack(vs, 5) == Padded(data)
  {
    var n := (8 * |data| + Fill(8 * |data|)) / 5;
    UnpackLength(data, 8);
    FivesAreGroups(Padded(data), n);
    UnpackPack(Padded(data), 5, n);
    assert Pow2(5) == 32;
  }

  function Groups(data: seq<Byte>): (vs: seq<nat>)
    ensures forall i :: 0 <= i < |vs| ==> vs[i] < 32
    ensures 5 * |vs| == 8 * |data| + Fill(8 * |data|)
    ensures Unpack(vs, 5) == Padded(data)
  {
    GroupsAreExact(data);
    Pack(Padded(data), 5)
  }

  function Text(vs: seq<nat>): (s: string)
    requires forall i :: 0 <= i < |vs| ==> vs[i] < 32
    ensures |s| == |vs| && forall i :: 0 <= i < |s| ==> s[i] == CharOf(vs[i])
  {
    seq(|vs|, i requires 0 <= i < |vs| => CharOf(vs[i]))
  }

  function PadCount(n: nat): nat {
    (8 - n % 8) % 8
  }

  function Pads(n: nat): string {
    seq(n, i => PAD)
  }

  /** The standard encoding: padded to a multiple of eight characters. */
  function StandardEncode(data: seq<Byte>): string {
    var s := Text(Groups(data));
    s + Pads(PadCount(|s|))
  }

  function StripPads(s: string): string {
    if s != "" && s[|s| - 1] == PAD then StripPads(s[..|s| - 1]) else s
  }

  /** `base32_encode`: the standard encoding without its padding. */
  function Encode(data: seq<Byte>): string {
    StripPads(StandardEncode(data))
  }

  function UpperChar(c: char): char {
    if 'a' <= c <= 'z' then (c as int - 32) as char else c
  }

  function LowerChar(c: char): char {
    if 'A' <= c <= 'Z' then (c as int + 32) as char else c
  }

  function Lower(s: string): string {
    seq(|s|, i requires 0 <= i < |s| => LowerChar(s[i]))
  }

  function Clean(s: string): string {
    if s == "" then ""
    else Clean(s[..|s| - 1]) + if s[|s| - 1] == PAD then "" else [UpperChar(s[|s| - 1])]
  }

  /** Bytes held by the last quantum when it ends in `pads` padding characters. */
  function Leftover(pads: nat): nat
    requires pads <= 8
  {
    (43 - 5 * pads) / 8
  }

  function Values(s: string): seq<nat>
    requires forall i :: 0 <= i < |s| ==> ValueOfChar(s[i]).Some?
  {
    seq(|s|, i requires 0 <= i < |s| => ValueOfChar(s[i]).value)
  }

  function ByteCount(length: nat, pads: nat): nat
    requires length % 8 == 0 && pads <= 6 && pads <= length
  {
    if pads == 0 then 5 * (length / 8) else 5 * (length / 8) - 5 + Leftover(pads)
  }

  /** The standard decoder, on padded upper-case text. */
  function StandardDecode(s: string): Result<seq<nat>, Error> {
    var body := StripPads(s);
    StripShortens(s);
    var pads := |s| - |body|;
    if |s| % 8 != 0 || (exists i :: 0 <= i < |body| && ValueOfChar(body[i]).None?) || pads !in {0, 1, 3, 4, 6}
    then Err(BadSecret)
    else
      assert forall i :: 0 <= i < |body| ==> ValueOfChar(body[i]).Some?;
      var n := ByteCount(|s|, pads);
      var bits := Unpack(Values(body), 5);
      UnpackLength(Values(body), 5);
      Ok(Pack(bits[..8 * n], 8))
  }

  lemma {:induction false} StripShortens(s: string)
    ensures |StripPads(s)| <= |s|
  {
    if s != "" && s[|s| - 1] == PAD {
      StripShortens(s[..|s| - 1]);
    }
  }

  /** `base32_decode`: tolerates lower case and any padding, which it recomputes. */
  function Decode(encoded: string): Result<seq<nat>, Error> {
    var cleaned := Clean(encoded);
    StandardDecode(cleaned + Pads(PadCount(|cleaned|)))
  }

  predicate PadFree(s: string) {
    forall i :: 0 <= i < |s| ==> s[i] != PAD
  }

  lemma {:induction false} StripsExactlyThePads(s: string, n: nat)
    requires PadFree(s)
    ensures StripPads(s + Pads(n)) == s
  {
    if n > 0 {
      assert (s + Pads(n))[..|s| + n - 1] == s + Pads(n - 1);
      StripsExactlyThePads(s, n - 1);
    } else {
      assert s + Pads(0) == s;
    }
  }

  /** Case and stray padding make no difference to what is decoded. */
  lemma {:induction false} CleanUpperCases(s: string, t: string)
    requires |s| == |t| && forall i :: 0 <= i < |s| ==> t[i] != PAD && UpperChar(t[i]) == s[i]
    ensures Clean(t) == s
  {
    if s != "" {
      CleanUpperCases(s[..|s| - 1], t[..|t| - 1]);
    }
  }

  lemma CharCases(c: char)
    requires ValueOfChar(c).Some?
    ensures c != PAD && UpperChar(c) == c && LowerChar(c) != PAD && UpperChar(LowerChar(c)) == c
  {
  }

  /** Case makes no difference to what is decoded. */
  lemma CleanIgnoresCase(s: string)
    requires forall i :: 0 <= i < |s| ==> ValueOfChar(s[i]).Some?
    ensures Clean(s) == s && Clean(Lower(s)) == s
  {
    forall i | 0 <= i < |s|
      ensures s[i] != PAD && UpperChar(s[i]) == s[i] && Lower(s)[i] != PAD && UpperChar(Lower(s)[i]) == s[i]
    {
      CharCases(s[i]);
    }
    CleanUpperCases(s, s);
    CleanUpperCases(s, Lower(s));
  }

  lemma CharsReadBack(v: nat)
    requires v < 32
    ensures ValueOfChar(CharOf(v)) == Some(v) && CharOf(v) != PAD
  {
  }

  lemma TextReadsBack(vs: seq<nat>)
    requires forall i :: 0 <= i < |vs| ==> vs[i] < 32
    ensures var s := Text(vs); PadFree(s) && (forall i :: 0 <= i < |s| ==> ValueOfChar(s[i]).Some?) && Values(s) == vs
  {
    forall i | 0 <= i < |vs|
      ensures ValueOfChar(CharOf(vs[i])) == Some(vs[i]) && CharOf(vs[i]) != PAD
    {
      CharsReadBack(vs[i]);
    }
  }

  lemma TextIsReadable(data: seq<Byte>)
    ensures var s := Text(Groups(data));
            && PadFree(s) && (forall i :: 0 <= i < |s| ==> ValueOfChar(s[i]).Some?)
            && Values(s) == Groups(data)
            && Encode(data) == s
  {
    TextReadsBack(Groups(data));
    var s := Text(Groups(data));
    StripsExactlyThePads(s, PadCount(|s|));
  }

  /** The padding the decoder recomputes is the padding the encoder stripped, and it is one the standard
      allows; the byte count it yields is the original length. */
  lemma PaddingIsRecovered(m: nat, n: nat)
    requires 5 * n == 8 * m + Fill(8 * m)
    ensures (n + PadCount(n)) % 8 == 0 && PadCount(n) in {0, 1, 3, 4, 6}
    ensures ByteCount(n + PadCount(n), PadCount(n)) == m
  {
    var q, r := m / 5, m % 5;
    CharsInLastGroup(m, n, q, r);
    CountIsRecovered(n, q, r);
  }

  lemma CountIsRecovered(n: nat, q: nat, r: nat)
    requires r < 5
    requires n == 8 * q + (if r == 0 then 0 else if r == 1 then 2 else if r == 2 then 4 else if r == 3 then 5 else 7)
    ensures PadCount(n) == (if r == 0 then 0 else if r == 1 then 6 else if r == 2 then 4 else if r == 3 then 3 else 1)
    ensures (n + PadCount(n)) % 8 == 0 && ByteCount(n + PadCount(n), PadCount(n)) == 5 * q + r
  {
    RemainderIs(n, q, n - 8 * q);
  }

  lemma RemainderIs(n: nat, q: nat, r: int)
    requires n == 8 * q + r && 0 <= r < 8
    ensures n % 8 == r && n / 8 == q
  {
  }

  /** Five bytes fill eight characters; fewer leave a part of the last eight. */
  lemma CharsInLastGroup(m: nat, n: nat, q: nat, r: nat)
    requires 5 * n == 8 * m + Fill(8 * m) && m == 5 * q + r && r < 5
    ensures n == 8 * q + (if r == 0 then 0 else if r == 1 then 2 else if r == 2 then 4 else if r == 3 then 5 else 7)
  {
    assert (8 * m) % 5 == (3 * r) % 5 by {
      assert 8 * m == 5 * (8 * q + r) + 3 * r;
    }
  }

  lemma BytesReadBack(data: seq<Byte>)
    ensures |Padded(data)| >= 8 * |data| && Pack(Padded(data)[..8 * |data|], 8) == data
  {
    UnpackLength(data, 8);
    assert Padded(data)[..8 * |data|] == Unpack(data, 8);
    assert Pow2(8) == 256;
    PackUnpack(data, 8);
  }

  lemma StandardDecodes(s: string, n: nat, m: nat)
    requires PadFree(s) && forall i :: 0 <= i < |s| ==> ValueOfChar(s[i]).Some?
    requires (|s| + n) % 8 == 0 && n in {0, 1, 3, 4, 6} && n <= |s| + n && ByteCount(|s| + n, n) == m
    requires 8 * m <= |Unpack(Values(s), 5)| == 5 * |s|
    ensures StandardDecode(s + Pads(n)) == Ok(Pack(Unpack(Values(s), 5)[..8 * m], 8))
  {
    StripsExactlyThePads(s, n);
  }

  lemma DecodesFrom(data: seq<Byte>, encoded: string)
    requires Clean(encoded) == Text(Groups(data))
    ensures Decode(encoded) == Ok(data)
  {
    RepaddedTextDecodes(data, Text(Groups(data)));
  }

  lemma RepaddedTextDecodes(data: seq<Byte>, s: string)
    requires s == Text(Groups(data))
    ensures StandardDecode(s + Pads(PadCount(|s|))) == Ok(data)
  {
    PaddingIsRecovered(|data|, |s|);
    PaddedTextDecodes(data, s, PadCount(|s|));
  }

  lemma PaddedTextDecodes(data: seq<Byte>, s: string, pads: nat)
    requires s == Text(Groups(data)) && (|s| + pads) % 8 == 0 && pads in {0, 1, 3, 4, 6}
    requires ByteCount(|s| + pads, pads) == |data|
    ensures StandardDecode(s + Pads(pads)) == Ok(data)
  {
    TextIsReadable(data);
    BytesReadBack(data);
    assert |Unpack(Values(s), 5)| == 5 * |s| by {
      UnpackLength(Values(s), 5);
    }
    StandardDecodes(s, pads, |data|);
  }

  /** Decoding an encoded secret gives the secret back, also after the text was lower-cased. */
  lemma RoundTrip(data: seq<Byte>)
    ensures Decode(Encode(data)) == Ok(data)
    ensures Decode(Lower(Encode(data))) == Ok(data)
  {
    TextIsReadable(data);
    CleanIgnoresCase(Text(Groups(data)));
    DecodesFrom(data, Encode(data));
    DecodesFrom(data, Lower(Encode(data)));
  }

  // ---------------------------------------------------------------- the text as a number

  /** A list of digits as one number, most significant digit first. */
  function Number(vs: seq<nat>, base: nat): nat {
    if vs == [] then 0 else base * Number(vs[..|vs| - 1], base) + vs[|vs| - 1]
  }

  /** The characters of the encoding are those of the alphabet, by position, and no others are read. */
  lemma AlphabetIs(v: nat, c: char)
    requires v < 32
    ensures CharOf(v) == ALPHABET[v]
    ensures ValueOfChar(c) == Some(v) <==> c == ALPHABET[v]
    ensures ValueOfChar(c).Some? <==> c in ALPHABET
  {
    assert forall i :: 0 <= i < 26 ==> ALPHABET[i] == 'A' + i as char;
    assert forall i :: 26 <= i < 32 ==> ALPHABET[i] == '2' + (i - 26) as char;
    if ValueOfChar(c).Some? {
      assert c == ALPHABET[ValueOfChar(c).value];
    }
  }

  lemma OneBitAppended(x: seq<bool>, bit: bool)
    ensures FromBits(x + [bit]) == 2 * FromBits(x) + if bit then 1 else 0
  {
    assert (x + [bit])[..|x|] == x;
  }

  lemma {:induction false} BitsAppended(x: seq<bool>, v: nat, k: nat)
    requires v < Pow2(k)
    ensures FromBits(x + ToBits(v, k)) == FromBits(x) * Pow2(k) + v
  {
    if k == 0 {
      assert x + [] == x;
    } else {
      BitsAppended(x, v / 2, k - 1);
      ConcatAssociates(x, ToBits(v / 2, k - 1), [v % 2 == 1]);
      OneBitAppended(x + ToBits(v / 2, k - 1), v % 2 == 1);
      TwiceAProduct(FromBits(x), Pow2(k - 1));
    }
  }

  lemma TwiceAProduct(a: nat, b: nat)
    ensures 2 * (a * b) == a * (2 * b)
  {
  }

  lemma {:induction false} ZerosAppended(x: seq<bool>, n: nat)
    ensures FromBits(x + Zeros(n)) == FromBits(x) * Pow2(n)
  {
    if n == 0 {
      assert x + Zeros(0) == x;
    } else {
      ZerosAppended(x, n - 1);
      assert x + Zeros(n) == x + Zeros(n - 1) + [false];
      OneBitAppended(x + Zeros(n - 1), false);
      TwiceAProduct(FromBits(x), Pow2(n - 1));
    }
  }

  lemma {:induction false} UnpackOneMore(vs: seq<nat>, v: nat, k: nat)
    ensures Unpack(vs + [v], k) == Unpack(vs, k) + ToBits(v, k)
  {
    if vs == [] {
      assert vs + [v] == [v] + [] && ToBits(v, k) + [] == ToBits(v, k);
      UnpackHead(v, [], k);
    } else {
      var first, rest := vs[0], vs[1..];
      UnpackOneMore(rest, v, k);
      assert vs + [v] == [first] + (rest + [v]) && vs == [first] + rest;
      UnpackHead(first, rest + [v], k);
      UnpackHead(first, rest, k);
      ConcatAssociates(ToBits(first, k), Unpack(rest, k), ToBits(v, k));
    }
  }

  lemma NumberOneMore(vs: seq<nat>, v: nat, base: nat)
    ensures Number(vs + [v], base) == Number(vs, base) * base + v
  {
    assert (vs + [v])[..|vs|] == vs;
  }

  lemma UnpackedOneMore(vs: seq<nat>, v: nat, k: nat)
    requires v < Pow2(k)
    ensures FromBits(Unpack(vs + [v], k)) == FromBits(Unpack(vs, k)) * Pow2(k) + v
  {
    UnpackOneMore(vs, v, k);
    BitsAppended(Unpack(vs, k), v, k);
  }

  /** Writing digits as groups of bits does not change the number they stand for. */
  lemma {:induction false} UnpackKeepsNumber(vs: seq<nat>, k: nat)
    requires forall i :: 0 <= i < |vs| ==> vs[i] < Pow2(k)
    ensures FromBits(Unpack(vs, k)) == Number(vs, Pow2(k))
  {
    if vs != [] {
      var front, last := vs[..|vs| - 1], vs[|vs| - 1];
      UnpackKeepsNumber(front, k);
      UnpackedOneMore(front, last, k);
      NumberOneMore(front, last, Pow2(k));
      assert vs == front + [last];
    }
  }

  ghost predicate Spells(s: string, vs: seq<nat>) {
    |s| == |vs| && forall i :: 0 <= i < |vs| ==> vs[i] < 32 && s[i] == ALPHABET[vs[i]]
  }

  lemma TextSpells(vs: seq<nat>)
    requires forall i :: 0 <= i < |vs| ==> vs[i] < 32
    ensures Spells(Text(vs), vs)
  {
    forall i | 0 <= i < |vs|
      ensures CharOf(vs[i]) == ALPHABET[vs[i]]
    {
      AlphabetIs(vs[i], PAD);
    }
  }

  lemma GroupsKeepNumber(data: seq<Byte>)
    ensures Number(Groups(data), 32) == Number(data, 256) * Pow2(Fill(8 * |data|))
  {
    assert Pow2(5) == 32 && Pow2(8) == 256;
    UnpackKeepsNumber(Groups(data), 5);
    UnpackKeepsNumber(data, 8);
    ZerosAppended(Unpack(data, 8), Fill(8 * |data|));
  }

  /** The encoding spells the data as one number to base 32, shifted to a whole number of digits, with as few
      digits as hold it. */
  lemma EncodeIsBaseThirtyTwo(data: seq<Byte>)
    ensures 8 * |data| <= 5 * |Encode(data)| < 8 * |data| + 5
    ensures exists vs: seq<nat> ::
              Spells(Encode(data), vs)
              && Number(vs, 32) == Number(data, 256) * Pow2(5 * |Encode(data)| - 8 * |data|)
  {
    TextIsReadable(data);
    TextSpells(Groups(data));
    GroupsKeepNumber(data);
  }

  /** Cutting bits off the end divides the number. */
  lemma FromFront(b: seq<bool>, n: nat)
    requires n <= |b|
    ensures FromBits(b[..n]) == FromBits(b) / Pow2(|b| - n)
  {
    var front, rest := b[..n], b[n..];
    BitsWriteBack(rest);
    assert b == front + rest;
    BitsAppended(front, FromBits(rest), |b| - n);
    QuotientIs(FromBits(b), Pow2(|b| - n), FromBits(front), FromBits(rest));
  }

  /** What a decodable text of `n` characters holds. */
  lemma WholeBytes(n: nat)
    requires n % 8 in {0, 2, 4, 5, 7}
    ensures PadCount(n) in {0, 1, 3, 4, 6} && (n + PadCount(n)) % 8 == 0
    ensures ByteCount(n + PadCount(n), PadCount(n)) == 5 * n / 8
  {
    var q, r := n / 8, n % 8;
    assert n == 8 * q + r;
  }

  /** A whole number of bytes of bits, as bytes. */
  lemma BytesOfBits(b: seq<bool>, m: nat)
    requires |b| == 8 * m
    ensures var d := Pack(b, 8);
            |d| == m && (forall i :: 0 <= i < m ==> d[i] < 256) && Number(d, 256) == FromBits(b)
  {
    assert Pow2(8) == 256;
    EightsAreGroups(b, m);
    UnpackPack(b, 8, m);
    UnpackKeepsNumber(Pack(b, 8), 8);
  }

  /** Bytes that hold the leading bits of a number written to base 32. */
  ghost predicate Leads(d: seq<nat>, vs: seq<nat>)
    requires 8 * |d| <= 5 * |vs|
  {
    (forall i :: 0 <= i < |d| ==> d[i] < 256) && Number(d, 256) == Number(vs, 32) / Pow2(5 * |vs| - 8 * |d|)
  }

  lemma LeadingBytes(vs: seq<nat>, m: nat)
    requires (forall i :: 0 <= i < |vs| ==> vs[i] < 32) && 8 * m <= 5 * |vs| == |Unpack(vs, 5)|
    ensures var d := Pack(Unpack(vs, 5)[..8 * m], 8); |d| == m && Leads(d, vs)
  {
    BytesOfBits(Unpack(vs, 5)[..8 * m], m);
    assert Pow2(5) == 32;
    UnpackKeepsNumber(vs, 5);
    FromFront(Unpack(vs, 5), 8 * m);
  }

  /** Spelled text is already clean and reads back as what it spells. */
  lemma SpelledReadsBack(vs: seq<nat>, s: string)
    requires Spells(s, vs)
    ensures PadFree(s) && Readable(s) && Values(s) == vs && Clean(s) == s
  {
    TextSpells(vs);
    assert s == Text(vs);
    TextReadsBack(vs);
    CleanIgnoresCase(s);
  }

  lemma CleanTextDecodes(s: string, pads: nat, m: nat)
    requires Clean(s) == s && pads == PadCount(|s|)
    requires PadFree(s) && Readable(s)
    requires (|s| + pads) % 8 == 0 && pads in {0, 1, 3, 4, 6} && ByteCount(|s| + pads, pads) == m
    requires 8 * m <= |Unpack(Values(s), 5)| == 5 * |s|
    ensures Decode(s) == Ok(Pack(Unpack(Values(s), 5)[..8 * m], 8))
  {
    StandardDecodes(s, pads, m);
  }

  lemma SpelledDecodes(vs: seq<nat>, s: string, m: nat)
    requires PadFree(s) && Readable(s) && Values(s) == vs && Clean(s) == s
    requires |s| % 8 in {0, 2, 4, 5, 7} && m == 5 * |s| / 8
    ensures |vs| == |s| && 8 * m <= |Unpack(vs, 5)| == 5 * |vs|
    ensures Decode(s) == Ok(Pack(Unpack(vs, 5)[..8 * m], 8))
  {
    WholeBytes(|s|);
    UnpackLength(vs, 5);
    CleanTextDecodes(s, PadCount(|s|), m);
  }

  /** Decoding reads the text as a number to base 32 and gives its leading whole bytes; bits beyond them are
      dropped, whatever they are. */
  lemma DecodeIsLeadingBytes(vs: seq<nat>, s: string)
    requires Spells(s, vs) && |s| % 8 in {0, 2, 4, 5, 7}
    ensures Decode(s).Ok? && |Decode(s).value| == 5 * |s| / 8
    ensures forall i :: 0 <= i < |Decode(s).value| ==> Decode(s).value[i] < 256
    ensures Number(Decode(s).value, 256) == Number(vs, 32) / Pow2(5 * |s| - 8 * |Decode(s).value|)
  {
    DecodeLeads(vs, s);
  }

  lemma DecodeLeads(vs: seq<nat>, s: string)
    requires Spells(s, vs) && |s| % 8 in {0, 2, 4, 5, 7}
    ensures Decode(s).Ok?
    ensures |Decode(s).value| == 5 * |s| / 8 && Leads(Decode(s).value, vs)
  {
    var m := 5 * |s| / 8;
    SpelledReadsBack(vs, s);
    SpelledDecodes(vs, s, m);
    LeadingBytes(vs, m);
  }

  lemma {:induction false} CleanAppend(a: string, b: string)
    ensures Clean(a + b) == Clean(a) + Clean(b)
  {
    if b == "" {
      assert a + b == a;
    } else {
      CleanAppend(a, b[..|b| - 1]);
      assert (a + b)[..|a + b| - 1] == a + b[..|b| - 1];
    }
  }

  lemma CleanChar(c: char)
    ensures Clean([c]) == if c == PAD then "" else [UpperChar(c)]
  {
    assert [c][..0] == "" && Clean("") == "";
  }

  lemma CleanBetween(a: string, c: char, b: string)
    ensures Clean(a + [c] + b) == Clean(a) + (if c == PAD then "" else [UpperChar(c)]) + Clean(b)
  {
    CleanChar(c);
    CleanAppend(a, [c]);
    CleanAppend(a + [c], b);
  }

  /** Padding anywhere and lower case make no difference to what is decoded. */
  lemma CaseAndPadsAreIgnored(a: string, letter: char, b: string)
    requires 'a' <= letter <= 'z'
    ensures Decode(a + ['='] + b) == Decode(a + b)
    ensures Decode(a + [letter] + b) == Decode(a + [letter - 'a' + 'A'] + b)
  {
    CleanAppend(a, b);
    assert Clean(a) + "" == Clean(a);
    CleanBetween(a, '=', b);
    CleanBetween(a, letter, b);
    CleanBetween(a, letter - 'a' + 'A', b);
    assert UpperChar(letter) == letter - 'a' + 'A' == UpperChar(letter - 'a' + 'A');
    SameClean(a + ['='] + b, a + b);
    SameClean(a + [letter] + b, a + [letter - 'a' + 'A'] + b);
  }

  lemma SameClean(s: string, t: string)
    requires Clean(s) == Clean(t)
    ensures Decode(s) == Decode(t)
  {
  }

  predicate Letter(c: char) {
    'A' <= c <= 'Z' || 'a' <= c <= 'z' || '2' <= c <= '7'
  }

  ghost predicate Readable(s: string) {
    forall i :: 0 <= i < |s| ==> ValueOfChar(s[i]).Some?
  }

  lemma CleanOneMore(front: string, c: char)
    ensures Clean(front + [c]) == Clean(front) + (if c == PAD then "" else [UpperChar(c)])
    ensures c != PAD ==> (Readable(Clean(front + [c])) <==> Readable(Clean(front)) && Letter(c))
    ensures c == PAD ==> Clean(front + [c]) == Clean(front)
  {
    assert (front + [c])[..|front|] == front;
    var all := Clean(front + [c]);
    if c != PAD {
      assert all[|Clean(front)|] == UpperChar(c);
      assert forall i :: 0 <= i < |Clean(front)| ==> all[i] == Clean(front)[i];
      assert ValueOfChar(UpperChar(c)).Some? <==> Letter(c);
    }
  }

  ghost predicate OnlyLetters(s: string) {
    forall i :: 0 <= i < |s| ==> s[i] == PAD || Letter(s[i])
  }

  /** Text is decoded exactly when it has only letters of the alphabet, in either case, beside padding, and no
      last group that is too short. */
  lemma DecodableIff(s: string)
    ensures Decode(s).Ok? <==> OnlyLetters(s) && (|s| - multiset(s)[PAD]) % 8 in {0, 2, 4, 5, 7}
  {
    CleanKeeps(s);
    StandardDecodableIff(Clean(s), PadCount(|Clean(s)|));
    LegalPadding(|Clean(s)|);
  }

  lemma LegalPadding(n: nat)
    ensures (n + PadCount(n)) % 8 == 0
    ensures PadCount(n) in {0, 1, 3, 4, 6} <==> n % 8 in {0, 2, 4, 5, 7}
  {
    var q, r := n / 8, n % 8;
    assert n == 8 * q + r;
  }

  lemma StandardDecodableIff(body: string, pads: nat)
    requires PadFree(body) && (|body| + pads) % 8 == 0
    ensures StandardDecode(body + Pads(pads)).Ok? <==> Readable(body) && pads in {0, 1, 3, 4, 6}
  {
    StripsExactlyThePads(body, pads);
  }

  lemma {:induction false} CleanKeeps(s: string)
    ensures |Clean(s)| == |s| - multiset(s)[PAD] && PadFree(Clean(s)) && (Readable(Clean(s)) <==> OnlyLetters(s))
  {
    if s != "" {
      var front, last := s[..|s| - 1], s[|s| - 1];
      CleanKeeps(front);
      CleanOneMore(front, last);
      assert s == front + [last];
      assert OnlyLetters(s) <==> OnlyLetters(front) && (last == PAD || Letter(last));
    }
  }

  // ---------------------------------------------------------------- HOTP

  const COUNTER_LIMIT := 0x1_0000_0000_0000_0000
  const DIGITS := 6
  const MODULUS := 1_000_000

  /** A keyed digest that always yields twenty bytes. */
  ghost predicate IsMac(mac: (seq<nat>, seq<nat>) -> seq<nat>) {
    forall k, m :: |mac(k, m)| == 20 && forall i :: 0 <= i < 20 ==> mac(k, m)[i] < 256
  }

  /** Eight big-endian bytes. */
  function CounterBytes(counter: nat): seq<nat> {
    Pack(ToBits(counter, 64), 8)
  }

  /** The truncation offset is the low nibble of the last byte, so four bytes follow it in the digest. */
  function Offset(digest: seq<nat>): (o: nat)
    requires |digest| == 20
    ensures o + 3 < |digest|
  {
    digest[19] % 16
  }

  function Truncated(digest: seq<nat>): nat
    requires |digest| == 20
  {
    var o := Offset(digest);
    (digest[o] % 0x80) * 0x100_0000 + digest[o + 1] * 0x1_0000 + digest[o + 2] * 0x100 + digest[o + 3]
  }

  /** Dynamic truncation reads the last 31 bits of the four selected bytes as one number. */
  lemma TruncationIsThirtyOneBits(digest: seq<nat>)
    requires |digest| == 20 && forall i :: 0 <= i < 20 ==> digest[i] < 256
    ensures var o := Offset(digest);
            Truncated(digest) == (digest[o] * 0x100_0000 + digest[o + 1] * 0x1_0000 + digest[o + 2] * 0x100 + digest[o + 3]) % 0x8000_0000
  {
    var o := Offset(digest);
    var high, low := digest[o] / 0x80, Truncated(digest);
    assert digest[o] == 0x80 * high + digest[o] % 0x80;
    assert low < 0x8000_0000;
  }

  /** The counter's eight bytes are its big-endian number. */
  lemma CounterBytesAre(counter: nat)
    requires counter < COUNTER_LIMIT
    ensures var m := CounterBytes(counter);
            |m| == 8 && (forall i :: 0 <= i < 8 ==> m[i] < 256) && Number(m, 256) == counter
  {
    var bits := ToBits(counter, 64);
    SixtyFourBits();
    EightsAreGroups(bits, 8);
    UnpackPack(bits, 8, 8);
    UnpackKeepsNumber(Pack(bits, 8), 8);
    BitsReadBack(counter, 64);
  }

  lemma SixtyFourBits()
    ensures Pow2(8) == 256 && Pow2(64) == COUNTER_LIMIT
  {
    assert Pow2(8) == 256;
    PowerOfSum(8, 8);
    PowerOfSum(16, 16);
    PowerOfSum(32, 32);
  }

  lemma {:induction false} PowerOfSum(j: nat, k: nat)
    ensures Pow2(j + k) == Pow2(j) * Pow2(k)
  {
    if k > 0 {
      PowerOfSum(j, k - 1);
      TwiceAProduct(Pow2(j), Pow2(k - 1));
    }
  }

  lemma {:induction false} EightsAreGroups(b: seq<bool>, n: nat)
    requires |b| == 8 * n
    ensures InGroups(b, 8, n)
    decreases n
  {
    if n > 0 {
      EightsAreGroups(b[8..], n - 1);
    }
  }

  function ZeroPadded(n: nat): (s: string)
    requires n < MODULUS
  {
    var s := Digits(n);
    seq(if |s| < DIGITS then DIGITS - |s| else 0, i => '0') + s
  }

  lemma {:induction false} DigitsAreShort(n: nat, k: nat, bound: nat)
    requires k > 0 && n < bound && bound == Pow10(k)
    ensures |Digits(n)| <= k
    decreases k
  {
    if n >= 10 {
      DigitsAreShort(n / 10, k - 1, Pow10(k - 1));
    }
  }

  function Pow10(k: nat): nat {
    if k == 0 then 1 else 10 * Pow10(k - 1)
  }

  predicate SixDigits(code: string) {
    |code| == DIGITS && forall i :: 0 <= i < |code| ==> IsDigit(code[i])
  }

  lemma {:induction false} LeadingZeros(z: nat, s: string)
    requires AllDigits(s)
    ensures AllDigits(seq(z, i => '0') + s) && ValueOf(seq(z, i => '0') + s) == ValueOf(s)
    decreases z + |s|
  {
    var zs := seq(z, i => '0');
    if s != [] {
      LeadingZeros(z, s[..|s| - 1]);
      assert (zs + s)[..|zs + s| - 1] == zs + s[..|s| - 1];
    } else if z > 0 {
      LeadingZeros(z - 1, s);
      assert (zs + s)[..z - 1] == seq(z - 1, i => '0') + s;
    } else {
      assert zs + s == s;
    }
  }

  /** A code is six digits that read back as the number it shows. */
  lemma PaddedIsSixDigits(n: nat)
    requires n < MODULUS
    ensures SixDigits(ZeroPadded(n)) && AllDigits(ZeroPadded(n)) && ValueOf(ZeroPadded(n)) == n
  {
    assert Pow10(6) == MODULUS;
    DigitsAreShort(n, 6, MODULUS);
    DigitsReadBack(n);
    LeadingZeros(if |Digits(n)| < DIGITS then DIGITS - |Digits(n)| else 0, Digits(n));
  }

  function Hotp(mac: (seq<nat>, seq<nat>) -> seq<nat>, key: seq<nat>, counter: nat): string
    requires IsMac(mac)
  {
    ZeroPadded(Truncated(mac(key, CounterBytes(counter))) % MODULUS)
  }

  /** A code shows six digits of the 31 bits found at the offset that the digest's last four bits name. */
  lemma HotpIs(mac: (seq<nat>, seq<nat>) -> seq<nat>, key: seq<nat>, counter: nat, message: seq<nat>)
    requires IsMac(mac) && message == CounterBytes(counter)
    ensures var code, d := Hotp(mac, key, counter), mac(key, message);
            var o := d[19] % 16;
            && |code| == 6 && AllDigits(code)
            && ValueOf(code)
               == (d[o] * 0x100_0000 + d[o + 1] * 0x1_0000 + d[o + 2] * 0x100 + d[o + 3]) % 0x8000_0000 % 1_000_000
  {
    var d := mac(key, message);
    TruncationIsThirtyOneBits(d);
    PaddedIsSixDigits(Truncated(d) % MODULUS);
  }

  // ---------------------------------------------------------------- TOTP

  function FloorDiv(a: int, b: int): int
    requires b > 0
  {
    a / b
  }

  function GenerateCode(mac: (seq<nat>, seq<nat>) -> seq<nat>, secret: string, timestamp: int, period: int): Result<string, Error>
    requires IsMac(mac) && period > 0
  {
    var key := Decode(secret);
    var counter := FloorDiv(timestamp, period);
    if key.Err? then Err(BadSecret)
    else if counter < 0 || counter >= COUNTER_LIMIT then Err(CounterOutOfRange)
    else Ok(Hotp(mac, key.value, counter))
  }

  lemma StepShiftsCounter(timestamp: int, offset: int, period: int)
    requires period > 0
    ensures FloorDiv(timestamp + offset * period, period) == FloorDiv(timestamp, period) + offset
    ensures FloorDiv(timestamp, period) * period <= timestamp < (FloorDiv(timestamp, period) + 1) * period
  {
    var q, r := timestamp / period, timestamp % period;
    assert timestamp + offset * period == (q + offset) * period + r;
    QuotientIs(timestamp + offset * period, period, q + offset, r);
  }

  lemma QuotientIs(a: int, b: int, q: int, r: int)
    requires b > 0 && a == q * b + r && 0 <= r < b
    ensures a / b == q
  {
    EuclideanIsUnique(b, q, r, a / b, a % b);
  }

  lemma EuclideanIsUnique(b: int, q: int, r: int, q': int, r': int)
    requires 0 <= r < b && 0 <= r' < b && q * b + r == q' * b + r'
    ensures q == q'
  {
    if q > q' {
      AtLeastOnce(q - q', b);
    } else if q < q' {
      AtLeastOnce(q' - q, b);
    }
  }

  lemma AtLeastOnce(x: int, b: int)
    requires x >= 1 && b > 0
    ensures x * b >= b
  {
  }

  /** The code belongs to the counter `k`. */
  ghost predicate IsCodeOf(mac: (seq<nat>, seq<nat>) -> seq<nat>, key: seq<nat>, code: string, k: int)
    requires IsMac(mac)
  {
    0 <= k < COUNTER_LIMIT && code == Hotp(mac, key, k)
  }

  /** Some counter from `lo` up to, and not including, `hi` has this code. */
  ghost predicate Matches(mac: (seq<nat>, seq<nat>) -> seq<nat>, key: seq<nat>, code: string, lo: int, hi: int)
    requires IsMac(mac)
  {
    exists k :: lo <= k < hi && IsCodeOf(mac, key, code, k)
  }

  lemma MatchesFirst(mac: (seq<nat>, seq<nat>) -> seq<nat>, key: seq<nat>, code: string, lo: int, hi: int)
    requires IsMac(mac) && lo < hi
    ensures Matches(mac, key, code, lo, hi) <==> IsCodeOf(mac, key, code, lo) || Matches(mac, key, code, lo + 1, hi)
  {
  }

  /** The loop from one offset on: the first code that equals the given one, or cannot be made, decides. */
  function Verdict(generate: int -> Result<string, Error>, code: string, window: int, offset: int): Result<bool, Error>
    decreases window + 1 - offset
  {
    if offset > window then Ok(false)
    else
      var expected := generate(offset);
      if expected.Err? then Err(expected.error)
      else if code == expected.value then Ok(true)
      else Verdict(generate, code, window, offset + 1)
  }

  /** The loop over the window, from the earliest counter on; `generate` makes the code of an offset. */
  method ScanWindow(generate: int -> Result<string, Error>, code: string, window: int) returns (r: Result<bool, Error>)
    ensures r == Verdict(generate, code, window, -window)
  {
    var offset := -window;
    while offset <= window
      invariant Verdict(generate, code, window, -window) == Verdict(generate, code, window, offset)
      decreases window + 1 - offset
    {
      var expected := generate(offset);
      if expected.Err? {
        return Err(expected.error);
      }
      if code == expected.value {
        return Ok(true);
      }
      offset := offset + 1;
    }
    r := Ok(false);
  }

  /** The code of a counter, or why there is none. */
  function CodeOf(mac: (seq<nat>, seq<nat>) -> seq<nat>, key: seq<nat>, k: int): Result<string, Error>
    requires IsMac(mac)
  {
    if k < 0 || k >= COUNTER_LIMIT then Err(CounterOutOfRange) else Ok(Hotp(mac, key, k))
  }

  lemma {:induction false} VerdictIs(
      generate: int -> Result<string, Error>, mac: (seq<nat>, seq<nat>) -> seq<nat>, key: seq<nat>, code: string,
      c: int, window: int, offset: int)
    requires IsMac(mac) && offset <= window + 1 && 0 <= c + offset
    requires forall o :: generate(o) == CodeOf(mac, key, c + o)
    ensures Verdict(generate, code, window, offset)
            == if Matches(mac, key, code, c + offset, c + window + 1) then Ok(true)
               else if c + window < COUNTER_LIMIT || offset > window then Ok(false) else Err(CounterOutOfRange)
    decreases window + 1 - offset
  {
    if offset <= window {
      MatchesFirst(mac, key, code, c + offset, c + window + 1);
      if c + offset < COUNTER_LIMIT {
        VerdictIs(generate, mac, key, code, c, window, offset + 1);
      }
    }
  }

  lemma GeneratedAt(mac: (seq<nat>, seq<nat>) -> seq<nat>, secret: string, timestamp: int, period: int, offset: int)
    requires IsMac(mac) && period > 0
    ensures GenerateCode(mac, secret, timestamp + offset * period, period)
            == if Decode(secret).Err? then Err(BadSecret)
               else CodeOf(mac, Decode(secret).value, FloorDiv(timestamp, period) + offset)
  {
    StepShiftsCounter(timestamp, offset, period);
  }

  /** The whole loop, in terms of the key and the current counter. */
  lemma WindowVerdict(
      generate: int -> Result<string, Error>, mac: (seq<nat>, seq<nat>) -> seq<nat>, key: Result<seq<nat>, Error>,
      code: string, c: int, window: int)
    requires IsMac(mac) && window >= 0
    requires forall o :: generate(o) == if key.Err? then Err(BadSecret) else CodeOf(mac, key.value, c + o)
    ensures Verdict(generate, code, window, -window)
            == if key.Err? then Err(BadSecret)
               else if c - window < 0 then Err(CounterOutOfRange)
               else if Matches(mac, key.value, code, c - window, c + window + 1) then Ok(true)
               else if c + window < COUNTER_LIMIT then Ok(false) else Err(CounterOutOfRange)
  {
    if key.Ok? && c - window >= 0 {
      VerdictIs(generate, mac, key.value, code, c, window, -window);
    }
  }

  /** `verify_code`: accepts a code of any counter in the window around the current one; raises only when the secret
      is unreadable, or when it comes to a counter out of range before finding the code. */
  method VerifyCode(mac: (seq<nat>, seq<nat>) -> seq<nat>, secret: string, code: string, timestamp: int, period: int, window: int)
    returns (r: Result<bool, Error>)
    requires IsMac(mac) && period > 0
    ensures !(|code| == 6 && AllDigits(code)) || window < 0 ==> r == Ok(false)
    ensures var c := FloorDiv(timestamp, period);
            |code| == 6 && AllDigits(code) && window >= 0 ==>
              if Decode(secret).Err? then r == Err(BadSecret)
              else if c - window < 0 then r == Err(CounterOutOfRange)
              else if exists k :: c - window <= k <= c + window && IsCodeOf(mac, Decode(secret).value, code, k) then r == Ok(true)
              else r == if c + window < COUNTER_LIMIT then Ok(false) else Err(CounterOutOfRange)
  {
    if !SixDigits(code) {
      return Ok(false);
    }
    var generate := offset => GenerateCode(mac, secret, timestamp + offset * period, period);
    r := ScanWindow(generate, code, window);
    if window >= 0 {
      forall o
        ensures generate(o) == if Decode(secret).Err? then Err(BadSecret)
                               else CodeOf(mac, Decode(secret).value, FloorDiv(timestamp, period) + o)
      {
        GeneratedAt(mac, secret, timestamp, period, o);
      }
      WindowVerdict(generate, mac, Decode(secret), code, FloorDiv(timestamp, period), window);
    }
  }
}
