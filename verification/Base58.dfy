/** Base58 addresses: blocks of up to eight bytes, each written in a fixed number of
    characters, and what an address text determines. */
module Base58 {
  import opened Bytes
  import opened Status
  import opened Varint
  import opened Scalars
  import opened AmountText
  import opened DeviceState

  const ALPHABET := "123456789" + "ABCDEFGH" + "JKLMN" + "PQRSTUVWXYZ" + "abcdefghijk" + "mnopqrstuvwxyz"
  const FULL_BLOCK_SIZE := 8
  const FULL_ENCODED_BLOCK_SIZE := 11
  const ADDR_LEN := 95
  const INTEGRATED_ADDR_LEN := 106

  /** Characters a block of `n` bytes takes. */
  function EncodedSize(n: nat): nat
    requires n <= FULL_BLOCK_SIZE
  {
    [0, 2, 3, 5, 6, 7, 9, 10, 11][n]
  }

  // --- the alphabet, as ranges ------------------------------------------------------------------

  /** The alphabet skips 0, I, O and l, and is otherwise in order. */
  function Char58(d: nat): (c: char)
    requires d < 58
  {
    if d < 9 then '1' + d as char
    else if d < 17 then 'A' + (d - 9) as char
    else if d < 22 then 'J' + (d - 17) as char
    else if d < 33 then 'P' + (d - 22) as char
    else if d < 44 then 'a' + (d - 33) as char
    else 'm' + (d - 44) as char
  }

  lemma AlphabetIs(d: nat)
    requires d < 58
    ensures |ALPHABET| == 58 && ALPHABET[d] == Char58(d)
  {
    if d < 9 {
      assert ALPHABET[d] == "123456789"[d];
    } else if d < 17 {
      assert ALPHABET[d] == "ABCDEFGH"[d - 9];
    } else if d < 22 {
      assert ALPHABET[d] == "JKLMN"[d - 17];
    } else if d < 33 {
      assert ALPHABET[d] == "PQRSTUVWXYZ"[d - 22];
    } else if d < 44 {
      assert ALPHABET[d] == "abcdefghijk"[d - 33];
    } else {
      assert ALPHABET[d] == "mnopqrstuvwxyz"[d - 44];
    }
  }

  /** The digit a character stands for. */
  function Value58(c: char): int
  {
    if c <= '9' then c as int - '1' as int
    else if c <= 'H' then c as int - 'A' as int + 9
    else if c <= 'N' then c as int - 'J' as int + 17
    else if c <= 'Z' then c as int - 'P' as int + 22
    else if c <= 'k' then c as int - 'a' as int + 33
    else c as int - 'm' as int + 44
  }

  lemma ValueOfChar(d: nat)
    requires d < 58
    ensures Value58(Char58(d)) == d && Char58(d) != NUL
  {
  }

  // --- one block --------------------------------------------------------------------------------

  function Pow58(n: nat): nat
  {
    if n == 0 then 1 else 58 * Pow58(n - 1)
  }

  /** Exactly `n` characters, the most significant first. */
  function Enc58(v: nat, n: nat): (s: string)
    ensures |s| == n
  {
    if n == 0 then "" else Enc58(v / 58, n - 1) + [Char58(v % 58)]
  }

  function Num58(s: string): int
  {
    if s == "" then 0 else 58 * Num58(s[..|s| - 1]) + Value58(s[|s| - 1])
  }

  lemma {:induction false} NumOfEnc(v: nat, n: nat)
    requires v < Pow58(n)
    ensures Num58(Enc58(v, n)) == v
  {
    hide Value58, Char58;
    if n > 0 {
      NumOfEnc(v / 58, n - 1);
      ValueOfChar(v % 58);
      assert Enc58(v, n)[..n - 1] == Enc58(v / 58, n - 1);
    }
  }

  /** Every character is one of the 58. */
  predicate IsText(s: string)
  {
    forall i :: 0 <= i < |s| ==> s[i] in ALPHABET
  }

  lemma {:induction false} EncIsText(v: nat, n: nat)
    ensures IsText(Enc58(v, n))
  {
    hide Char58;
    if n > 0 {
      EncIsText(v / 58, n - 1);
      AlphabetIs(v % 58);
    }
  }

  /** The 58 characters are distinct, and none of them is NUL. */
  lemma AlphabetDistinct(c: nat, d: nat)
    requires c < 58 && d < 58
    ensures |ALPHABET| == 58 && ALPHABET[d] != NUL && (ALPHABET[c] == ALPHABET[d] ==> c == d)
  {
    AlphabetIs(c);
    AlphabetIs(d);
    ValueOfChar(c);
    ValueOfChar(d);
  }

  lemma NoNul()
    ensures NUL !in ALPHABET
  {
    AlphabetDistinct(0, 0);
    forall d | 0 <= d < |ALPHABET|
      ensures ALPHABET[d] != NUL
    {
      AlphabetDistinct(d, d);
    }
  }

  /** A block: its big-endian number in as many characters as its size takes. */
  function EncodeBlock(block: bytes): (s: string)
    requires |block| <= FULL_BLOCK_SIZE
    ensures |s| == EncodedSize(|block|)
  {
    Enc58(FromBE(block), EncodedSize(|block|))
  }

  lemma {:induction false} BEBound(s: bytes)
    ensures FromBE(s) < Pow2(8 * |s|)
  {
    if s != [] {
      BEBound(s[..|s| - 1]);
      Pow2Byte(8 * (|s| - 1));
    }
  }

  lemma Powers58()
    ensures Pow58(2) == 3364 && Pow58(3) == 195112 && Pow58(5) == 656356768 && Pow58(6) == 38068692544
    ensures Pow58(7) == 2207984167552 && Pow58(9) == 7427658739644928 && Pow58(10) == 430804206899405824
    ensures Pow58(11) == 24986644000165537792
  {
    assert Pow58(1) == 58;
    assert Pow58(2) == 58 * Pow58(1);
    assert Pow58(4) == 58 * Pow58(3);
    assert Pow58(6) == 58 * Pow58(5);
    assert Pow58(8) == 58 * Pow58(7);
    assert Pow58(10) == 58 * Pow58(9);
  }

  /** There is room in the characters for every value of the bytes: 58^enc(n) >= 256^n. */
  lemma BlockFits(n: nat)
    requires n <= FULL_BLOCK_SIZE
    ensures Pow2(8 * n) <= Pow58(EncodedSize(n))
  {
    hide Pow2, Pow58;
    Pow2Zero();
    Pow58Zero();
    Powers58();
    Pow2Byte(0); Pow2Byte(8); Pow2Byte(16); Pow2Byte(24); Pow2Byte(32); Pow2Byte(40); Pow2Byte(48); Pow2Byte(56);
  }

  lemma Pow58Zero()
    ensures Pow58(0) == 1
  {
  }

  /** Two blocks of one size with one encoding are the same block. */
  lemma BlockInjective(a: bytes, b: bytes)
    requires |a| == |b| <= FULL_BLOCK_SIZE && EncodeBlock(a) == EncodeBlock(b)
    ensures a == b
  {
    hide Enc58, Num58, FromBE, ToBE, Pow2, Pow58;
    BlockFits(|a|);
    BEBound(a);
    BEBound(b);
    NumOfEnc(FromBE(a), EncodedSize(|a|));
    NumOfEnc(FromBE(b), EncodedSize(|b|));
    ToFromBE(a);
    ToFromBE(b);
  }

  // --- a whole string -----------------------------------------------------------------------------

  function Encode58(data: bytes): string
  {
    if |data| < FULL_BLOCK_SIZE then EncodeBlock(data)
    else EncodeBlock(data[..FULL_BLOCK_SIZE]) + Encode58(data[FULL_BLOCK_SIZE..])
  }

  lemma {:induction false} Encode58Length(data: bytes)
    ensures |Encode58(data)| ==
      FULL_ENCODED_BLOCK_SIZE * (|data| / FULL_BLOCK_SIZE) + EncodedSize(|data| % FULL_BLOCK_SIZE)
  {
    hide EncodeBlock;
    if |data| >= FULL_BLOCK_SIZE {
      Encode58Length(data[FULL_BLOCK_SIZE..]);
      EightLess(|data|);
    }
  }

  lemma EightLess(n: nat)
    requires n >= 8
    ensures (n - 8) / 8 == n / 8 - 1 && (n - 8) % 8 == n % 8
  {
  }

  lemma {:induction false} Encode58IsText(data: bytes)
    ensures IsText(Encode58(data))
  {
    hide Enc58;
    if |data| < FULL_BLOCK_SIZE {
      EncIsText(FromBE(data), EncodedSize(|data|));
    } else {
      EncIsText(FromBE(data[..FULL_BLOCK_SIZE]), EncodedSize(FULL_BLOCK_SIZE));
      Encode58IsText(data[FULL_BLOCK_SIZE..]);
    }
  }

  /** Two strings of one length with one text are the same string. */
  lemma {:induction false} Encode58Injective(a: bytes, b: bytes)
    requires |a| == |b| && Encode58(a) == Encode58(b)
    ensures a == b
  {
    hide EncodeBlock;
    if |a| < FULL_BLOCK_SIZE {
      BlockInjective(a, b);
    } else {
      var x, y := Encode58(a), Encode58(b);
      assert x[..11] == EncodeBlock(a[..8]) && y[..11] == EncodeBlock(b[..8]);
      assert x[11..] == Encode58(a[8..]) && y[11..] == Encode58(b[8..]);
      BlockInjective(a[..8], b[..8]);
      Encode58Injective(a[8..], b[8..]);
      assert a == a[..8] + a[8..] && b == b[..8] + b[8..];
    }
  }

  // --- addresses ------------------------------------------------------------------------------------

  const MAINNET := 0
  const TESTNET := 1
  const STAGENET := 2

  datatype Kind = Standard | Subaddress | Integrated

  /** The network and kind byte that starts an address. */
  function PrefixOf(network: nat, kind: Kind): Option<byte>
  {
    if network == TESTNET then Some(if kind.Integrated? then 54 else if kind.Subaddress? then 63 else 53)
    else if network == STAGENET then Some(if kind.Integrated? then 25 else if kind.Subaddress? then 36 else 24)
    else if network == MAINNET then Some(if kind.Integrated? then 19 else if kind.Subaddress? then 42 else 18)
    else None
  }

  lemma PrefixesDiffer(m: nat, i: Kind, n: nat, j: Kind)
    requires PrefixOf(m, i).Some? && PrefixOf(m, i) == PrefixOf(n, j)
    ensures m == n && i == j
  {
  }

  function KindOf(sub: byte, pid: Option<pid8>): Kind
  {
    if pid.Some? then Integrated else if sub != 0 then Subaddress else Standard
  }

  function PidBytes(pid: Option<pid8>): bytes
  {
    if pid.Some? then pid.value else []
  }

  /** Prefix, spend key, view key and payment ID, then four bytes of their hash. */
  function Body(prefix: byte, view: key, spend: key, pid: Option<pid8>): bytes
  {
    [prefix] + spend + view + PidBytes(pid)
  }

  function Address(keccak: bytes -> key, prefix: byte, view: key, spend: key, pid: Option<pid8>): string
  {
    var body := Body(prefix, view, spend, pid);
    Encode58(body + keccak(body)[..4])
  }

  function AddressLength(pid: Option<pid8>): nat
  {
    if pid.Some? then INTEGRATED_ADDR_LEN else ADDR_LEN
  }

  /** An address text has exactly 95 or 106 characters, all of them of the alphabet, and so
      none of them NUL. */
  lemma AddressShape(keccak: bytes -> key, prefix: byte, view: key, spend: key, pid: Option<pid8>)
    ensures |Address(keccak, prefix, view, spend, pid)| == AddressLength(pid)
    ensures IsText(Address(keccak, prefix, view, spend, pid)) && NUL !in Address(keccak, prefix, view, spend, pid)
  {
    hide Encode58;
    var body := Body(prefix, view, spend, pid);
    Encode58Length(body + keccak(body)[..4]);
    Encode58IsText(body + keccak(body)[..4]);
    NoNul();
  }

  /** Main result: the text of an address determines its network and kind, spend key, view
      key and payment ID. */
  lemma AddressDetermines(keccak: bytes -> key, m: nat, i: Kind, v: key, s: key, p: Option<pid8>,
                          n: nat, j: Kind, w: key, t: key, q: Option<pid8>)
    requires PrefixOf(m, i).Some? && PrefixOf(n, j).Some?
    requires Address(keccak, PrefixOf(m, i).value, v, s, p) == Address(keccak, PrefixOf(n, j).value, w, t, q)
    ensures m == n && i == j && v == w && s == t && p == q
  {
    hide Encode58;
    var x, y := PrefixOf(m, i).value, PrefixOf(n, j).value;
    AddressShape(keccak, x, v, s, p);
    AddressShape(keccak, y, w, t, q);
    var a, b := Body(x, v, s, p), Body(y, w, t, q);
    Encode58Injective(a + keccak(a)[..4], b + keccak(b)[..4]);
    assert (a + keccak(a)[..4])[..|a|] == a && (b + keccak(b)[..4])[..|b|] == b;
    BodyDetermines(x, v, s, p, y, w, t, q);
    PrefixesDiffer(m, i, n, j);
  }

  lemma BodyDetermines(x: byte, v: key, s: key, p: Option<pid8>, y: byte, w: key, t: key, q: Option<pid8>)
    requires Body(x, v, s, p) == Body(y, w, t, q) && (p.Some? <==> q.Some?)
    ensures x == y && v == w && s == t && p == q
  {
    var a, b := Body(x, v, s, p), Body(y, w, t, q);
    assert a[0] == x && a[1..33] == s && a[33..65] == v && a[65..] == PidBytes(p);
    assert b[0] == y && b[1..33] == t && b[33..65] == w && b[65..] == PidBytes(q);
  }

  // --- the C code ------------------------------------------------------------------------------------

  lemma {:induction false} OrComm(a: nat, b: nat)
    ensures Or(a, b) == Or(b, a)
    decreases a + b
  {
    if a != 0 || b != 0 { OrComm(a / 2, b / 2); }
  }

  lemma ShiftIn(res: nat, b: byte)
    ensures Or(Shl(res, 8), b) == 256 * res + b
  {
    hide Or;
    Pow2Values();
    OrShifted(b, res, 8);
    OrComm(b, Shl(res, 8));
    ShlByte(res);
  }

  lemma ShlByte(x: nat)
    ensures Shl(x, 8) == 256 * x
  {
    assert Shl(x, 1) == 2 * x;
    assert Shl(x, 3) == 8 * x;
    assert Shl(x, 5) == 32 * x;
    assert Shl(x, 7) == 128 * x;
  }

  /** `uint_8be_to_64`: the fall-through switch, one case per byte, on a 64-bit accumulator. */
  method Uint8BeTo64(data: bytes) returns (res: nat)
    requires |data| <= 8
    ensures res == FromBE(data) < TWO64
  {
    hide Or, Shl, Pow2;
    res := 0;
    Pow2Zero();
    for i := 0 to |data|
      invariant res == FromBE(data[..i]) && res < Pow2(8 * i)
    {
      ShiftIn(res, data[i]);
      ShlByte(res);
      Pow2Byte(8 * i);
      Pow2Mono(8 * (i + 1), 64);
      Pow2Values();
      res := Or(Shl(res, 8) % TWO64, data[i]);
      assert data[..i + 1][..i] == data[..i];
    }
    Pow2Values();
    Pow2Mono(8 * |data|, 64);
    assert data[..|data|] == data;
  }

  /** `encode_block`, into `str` from position `at`. */
  method WriteBlock(block: bytes, str: array<char>, at: nat)
    requires |block| <= FULL_BLOCK_SIZE && at + EncodedSize(|block|) <= str.Length
    modifies str
    ensures str[at..at + EncodedSize(|block|)] == EncodeBlock(block)
    ensures str[..at] == old(str[..at])
    ensures str[at + EncodedSize(|block|)..] == old(str[at + EncodedSize(|block|)..])
  {
    hide Char58, Enc58;
    var num := Uint8BeTo64(block);
    var n := EncodedSize(|block|);
    var i: nat := n;
    ghost var text := EncodeBlock(block);
    while i > 0
      invariant i <= n && text[..i] == Enc58(num, i)
      invariant forall j :: at + i <= j < at + n ==> str[j] == text[j - at]
      invariant forall j :: 0 <= j < at ==> str[j] == old(str[j])
      invariant forall j :: at + n <= j < str.Length ==> str[j] == old(str[j])
    {
      i := i - 1;
      AlphabetIs(num % 58);
      LastChar(text, num, i);
      str[at + i] := ALPHABET[num % 58];
      num := num / 58;
    }
    ghost var written := str[at..at + n];
    assert forall j :: 0 <= j < n ==> written[j] == str[at + j] == text[j];
  }

  lemma LastChar(text: string, num: nat, i: nat)
    requires i < |text| && text[..i + 1] == Enc58(num, i + 1)
    ensures text[i] == Char58(num % 58) && text[..i] == Enc58(num / 58, i)
  {
    hide Char58;
    assert text[..i + 1][i] == text[i] && text[..i + 1][..i] == text[..i];
  }

  /** The text of the first `i` blocks. */
  lemma {:induction false} BlockText(data: bytes, i: nat)
    requires i < |data| / FULL_BLOCK_SIZE
    ensures Encode58(data[8 * i..]) == EncodeBlock(data[8 * i..8 * i + 8]) + Encode58(data[8 * (i + 1)..])
  {
    hide EncodeBlock;
    assert data[8 * i..][..8] == data[8 * i..8 * i + 8] && data[8 * i..][8..] == data[8 * (i + 1)..];
  }

  /** One more block of text after `n` characters already there. */
  method WriteNext(block: bytes, str: array<char>, at: nat, ghost total: nat, ghost text: string)
    requires |block| <= FULL_BLOCK_SIZE && at + EncodedSize(|block|) <= total <= str.Length && str[..at] == text
    modifies str
    ensures str[..at + EncodedSize(|block|)] == text + EncodeBlock(block)
    ensures str[total..] == old(str[total..])
  {
    hide EncodeBlock;
    var n := at + EncodedSize(|block|);
    ghost var was := str[n..];
    assert str[total..] == was[total - n..];
    WriteBlock(block, str, at);
    assert str[..n] == str[..at] + str[at..n];
    assert str[total..] == str[n..][total - n..];
  }

  /** The full blocks and the last one, as the address is written. */
  method WriteAll(data: bytes, str: array<char>)
    requires |Encode58(data)| <= str.Length
    modifies str
    ensures str[..|Encode58(data)|] == Encode58(data)
    ensures str[|Encode58(data)|..] == old(str[|Encode58(data)|..])
  {
    hide EncodeBlock, Encode58;
    Encode58Length(data);
    ghost var text, total := Encode58(data), |Encode58(data)|;
    var full, last := |data| / FULL_BLOCK_SIZE, |data| % FULL_BLOCK_SIZE;
    ghost var done: string := "";
    assert data[8 * 0..] == data;
    for i := 0 to full
      invariant |done| == 11 * i <= str.Length && str[..11 * i] == done && text == done + Encode58(data[8 * i..])
      invariant str[total..] == old(str[total..])
    {
      BlockText(data, i);
      WriteNext(data[8 * i..8 * i + 8], str, 11 * i, total, done);
      Glue(done, EncodeBlock(data[8 * i..8 * i + 8]), Encode58(data[8 * (i + 1)..]));
      done := done + EncodeBlock(data[8 * i..8 * i + 8]);
    }
    LastBlock(data[8 * full..]);
    if last > 0 {
      WriteNext(data[8 * full..], str, 11 * full, total, done);
    }
  }

  lemma Glue(a: string, b: string, c: string)
    ensures a + (b + c) == a + b + c
  {
  }

  lemma LastBlock(data: bytes)
    requires |data| < FULL_BLOCK_SIZE
    ensures Encode58(data) == EncodeBlock(data) && (data == [] ==> Encode58(data) == "")
  {
  }

  /** `monero_base58_public_key`. On a network it does not know it writes an empty string. */
  method PublicKeyText(keccak: bytes -> key, network: nat, str: array<char>, view: key, spend: key, sub: byte,
                       pid: Option<pid8>) returns (sw: nat)
    modifies str
    ensures sw == if str.Length < AddressLength(pid) + 1 then SW_SECURITY_INTERNAL else 0
    ensures sw == 0 && PrefixOf(network, KindOf(sub, pid)).None? ==> str[0] == NUL
    ensures sw == 0 && PrefixOf(network, KindOf(sub, pid)).Some? ==>
      str[..AddressLength(pid)] == Address(keccak, PrefixOf(network, KindOf(sub, pid)).value, view, spend, pid)
      && str[AddressLength(pid)] == NUL
  {
    hide Encode58, Encode, Pow2, PrefixOf, KindOf;
    if str.Length < AddressLength(pid) + 1 { return SW_SECURITY_INTERNAL; }
    var prefix := PrefixOf(network, KindOf(sub, pid));
    if prefix.None? {
      str[0] := NUL;
      return 0;
    }
    var varint := new byte[8];
    var n;
    SmallPrefix(network, KindOf(sub, pid));
    sw, n := EncodeVarint(varint, 8, prefix.value);
    var data := varint[..n];
    data := data + spend;
    data := data + view;
    if pid.Some? { data := data + pid.value; }
    assert data == Body(prefix.value, view, spend, pid);
    AddressShape(keccak, prefix.value, view, spend, pid);
    var hash := keccak(data);
    data := data + hash[..4];
    WriteAll(data, str);
    ghost var text := Address(keccak, prefix.value, view, spend, pid);
    str[AddressLength(pid)] := NUL;
    assert str[..AddressLength(pid)] == text;
    sw := 0;
  }

  lemma SmallPrefix(network: nat, kind: Kind)
    ensures Pow2(7 * 8) > 128
    ensures PrefixOf(network, kind).Some? ==>
      PrefixOf(network, kind).value < 128 && Encode(PrefixOf(network, kind).value) == [PrefixOf(network, kind).value]
  {
    hide Pow2;
    Pow2Values();
    Pow2Mono(8, 56);
  }
}
