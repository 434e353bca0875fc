/** Reading an address text back, with a decoder of its own. */
module AddressReader {
  import opened Bytes
  import opened Scalars
  import AmountText
  import opened Base58
  import opened DeviceState

  /** The digits of base 58, in order. */
  const LETTERS := "123456789" + "ABCDEFGHJKLMNPQRSTUVWXYZ" + "abcdefghijkmnopqrstuvwxyz"

  /** The number a string of them stands for, most significant digit first. */
  function NumberOf(s: string): nat
  {
    if s == "" then 0 else 58 * NumberOf(s[..|s| - 1]) + AmountText.IndexOf(LETTERS, s[|s| - 1])
  }

  /** How many bytes the last, shorter block of a text holds. */
  function BytesIn(n: nat): nat
  {
    match n
    case 2 => 1
    case 3 => 2
    case 5 => 3
    case 6 => 4
    case 7 => 5
    case 9 => 6
    case 10 => 7
    case _ => 0
  }

  /** Eleven characters are eight bytes, and the rest is as many bytes as its length says. */
  function Decoded(s: string): bytes
  {
    if |s| < 11 then ToBE(NumberOf(s), BytesIn(|s|)) else ToBE(NumberOf(s[..11]), 8) + Decoded(s[11..])
  }

  // --- it reads back what the device writes -------------------------------------------------------

  lemma LetterIs(d: nat)
    requires d < 58
    ensures |LETTERS| == 58 && LETTERS[d] == Char58(d)
  {
    if d < 9 {
      assert LETTERS[d] == "123456789"[d];
    } else if d < 33 {
      assert LETTERS[d] == "ABCDEFGHJKLMNPQRSTUVWXYZ"[d - 9];
    } else {
      assert LETTERS[d] == "abcdefghijkmnopqrstuvwxyz"[d - 33];
    }
  }

  lemma LetterPlace(d: nat)
    requires d < 58
    ensures AmountText.IndexOf(LETTERS, Char58(d)) == d
  {
    hide Char58;
    LetterIs(d);
    var i := AmountText.IndexOf(LETTERS, Char58(d));
    if i < 58 {
      LetterIs(i);
      ValueOfChar(i);
      ValueOfChar(d);
    }
  }

  lemma {:induction false} NumberBack(v: nat, n: nat)
    requires v < Pow58(n)
    ensures NumberOf(Enc58(v, n)) == v
  {
    hide Char58;
    if n > 0 {
      NumberBack(v / 58, n - 1);
      LetterPlace(v % 58);
      assert Enc58(v, n)[..n - 1] == Enc58(v / 58, n - 1);
    }
  }

  lemma BlockBack(block: bytes)
    requires |block| <= FULL_BLOCK_SIZE
    ensures ToBE(NumberOf(EncodeBlock(block)), |block|) == block
    ensures |block| < FULL_BLOCK_SIZE ==> BytesIn(EncodedSize(|block|)) == |block| && EncodedSize(|block|) < 11
  {
    hide Enc58, NumberOf, FromBE, ToBE, Pow2, Pow58;
    BlockFits(|block|);
    BEBound(block);
    NumberBack(FromBE(block), EncodedSize(|block|));
    ToFromBE(block);
  }

  lemma {:induction false} DecodesBack(data: bytes)
    ensures Decoded(Encode58(data)) == data
  {
    hide EncodeBlock, NumberOf, ToBE;
    if |data| < FULL_BLOCK_SIZE {
      BlockBack(data);
    } else {
      var x := Encode58(data);
      BlockBack(data[..8]);
      DecodesBack(data[8..]);
      assert x[..11] == EncodeBlock(data[..8]) && x[11..] == Encode58(data[8..]);
      assert data == data[..8] + data[8..];
    }
  }

  /** The byte that starts an address: of a network, and whether the address carries a payment ID
      or is a subaddress. */
  predicate NetworkByte(b: byte, network: nat, sub: byte, pid: Option<pid8>)
  {
    match network
    case 0 => b == if pid.Some? then 19 else if sub != 0 then 42 else 18
    case 1 => b == if pid.Some? then 54 else if sub != 0 then 63 else 53
    case 2 => b == if pid.Some? then 25 else if sub != 0 then 36 else 24
    case _ => false
  }

  /** The bytes of an address: the network byte, the spend key, the view key, the payment ID if
      there is one, and the first four bytes of the hash of all before. */
  predicate AddressBytes(hash: bytes -> key, network: nat, view: key, spend: key, sub: byte, pid: Option<pid8>,
                         b: bytes)
  {
    var n := if pid.Some? then 73 else 65;
    && |b| == n + 4 && NetworkByte(b[0], network, sub, pid)
    && b[1..33] == spend && b[33..65] == view && (pid.Some? ==> b[65..73] == pid.value)
    && b[n..] == hash(b[..n])[..4]
  }

  /** What is written for a recipient reads as its address. */
  lemma AddressReads(hash: bytes -> key, network: nat, view: key, spend: key, sub: byte, pid: Option<pid8>)
    requires network <= 2
    ensures PrefixOf(network, KindOf(sub, pid)).Some?
    ensures AddressBytes(hash, network, view, spend, sub, pid,
      Decoded(Address(hash, PrefixOf(network, KindOf(sub, pid)).value, view, spend, pid)))
  {
    hide Encode58, Decoded;
    var prefix := PrefixOf(network, KindOf(sub, pid)).value;
    var body := Body(prefix, view, spend, pid);
    var b := body + hash(body)[..4];
    DecodesBack(b);
    var n := if pid.Some? then 73 else 65;
    assert |body| == n && b[..n] == body && b[n..] == hash(body)[..4];
    assert b[0] == prefix && b[1..33] == spend && b[33..65] == view;
    if pid.Some? { assert b[65..73] == pid.value; }
  }
}
