/** Secret handles: the two-pass cipher that makes them, and the MAC that guards them. */
module Handles {
  import opened Bytes
  import Status
  import opened Scalars
  import opened DeviceState
  import opened DeviceSpec
  import opened DeviceRuns
  import Ordering
  import Nonces

  type block = b: bytes | |b| == 16 witness Repeat(0, 16)

  /** The block cipher under the device's key: any permutation of 16-byte blocks. */
  datatype Cipher = Cipher(encrypt: block -> block, decrypt: block -> block)

  ghost predicate IsPermutation(c: Cipher)
  {
    (forall b: block :: c.decrypt(c.encrypt(b)) == b) && (forall b: block :: c.encrypt(c.decrypt(b)) == b)
  }

  function XorBlock(a: block, b: block): block
  {
    seq(16, i requires 0 <= i < 16 => XorByte(a[i], b[i]))
  }

  lemma XorBlockCancel(a: block, b: block)
    ensures XorBlock(XorBlock(a, b), b) == a
  {
    forall i | 0 <= i < 16
      ensures XorBlock(XorBlock(a, b), b)[i] == a[i]
    {
      XorByteTwice(a[i], b[i]);
    }
  }

  /** Different blocks stay different. */
  lemma XorBlockInjective(a: block, b: block, m: block)
    requires a != b
    ensures XorBlock(a, m) != XorBlock(b, m)
  {
    XorBlockCancel(a, m);
    XorBlockCancel(b, m);
  }

  // --- CBC over two blocks, zero initial vector (NIST SP 800-38A section 6.2) ----------------

  function Low(x: key): block { x[..16] }

  function High(x: key): block { x[16..] }

  function Join(a: block, b: block): (x: key)
    ensures Low(x) == a && High(x) == b
  {
    a + b
  }

  const ZERO_BLOCK: block := Repeat(0, 16)

  function CbcEncrypt(c: Cipher, x: key): key
  {
    var first := c.encrypt(XorBlock(Low(x), ZERO_BLOCK));
    Join(first, c.encrypt(XorBlock(High(x), first)))
  }

  function CbcDecrypt(c: Cipher, y: key): key
  {
    Join(XorBlock(c.decrypt(Low(y)), ZERO_BLOCK), XorBlock(c.decrypt(High(y)), Low(y)))
  }

  lemma CbcInverse(c: Cipher, x: key)
    requires IsPermutation(c)
    ensures CbcDecrypt(c, CbcEncrypt(c, x)) == x
  {
    hide XorBlock;
    var first := c.encrypt(XorBlock(Low(x), ZERO_BLOCK));
    XorBlockCancel(Low(x), ZERO_BLOCK);
    XorBlockCancel(High(x), first);
    assert x == Low(x) + High(x);
  }

  function Swap(x: key): key
  {
    Join(High(x), Low(x))
  }

  /** A handle from a secret, and back: two passes with the halves swapped in between. */
  function SealWith(c: Cipher, x: key): key
  {
    CbcEncrypt(c, Swap(CbcEncrypt(c, x)))
  }

  function UnsealWith(c: Cipher, y: key): key
  {
    CbcDecrypt(c, Swap(CbcDecrypt(c, y)))
  }

  /** The decrypt direction undoes the encrypt direction, whatever the block permutation. */
  lemma HandleRoundTrip(c: Cipher, x: key)
    requires IsPermutation(c)
    ensures UnsealWith(c, SealWith(c, x)) == x
  {
    hide CbcEncrypt, CbcDecrypt;
    var t := CbcEncrypt(c, x);
    CbcInverse(c, Swap(t));
    CbcInverse(c, x);
    assert t == Low(t) + High(t) && Swap(Swap(t)) == t;
  }

  /** One pass would leak: a handle spliced after its first half still opens to the first
      half of the secret it was cut from. */
  lemma OnePassKeepsAHalf(c: Cipher, y: key, spliced: key)
    requires Low(spliced) == Low(y)
    ensures Low(CbcDecrypt(c, spliced)) == Low(CbcDecrypt(c, y))
  {
  }

  /** Two passes do not: replacing either half of a handle changes the first half of what it
      opens to, and replacing the second half changes both. */
  lemma SpliceChangesBoth(c: Cipher, y: key, spliced: key)
    requires IsPermutation(c)
    ensures Low(spliced) == Low(y) && High(spliced) != High(y) ==>
      Low(UnsealWith(c, spliced)) != Low(UnsealWith(c, y)) && High(UnsealWith(c, spliced)) != High(UnsealWith(c, y))
    ensures High(spliced) == High(y) && Low(spliced) != Low(y) ==>
      Low(UnsealWith(c, spliced)) != Low(UnsealWith(c, y))
  {
    hide XorBlock;
    var t, u := CbcDecrypt(c, y), CbcDecrypt(c, spliced);
    if Low(spliced) == Low(y) && High(spliced) != High(y) {
      DecryptInjective(c, High(spliced), High(y));
      XorBlockInjective(c.decrypt(High(spliced)), c.decrypt(High(y)), Low(y));
      DecryptInjective(c, High(u), High(t));
      XorBlockInjective(c.decrypt(High(u)), c.decrypt(High(t)), ZERO_BLOCK);
      XorRight(c.decrypt(Low(t)), High(u), High(t));
    }
    if High(spliced) == High(y) && Low(spliced) != Low(y) {
      XorRight(c.decrypt(High(y)), Low(spliced), Low(y));
      DecryptInjective(c, High(u), High(t));
      XorBlockInjective(c.decrypt(High(u)), c.decrypt(High(t)), ZERO_BLOCK);
    }
  }

  lemma DecryptInjective(c: Cipher, a: block, b: block)
    requires IsPermutation(c) && a != b
    ensures c.decrypt(a) != c.decrypt(b)
  {
    assert c.encrypt(c.decrypt(a)) == a && c.encrypt(c.decrypt(b)) == b;
  }

  lemma XorRight(m: block, a: block, b: block)
    ensures XorBlock(m, a) == XorBlock(m, b) ==> a == b
  {
    if XorBlock(m, a) == XorBlock(m, b) {
      forall i | 0 <= i < 16
        ensures a[i] == b[i]
      {
        assert XorBlock(m, a)[i] == XorBlock(m, b)[i];
        XorByteRight(m[i], a[i], b[i]);
      }
    }
  }

  lemma XorByteRight(m: byte, a: byte, b: byte)
    requires XorByte(m, a) == XorByte(m, b)
    ensures a == b
  {
    hide Xor;
    XorComm(m, a);
    XorComm(m, b);
    XorCancel(a, m);
    XorCancel(b, m);
  }

  lemma {:induction false} XorComm(a: nat, b: nat)
    ensures Xor(a, b) == Xor(b, a)
    decreases a + b
  {
    if a != 0 || b != 0 { XorComm(a / 2, b / 2); }
  }

  // --- the same, in place ---------------------------------------------------------------------

  /** cx_aes_no_throw in CBC mode without padding, on 32 bytes. */
  method CbcPass(c: Cipher, decrypt: bool, src: array<byte>, dst: array<byte>)
    requires src.Length == dst.Length == KEY_SIZE
    modifies dst
    ensures dst[..] == if decrypt then CbcDecrypt(c, old(src[..])) else CbcEncrypt(c, old(src[..]))
  {
    var x := src[..];
    var y := if decrypt then CbcDecrypt(c, x) else CbcEncrypt(c, x);
    for i := 0 to KEY_SIZE
      invariant forall j :: 0 <= j < i ==> dst[j] == y[j]
    {
      dst[i] := y[i];
    }
  }

  method SwapHalves(p: array<byte>)
    requires p.Length == KEY_SIZE
    modifies p
    ensures p[..] == Swap(old(p[..]))
  {
    for i := 0 to 16
      invariant forall j :: 0 <= j < i ==> p[j] == old(p[16 + j]) && p[16 + j] == old(p[j])
      invariant forall j :: i <= j < 16 ==> p[j] == old(p[j])
      invariant forall j :: 16 + i <= j < 32 ==> p[j] == old(p[j])
    {
      p[i], p[16 + i] := p[16 + i], p[i];
    }
    ghost var was := old(p[..]);
    assert forall j :: 16 <= j < 32 ==> p[j] == p[16 + (j - 16)];
    assert p[..] == was[16..] + was[..16];
  }

  /** `monero_io_handle_crypt` on a 32-byte handle: `dst` may be `src`. */
  method HandleCrypt(c: Cipher, dst: array<byte>, src: array<byte>, decrypt: bool)
    requires src.Length == dst.Length == KEY_SIZE
    modifies dst
    ensures dst[..] == if decrypt then UnsealWith(c, old(src[..])) else SealWith(c, old(src[..]))
  {
    hide CbcEncrypt, CbcDecrypt, Swap;
    var t := new byte[KEY_SIZE];
    CbcPass(c, decrypt, src, t);
    SwapHalves(t);
    CbcPass(c, decrypt, t, dst);
  }

  // --- the MAC ----------------------------------------------------------------------------------

  function Count4(n: word32): bytes
  {
    [n % 256, n / 256 % 256, n / 0x1_0000 % 256, n / 0x100_0000]
  }

  /** The 37 bytes the MAC is computed over. */
  function MacInput(data: key, kind: byte, count: word32): bytes
  {
    data + [kind] + Count4(Counter(kind, count))
  }

  /** The 37 bytes determine the secret's bytes, its type and, for a nonce, its counter: two
      handles share a MAC input exactly when these agree. */
  lemma MacInputExact(a: key, i: byte, m: word32, b: key, j: byte, n: word32)
    ensures MacInput(a, i, m) == MacInput(b, j, n) <==> a == b && i == j && (i == TYPE_ALPHA ==> m == n)
  {
    var x, y := MacInput(a, i, m), MacInput(b, j, n);
    assert x[..32] == a && x[32] == i && x[33..] == Count4(Counter(i, m));
    assert y[..32] == b && y[32] == j && y[33..] == Count4(Counter(j, n));
    CountExact(Counter(i, m), Counter(j, n));
  }

  lemma CountExact(m: word32, n: word32)
    ensures Count4(m) == Count4(n) ==> m == n
  {
    CountValue(m);
    CountValue(n);
    var x, y := Count4(m), Count4(n);
    assert x == y ==> x[0] == y[0] && x[1] == y[1] && x[2] == y[2] && x[3] == y[3];
  }

  lemma CountValue(n: word32)
    ensures n == n % 256 + 0x100 * (n / 256 % 256) + 0x1_0000 * (n / 0x1_0000 % 256) + 0x100_0000 * (n / 0x100_0000)
  {
    assert n / 256 / 256 == n / 0x1_0000 && n / 0x1_0000 / 256 == n / 0x100_0000;
  }

  /** Two different tuples with one MAC. */
  predicate MacCollision(e: Env, m: Mint, n: Mint)
  {
    m != n && e.mac(m) == e.mac(n)
  }

  /** What fetching the handle `m` of the secret `x` as type `other` comes to: the secret, as
      far as that type may hold it, when it is fetched as its own type and, if it is a nonce,
      under its own count; fetched in any other way, a MAC failure, unless these bytes were
      handed out in that way too and the two MACs collide. */
  predicate FetchedAs(e: Env, d: Dev, x: key, m: Mint, other: nat, rest: bytes)
  {
    var want := Mint(m.keyId, m.data, other, if other == TYPE_ALPHA then d.keys.signCnt else 0);
    var r := FetchHandle(e, d, m.data + e.mac(m) + rest, other);
    if m == want then
      r == if AllZero(x) || (other == TYPE_SCALAR && LE(x) >= L) then Bad(Status.SW_WRONG_DATA_RANGE) else Got(x, rest)
    else r == Bad(Status.SW_SECURITY_HMAC) || (want in d.keys.minted && MacCollision(e, m, want))
  }

  /** A handle minted under the MAC key in force is fetched exactly as it was minted. */
  lemma FetchExactlyAsMinted(e: Env, d: Dev, x: key, kind: nat, count: nat, other: nat, rest: bytes)
    requires d.session.inProgress && e.unseal(e.seal(x)) == x
    requires Mint(d.keys.keyId, e.seal(x), kind, count) in d.keys.minted
    ensures FetchedAs(e, d, x, Mint(d.keys.keyId, e.seal(x), kind, count), other, rest)
  {
    hide AllZero, LE;
    var m := Mint(d.keys.keyId, e.seal(x), kind, count);
    var data := e.seal(x) + e.mac(m) + rest;
    assert data[..KEY_SIZE] == e.seal(x) && data[KEY_SIZE..2 * KEY_SIZE] == e.mac(m) && data[2 * KEY_SIZE..] == rest;
  }

  /** These 64 bytes are a scalar handed out in the transaction, with its MAC. */
  predicate Handed(e: Env, k: Keys, b: bytes)
    requires |b| == 2 * KEY_SIZE
  {
    var m := Mint(k.keyId, b[..KEY_SIZE], TYPE_SCALAR, 0);
    m in k.minted && e.mac(m) == b[KEY_SIZE..]
  }

  /** What a key is, where a command takes one: the view secret for 32 zeros and nothing for 32
      times 255; in a transaction, both zeros and any other handle only with its MAC, and only with
      a secret between 0 and l. */
  lemma KeyExactly(e: Env, d: Dev, b: bytes, rest: bytes)
    requires d.session.inProgress && |b| == 2 * KEY_SIZE
    ensures
      var r, x := FetchKey(e, d, b + rest), e.unseal(b[..KEY_SIZE]);
      r == if b[..KEY_SIZE] == Repeat(255, 32) then Bad(Status.SW_WRONG_DATA)
           else if !Handed(e, d.keys, b) then Bad(Status.SW_SECURITY_HMAC)
           else if b[..KEY_SIZE] == Repeat(0, 32) then Got(e.wallet.secret, rest)
           else if AllZero(x) || LE(x) >= L then Bad(Status.SW_WRONG_DATA_RANGE)
           else Got(x, rest)
  {
    hide AllZero, LE;
    var data := b + rest;
    assert data[..KEY_SIZE] == b[..KEY_SIZE] && data[KEY_SIZE..2 * KEY_SIZE] == b[KEY_SIZE..];
    assert data[2 * KEY_SIZE..] == rest;
    if b[..KEY_SIZE] == ZERO_KEY { assert ZERO_KEY[0] == 0 && FAKE_SPEND_KEY[0] == 255; }
  }

  // --- over runs ----------------------------------------------------------------------------------

  /** The transaction of `d` goes on in `s`, with its key and the handles it had. */
  predicate SameHandles(d: Dev, s: Dev)
  {
    && s.keys.keyId == d.keys.keyId && d.keys.minted <= s.keys.minted
    && s.session.inProgress == d.session.inProgress && s.keys.r == d.keys.r && s.keys.publicR == d.keys.publicR
  }

  lemma StepSame(e: Env, d: Dev, s: Dev, n: Note)
    requires Nonces.AnyStep(e, d, s, n) && !Boundary(n)
    ensures SameHandles(d, s)
  {
  }

  lemma NextSame(e: Env, d: Dev, ev: Event)
    requires Next(e, d, ev).Running? && !Boundary(Next(e, d, ev).note)
    ensures SameHandles(d, Next(e, d, ev).d)
  {
    match ev
    case Command(c) =>
      hide Serve, Access, Dispatch, Protocol, Nonces.AnyStep;
      CommandRuns(e, d, c);
      Ordering.EnterKeeps(d, c);
      Nonces.NonceServe(e, Entered(d, c), c, c.body[0], c.body[1..]);
      StepSame(e, Entered(d, c), Next(e, d, ev).d, Next(e, d, ev).note);
    case Accept =>
    case Reject =>
    case UserReset =>
  }

  /** While nothing closes or reopens the transaction, no handle is forgotten. */
  lemma {:induction false} HandlesSurvive(e: Env, evs: seq<Event>, i: nat)
    requires i <= |evs| && Play(e, evs).Alive?
    requires forall j :: i < j < |Play(e, evs).notes| ==> !Boundary(Play(e, evs).notes[j])
    ensures |Play(e, evs).notes| == |evs| + 1
    ensures Play(e, evs[..i]).Alive? && SameHandles(Play(e, evs[..i]).d, Play(e, evs).d)
    decreases |evs| - i
  {
    hide Next, SameHandles;
    OneNoteEach(e, evs);
    if i == |evs| {
      assert evs[..i] == evs;
      SameSelf(Play(e, evs).d);
    } else {
      var before := evs[..|evs| - 1];
      var p := Play(e, before);
      assert forall j :: 0 <= j < |p.notes| ==> Play(e, evs).notes[j] == p.notes[j];
      assert Play(e, evs).notes[|evs|] == Next(e, p.d, evs[|evs| - 1]).note by { OneNoteEach(e, before); }
      HandlesSurvive(e, before, i);
      assert before[..i] == evs[..i];
      NextSame(e, p.d, evs[|evs| - 1]);
      SameChain(Play(e, evs[..i]).d, p.d, Play(e, evs).d);
    }
  }

  lemma SameSelf(d: Dev)
    ensures SameHandles(d, d)
  {
  }

  lemma SameChain(d: Dev, s: Dev, t: Dev)
    requires SameHandles(d, s) && SameHandles(s, t)
    ensures SameHandles(d, t)
  {
  }

  lemma {:induction false} OneNoteEach(e: Env, evs: seq<Event>)
    ensures Play(e, evs).Alive? ==> |Play(e, evs).notes| == |evs| + 1
  {
    hide Next;
    if evs != [] { OneNoteEach(e, evs[..|evs| - 1]); }
  }

  /** Main result: in every run, a handle minted at any earlier step of the transaction still
      going on is fetched exactly as it was minted. */
  lemma FetchedInRun(e: Env, evs: seq<Event>, i: nat, x: key, kind: nat, count: nat, other: nat, rest: bytes)
    requires i <= |evs| && Play(e, evs).Alive? && Play(e, evs).d.session.inProgress
    requires forall j :: i < j < |Play(e, evs).notes| ==> !Boundary(Play(e, evs).notes[j])
    requires Play(e, evs[..i]).Alive? ==>
      var k := Play(e, evs[..i]).d.keys; Mint(k.keyId, e.seal(x), kind, count) in k.minted
    requires e.unseal(e.seal(x)) == x
    ensures FetchedAs(e, Play(e, evs).d, x, Mint(Play(e, evs).d.keys.keyId, e.seal(x), kind, count), other, rest)
  {
    hide Play, FetchedAs;
    HandlesSurvive(e, evs, i);
    FetchExactlyAsMinted(e, Play(e, evs).d, x, kind, count, other, rest);
  }

  // --- the view key's placeholder ---------------------------------------------------------------------

  /** The placeholder has a handle: 32 zeros, and their MAC. */
  predicate HasPlaceholder(k: Keys)
  {
    Mint(k.keyId, ZERO_KEY, TYPE_SCALAR, 0) in k.minted
  }

  lemma OpenServesPlaceholder(e: Env, d: Dev, c: Cmd, options: byte, data: bytes)
    requires Access(d.session.inProgress, c.ins) == Status.SW_OK
    requires var r := Serve(e, d, c, options, data); !r.Refuse? && r.note.Opened?
    ensures HasPlaceholder(After(Serve(e, d, c, options, data)).keys)
  {
    hide FetchHandle, Sign, FetchKey, ParseOut, Derive, Vouched, Timelock, Opening, FeeOf, FeeLine, ParseStep,
      PidRefused, Shown, DisplayOf;
    if c.ins == INS_MLSAG || c.ins == INS_CLSAG { Ordering.SignKeepsStages(e, d, c, options, data); }
  }

  lemma NextOpens(e: Env, d: Dev, ev: Event)
    requires Next(e, d, ev).Running? && Next(e, d, ev).note.Opened?
    ensures HasPlaceholder(Next(e, d, ev).d.keys)
  {
    hide Serve, Access, Dispatch, Protocol;
    var c := ev.cmd;
    CommandRuns(e, d, c);
    Ordering.EnterKeeps(d, c);
    OpenServesPlaceholder(e, Entered(d, c), c, c.body[0], c.body[1..]);
  }

  /** In every run, while a transaction opened at step `n` goes on, 32 zeros and their MAC stand for
      the view secret, and the spend key's placeholder for nothing. */
  lemma ViewKeyInRun(e: Env, evs: seq<Event>, n: nat, rest: bytes)
    requires 0 < n < |Play(e, evs).notes| && Play(e, evs).notes[n].Opened? && Play(e, evs).Alive?
    requires forall j :: n < j < |Play(e, evs).notes| ==> !Boundary(Play(e, evs).notes[j])
    requires Play(e, evs).d.session.inProgress
    ensures
      var d, zeros: key, ones: key := Play(e, evs).d, Repeat(0, 32), Repeat(255, 32);
      && FetchKey(e, d, zeros + e.mac(Mint(d.keys.keyId, zeros, TYPE_SCALAR, 0)) + rest) == Got(e.wallet.secret, rest)
      && forall mac: key :: FetchKey(e, d, ones + mac + rest) == Bad(Status.SW_WRONG_DATA)
  {
    hide Play, Next, FetchKey, Handed, AllZero, LE;
    OneNoteEach(e, evs);
    HandlesSurvive(e, evs, n);
    var m := NoteOrigin(e, evs, n);
    OneNoteEach(e, evs[..m]);
    Extend(e, evs[..m], evs[m]);
    assert evs[..m] + [evs[m]] == evs[..n];
    NextOpens(e, Play(e, evs[..m]).d, evs[m]);
    var d, zeros: key, ones: key := Play(e, evs).d, Repeat(0, 32), Repeat(255, 32);
    PlaceholderFetched(e, d, rest);
    forall mac: key ensures FetchKey(e, d, ones + mac + rest) == Bad(Status.SW_WRONG_DATA) {
      assert (ones + mac)[..KEY_SIZE] == ones;
      KeyExactly(e, d, ones + mac, rest);
    }
  }

  lemma PlaceholderFetched(e: Env, d: Dev, rest: bytes)
    requires d.session.inProgress && HasPlaceholder(d.keys)
    ensures
      var zeros: key := Repeat(0, 32);
      FetchKey(e, d, zeros + e.mac(Mint(d.keys.keyId, zeros, TYPE_SCALAR, 0)) + rest) == Got(e.wallet.secret, rest)
  {
    hide FetchKey, AllZero, LE;
    var zeros: key := Repeat(0, 32);
    assert zeros == ZERO_KEY && zeros[0] != Repeat(255, 32)[0];
    var b := zeros + e.mac(Mint(d.keys.keyId, zeros, TYPE_SCALAR, 0));
    assert b[..KEY_SIZE] == zeros && b[KEY_SIZE..] == e.mac(Mint(d.keys.keyId, zeros, TYPE_SCALAR, 0));
    KeyExactly(e, d, b, rest);
  }
}
