/** Whether an address is one change may go to: the root of one of the wallet's accounts. */
module ChangeAddress {
  import opened Bytes
  import opened Status
  import opened Scalars

  const CHANGE_ACCOUNT_LOOKAHEAD := 50

  /** The wallet's primary address and view secret, and the spend key the SDK computes for a
      subaddress index; `None` where it fails. */
  datatype Wallet = Wallet(view: key, spend: key, secret: key, subSpend: bytes -> Option<key>)

  /** A multiple of a point; `None` where the SDK fails. */
  type Mul = (bytes, bytes) -> Option<key>

  /** major and minor as the app writes them, little-endian, minor 0. */
  function Index(major: nat): bytes
    requires major < 0x1_0000
  {
    [major % 256, major / 256, 0, 0, 0, 0, 0, 0]
  }

  /** `index` names the subaddress (major, 0): two little-endian words of four bytes. */
  predicate Names(index: bytes, major: nat)
  {
    |index| == 8 && LE(index[..4]) == major && LE(index[4..]) == 0
  }

  lemma IndexNames(index: bytes, major: nat)
    requires major < 0x1_0000
    ensures Names(index, major) <==> index == Index(major)
  {
    hide FromBE;
    var own := Index(major);
    assert Rev(own[..4]) == [0, 0, major / 256, major % 256] && Rev(own[4..]) == [0, 0, 0, 0];
    FromFour(0, 0, major / 256, major % 256);
    FromFour(0, 0, 0, 0);
    if Names(index, major) {
      ToFromBE(Rev(index[..4]));
      ToFromBE(Rev(own[..4]));
      ToFromBE(Rev(index[4..]));
      ToFromBE(Rev(own[4..]));
      RevRev(index[..4]);
      RevRev(own[..4]);
      RevRev(index[4..]);
      RevRev(own[4..]);
      assert index == index[..4] + index[4..] && own == own[..4] + own[4..];
    }
  }

  lemma FromFour(a: byte, b: byte, c: byte, d: byte)
    ensures FromBE([a, b, c, d]) == 0x100_0000 * a + 0x1_0000 * b + 0x100 * c + d
  {
    assert [a, b, c, d][..3] == [a, b, c] && [a, b, c][..2] == [a, b] && [a, b][..1] == [a] && [a][..0] == [];
    assert FromBE([a]) == a && FromBE([a, b]) == 0x100 * a + b;
    assert FromBE([a, b, c]) == 0x1_0000 * a + 0x100 * b + c;
  }

  /** (A, B) is the root address of account `major`: the primary one, or (a*D, D) for the
      spend key D of that account. */
  ghost predicate IsRoot(w: Wallet, mul: Mul, view: key, spend: key, major: nat)
  {
    if major == 0 then view == w.view && spend == w.spend
    else mul(spend, w.secret) == Some(view) && exists index :: Names(index, major) && w.subSpend(index) == Some(spend)
  }

  lemma RootAt(w: Wallet, mul: Mul, view: key, spend: key, major: nat)
    requires 0 < major < 0x1_0000
    ensures IsRoot(w, mul, view, spend, major)
      <==> w.subSpend(Index(major)) == Some(spend) && mul(spend, w.secret) == Some(view)
  {
    hide Names, Index;
    IndexNames(Index(major), major);
    forall index | Names(index, major) ensures index == Index(major) { IndexNames(index, major); }
  }

  datatype Root = Root(major: nat) | NoRoot(sw: nat)

  /** The accounts from `m` up, in order; the view key only on a spend key that matches. */
  function RootFrom(w: Wallet, mul: Mul, view: key, spend: key, m: nat): (r: Root)
    requires 1 <= m <= CHANGE_ACCOUNT_LOOKAHEAD
    ensures r.NoRoot? ==> r.sw == SW_SECURITY_CHANGE_ADDRESS || r.sw == SW_SECURITY_INTERNAL
    decreases CHANGE_ACCOUNT_LOOKAHEAD - m
  {
    if m == CHANGE_ACCOUNT_LOOKAHEAD then NoRoot(SW_SECURITY_CHANGE_ADDRESS)
    else
      match w.subSpend(Index(m))
      case None => NoRoot(SW_SECURITY_INTERNAL)
      case Some(d) =>
        if spend != d then RootFrom(w, mul, view, spend, m + 1)
        else
          match mul(d, w.secret)
          case None => NoRoot(SW_SECURITY_INTERNAL)
          case Some(c) => if view == c then Root(m) else RootFrom(w, mul, view, spend, m + 1)
  }

  function RootOf(w: Wallet, mul: Mul, view: key, spend: key): (r: Root)
    ensures r.NoRoot? ==> r.sw == SW_SECURITY_CHANGE_ADDRESS || r.sw == SW_SECURITY_INTERNAL
  {
    if view == w.view && spend == w.spend then Root(0) else RootFrom(w, mul, view, spend, 1)
  }

  /** None of the derivations the lookup may make fails. */
  ghost predicate Derivable(w: Wallet, mul: Mul, spend: key)
  {
    && mul(spend, w.secret).Some?
    && forall m, index :: 0 < m < CHANGE_ACCOUNT_LOOKAHEAD && Names(index, m) ==> w.subSpend(index).Some?
  }

  /** What the lookup from `m` up says about the accounts from `m` up. */
  ghost predicate Tells(w: Wallet, mul: Mul, view: key, spend: key, m: nat, r: Root)
  {
    match r
    case Root(n) =>
      && m <= n < CHANGE_ACCOUNT_LOOKAHEAD && IsRoot(w, mul, view, spend, n)
      && forall k :: m <= k < n ==> !IsRoot(w, mul, view, spend, k)
    case NoRoot(sw) =>
      && (sw == SW_SECURITY_CHANGE_ADDRESS ==>
            forall k :: m <= k < CHANGE_ACCOUNT_LOOKAHEAD ==> !IsRoot(w, mul, view, spend, k))
      && (sw != SW_SECURITY_CHANGE_ADDRESS ==> sw == SW_SECURITY_INTERNAL && !Derivable(w, mul, spend))
  }

  lemma {:induction false} RootFromTells(w: Wallet, mul: Mul, view: key, spend: key, m: nat)
    requires 1 <= m <= CHANGE_ACCOUNT_LOOKAHEAD
    ensures Tells(w, mul, view, spend, m, RootFrom(w, mul, view, spend, m))
    decreases CHANGE_ACCOUNT_LOOKAHEAD - m
  {
    hide Index, Names, IsRoot;
    if m < CHANGE_ACCOUNT_LOOKAHEAD {
      RootFromTells(w, mul, view, spend, m + 1);
      RootAt(w, mul, view, spend, m);
      IndexNames(Index(m), m);
    }
  }

  /** The lookup answers the first account root that matches; it refuses with the change word
      only when none of the fifty does; and when no derivation fails it finds one exactly when
      there is one. */
  lemma RootOfTells(w: Wallet, mul: Mul, view: key, spend: key)
    ensures Tells(w, mul, view, spend, 0, RootOf(w, mul, view, spend))
    ensures Derivable(w, mul, spend) ==>
      (RootOf(w, mul, view, spend).Root? <==>
        exists k :: 0 <= k < CHANGE_ACCOUNT_LOOKAHEAD && IsRoot(w, mul, view, spend, k))
  {
    hide Derivable, Index, Names, RootFrom;
    RootFromTells(w, mul, view, spend, 1);
    assert IsRoot(w, mul, view, spend, 0) <==> view == w.view && spend == w.spend;
  }

  /** Only the account varies; the rest of the index stays as initialised. */
  method WriteIndex(index: array<byte>, m: nat)
    requires index.Length == 8 && m < 0x1_0000 && index[4..] == [0, 0, 0, 0]
    modifies index
    ensures index[..] == Index(m) && index[4..] == [0, 0, 0, 0]
  {
    index[0], index[1], index[2], index[3] := m % 256, m / 256 % 256, m / 0x1_0000 % 256, m / 0x100_0000 % 256;
    assert index[..] == index[..4] + index[4..];
  }

  /** `monero_check_change_address` */
  method CheckChangeAddress(w: Wallet, mul: Mul, view: key, spend: key) returns (sw: nat, major: nat)
    ensures RootOf(w, mul, view, spend) == if sw == 0 then Root(major) else NoRoot(sw)
    ensures sw == 0 || sw == SW_SECURITY_CHANGE_ADDRESS || sw == SW_SECURITY_INTERNAL
  {
    hide Index;
    if view == w.view && spend == w.spend { return 0, 0; }
    var index := new byte[8](_ => 0);
    for m := 1 to CHANGE_ACCOUNT_LOOKAHEAD
      invariant index[4..] == [0, 0, 0, 0]
      invariant RootOf(w, mul, view, spend) == RootFrom(w, mul, view, spend, m)
    {
      WriteIndex(index, m);
      var d := w.subSpend(index[..]);
      if d.None? { return SW_SECURITY_INTERNAL, 0; }
      if spend == d.value {
        var c := mul(d.value, w.secret);
        if c.None? { return SW_SECURITY_INTERNAL, 0; }
        if view == c.value { return 0, m; }
      }
    }
    return SW_SECURITY_CHANGE_ADDRESS, 0;
  }
}
