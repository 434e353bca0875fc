/** Amounts as decimal text: what the review screen shows, and how it reads back. */
module AmountText {
  import opened Bytes
  import opened Status

  const NUL: char := '\0'

  // --- decimal digits --------------------------------------------------------------------------

  function Digit(d: nat): char
    requires d < 10
  {
    '0' + d as char
  }

  predicate IsDigit(c: char)
  {
    '0' <= c <= '9'
  }

  function DigitValue(c: char): nat
    requires IsDigit(c)
  {
    (c - '0') as nat
  }

  /** Exactly `n` digits, the most significant first. */
  function Dec(v: nat, n: nat): (s: string)
    ensures |s| == n && forall i :: 0 <= i < n ==> IsDigit(s[i])
  {
    if n == 0 then "" else Dec(v / 10, n - 1) + [Digit(v % 10)]
  }

  /** The number a string of digits stands for. */
  function Num(s: string): nat
    requires forall i :: 0 <= i < |s| ==> IsDigit(s[i])
  {
    if s == "" then 0 else 10 * Num(s[..|s| - 1]) + DigitValue(s[|s| - 1])
  }

  function Pow10(n: nat): nat
  {
    if n == 0 then 1 else 10 * Pow10(n - 1)
  }

  /** `x` followed by `n` zeros. */
  function Scale(x: nat, n: nat): nat
  {
    if n == 0 then x else 10 * Scale(x, n - 1)
  }

  /** `v` without its last `n` digits. */
  function Cut(v: nat, n: nat): nat
  {
    if n == 0 then v else Cut(v / 10, n - 1)
  }

  /** `v` with its last `n` digits replaced by zeros: the floor at that precision. */
  function ZeroLast(v: nat, n: nat): nat
  {
    if n == 0 then v else 10 * ZeroLast(v / 10, n - 1)
  }

  lemma {:induction false} ScaleCut(v: nat, n: nat)
    ensures Scale(Cut(v, n), n) == ZeroLast(v, n)
  {
    if n > 0 { ScaleCut(v / 10, n - 1); }
  }

  /** Dropping digits loses less than one unit of the last digit kept. */
  lemma {:induction false} ZeroLastBound(v: nat, n: nat)
    ensures ZeroLast(v, n) <= v < ZeroLast(v, n) + Pow10(n)
  {
    if n > 0 { ZeroLastBound(v / 10, n - 1); }
  }

  lemma {:induction false} NumDec(v: nat, n: nat)
    requires v < Pow10(n)
    ensures Num(Dec(v, n)) == v
  {
    if n > 0 {
      NumDec(v / 10, n - 1);
      assert Dec(v, n)[..n - 1] == Dec(v / 10, n - 1);
    }
  }

  lemma {:induction false} DecPrefix(v: nat, n: nat, j: nat)
    requires j <= n
    ensures Dec(v, n)[..j] == Dec(Cut(v, n - j), j)
    decreases n
  {
    if j < n {
      DecPrefix(v / 10, n - 1, j);
      assert Dec(v, n)[..j] == Dec(v / 10, n - 1)[..j];
    }
  }

  lemma {:induction false} CutBound(v: nat, n: nat, j: nat)
    requires v < Pow10(n + j)
    ensures Cut(v, n) < Pow10(j)
  {
    if n > 0 { CutBound(v / 10, n - 1, j); }
  }

  /** Reading the first `j` of `n` digits, and padding with zeros, is the floor. */
  lemma PrefixValue(v: nat, n: nat, j: nat)
    requires j <= n && v < Pow10(n)
    ensures Scale(Num(Dec(v, n)[..j]), n - j) == ZeroLast(v, n - j)
  {
    DecPrefix(v, n, j);
    CutBound(v, n - j, j);
    NumDec(Cut(v, n - j), j);
    ScaleCut(v, n - j);
  }

  predicate ZerosFrom(s: string, t: nat)
  {
    forall i :: t <= i < |s| ==> s[i] == '0'
  }

  /** Digits that are zero already are not lost. */
  lemma {:induction false} ZerosAtEnd(v: nat, n: nat, t: nat)
    requires t <= n && ZerosFrom(Dec(v, n), t)
    ensures ZeroLast(v, n - t) == v
    decreases n
  {
    if t < n {
      assert Dec(v / 10, n - 1) == Dec(v, n)[..n - 1];
      ZerosAtEnd(v / 10, n - 1, t);
      assert Dec(v, n)[n - 1] == Digit(v % 10);
    }
  }

  lemma {:induction false} ZeroLastMore(v: nat, n: nat, m: nat)
    requires m <= n && ZeroLast(v, n) == v
    ensures ZeroLast(v, m) == v
    decreases m
  {
    if m > 0 {
      assert v % 10 == 0 && ZeroLast(v / 10, n - 1) == v / 10;
      ZeroLastMore(v / 10, n - 1, m - 1);
    }
  }

  /** The digits dropped from a fraction are dropped from the whole amount. */
  lemma {:induction false} ZeroLastWhole(q: nat, f: nat, m: nat, n: nat)
    requires n <= m
    ensures ZeroLast(Scale(q, m) + f, n) == Scale(q, m) + ZeroLast(f, n)
    decreases n
  {
    if n > 0 {
      assert (Scale(q, m) + f) / 10 == Scale(q, m - 1) + f / 10;
      ZeroLastWhole(q, f / 10, m - 1, n - 1);
    }
  }

  // --- the text ----------------------------------------------------------------------------------

  const DECIMALS := 12
  const WHOLE := 1_000_000_000_000

  predicate AllDigits(s: string)
  {
    forall i :: 0 <= i < |s| ==> IsDigit(s[i])
  }

  function SkipZeros(s: string): (t: string)
    ensures |t| <= |s| && t == s[|s| - |t|..] && (t != "" ==> t[0] != '0')
    ensures forall i :: 0 <= i < |s| - |t| ==> s[i] == '0'
  {
    if s != "" && s[0] == '0' then SkipZeros(s[1..]) else s
  }

  function TrimZeros(s: string): (t: string)
    ensures |t| <= |s| && t == s[..|t|] && (t != "" ==> t[|t| - 1] != '0')
    ensures forall i :: |t| <= i < |s| ==> s[i] == '0'
  {
    if s != "" && s[|s| - 1] == '0' then TrimZeros(s[..|s| - 1]) else s
  }

  /** The whole units, without leading zeros but never empty. */
  function WholeText(v: nat): string
  {
    var t := SkipZeros(Dec(v / WHOLE, 8));
    if t == "" then "0" else t
  }

  function FractionText(v: nat): string
  {
    TrimZeros(Dec(v % WHOLE, DECIMALS))
  }

  /** The full text of an amount: "0", or whole units, a point, and the decimals that count. */
  function Text(v: nat): string
  {
    if v == 0 then "0" else WholeText(v) + "." + FractionText(v)
  }

  /** What fits in `len` characters with the terminator, NULs to the end. */
  function Shown(v: nat, len: nat): string
    requires len >= 1
  {
    var t := Text(v);
    var t := if |t| > len - 1 then t[..len - 1] else t;
    t + Nuls(len - |t|)
  }

  function Nuls(n: nat): (s: string)
    ensures |s| == n && forall i :: 0 <= i < n ==> s[i] == NUL
  {
    seq(n, _ => NUL)
  }

  // --- reading it back ---------------------------------------------------------------------------

  function IndexOf(s: string, c: char): (i: nat)
    ensures i <= |s| && (forall j :: 0 <= j < i ==> s[j] != c) && (i < |s| ==> s[i] == c)
  {
    if s == "" || s[0] == c then 0 else 1 + IndexOf(s[1..], c)
  }

  /** A well-formed amount: digits, and perhaps a point and at most twelve more digits. */
  predicate Readable(s: string)
  {
    var p := IndexOf(s, '.');
    AllDigits(s[..p]) && (p < |s| ==> AllDigits(s[p + 1..]) && |s| - p - 1 <= DECIMALS)
  }

  /** Atomic units from text. */
  function Amount(s: string): nat
    requires Readable(s)
  {
    var p := IndexOf(s, '.');
    Scale(Num(s[..p]), DECIMALS) + if p == |s| then 0 else Scale(Num(s[p + 1..]), DECIMALS - (|s| - p - 1))
  }

  /** The text up to the first NUL, as a C string is read. */
  function CString(s: string): string
  {
    s[..IndexOf(s, NUL)]
  }

  lemma {:induction false} SkipKeepsNum(s: string)
    requires AllDigits(s)
    ensures AllDigits(SkipZeros(s)) && Num(SkipZeros(s)) == Num(s)
  {
    if s != "" && s[0] == '0' {
      SkipKeepsNum(s[1..]);
      LeadingZero(s);
    }
  }

  lemma {:induction false} LeadingZero(s: string)
    requires AllDigits(s) && s != "" && s[0] == '0'
    ensures Num(s[1..]) == Num(s)
  {
    if |s| > 1 {
      LeadingZero(s[..|s| - 1]);
      assert s[1..][..|s| - 2] == s[..|s| - 1][1..];
    }
  }

  lemma WholeFacts(v: nat)
    requires v < TWO64
    ensures 1 <= |WholeText(v)| <= 8 && AllDigits(WholeText(v)) && Num(WholeText(v)) == v / WHOLE
  {
    assert Pow10(8) == 100_000_000;
    NumDec(v / WHOLE, 8);
    SkipKeepsNum(Dec(v / WHOLE, 8));
    assert Num("0") == 0;
  }

  /** The decimals kept of the fraction are its floor, however many of them fit. */
  lemma FractionFacts(v: nat, k: nat)
    ensures var t := FractionText(v);
      var u := if |t| > k then t[..k] else t;
      AllDigits(u) && |u| <= DECIMALS
      && Scale(Num(u), DECIMALS - |u|) == ZeroLast(v % WHOLE, if k > DECIMALS then 0 else DECIMALS - k)
  {
    hide Num, Scale, ZeroLast;
    var f, d, t := v % WHOLE, Dec(v % WHOLE, DECIMALS), FractionText(v);
    FractionFits(v);
    if |t| > k {
      assert t[..k] == d[..k];
      PrefixValue(f, DECIMALS, k);
    } else {
      PrefixValue(f, DECIMALS, |t|);
      ZerosAtEnd(f, DECIMALS, |t|);
      ZeroLastMore(f, DECIMALS - |t|, if k > DECIMALS then 0 else DECIMALS - k);
    }
  }

  lemma FractionFits(v: nat)
    ensures v % WHOLE < Pow10(DECIMALS)
  {
    assert Pow10(4) == 10_000;
    assert Pow10(8) == 100_000_000;
  }

  lemma WholeAndFraction(v: nat)
    ensures Scale(v / WHOLE, DECIMALS) + v % WHOLE == v
  {
    var q := v / WHOLE;
    assert Scale(q, 1) == 10 * q;
    assert Scale(q, 2) == 100 * q;
    assert Scale(q, 4) == 10_000 * q;
    assert Scale(q, 6) == 1_000_000 * q;
    assert Scale(q, 8) == 100_000_000 * q;
    assert Scale(q, 10) == 10_000_000_000 * q;
  }

  /** What is read from the first `m` characters of the text: the amount with the decimals
      that did not fit replaced by zeros. The whole units always fit in nine. */
  lemma TakeReads(v: nat, m: nat)
    requires 0 < v < TWO64 && m >= 9
    ensures
      var s := if |Text(v)| > m then Text(v)[..m] else Text(v);
      var k := m - 1 - |WholeText(v)|;
      k >= 0 && Readable(s) && Amount(s) == ZeroLast(v, if k > DECIMALS then 0 else DECIMALS - k)
  {
    hide Num, Scale, ZeroLast, FractionText, WholeText, Readable, Amount;
    WholeFacts(v);
    var w, t := WholeText(v), FractionText(v);
    var k := m - 1 - |w|;
    var u := if |t| > k then t[..k] else t;
    FractionFacts(v, k);
    TakeJoined(w, t, m);
    JoinedAmount(w, u);
    WholeAndFraction(v);
    ZeroLastWhole(v / WHOLE, v % WHOLE, DECIMALS, if k > DECIMALS then 0 else DECIMALS - k);
  }

  lemma TakeJoined(w: string, t: string, m: nat)
    requires m >= |w| + 1
    ensures var s := w + "." + t; var k := m - 1 - |w|;
      (if |s| > m then s[..m] else s) == w + "." + if |t| > k then t[..k] else t
  {
  }

  lemma JoinedAmount(w: string, u: string)
    requires AllDigits(w) && AllDigits(u) && |u| <= DECIMALS
    ensures var s := w + "." + u; Readable(s) && Amount(s) == Scale(Num(w), DECIMALS) + Scale(Num(u), DECIMALS - |u|)
  {
    hide Num, Scale, IndexOf;
    PointAt(w, u);
  }

  lemma PointAt(w: string, u: string)
    requires AllDigits(w)
    ensures var s := w + "." + u; IndexOf(s, '.') == |w| && s[..|w|] == w && s[|w| + 1..] == u
  {
    var s := w + "." + u;
    assert forall i :: 0 <= i < |w| ==> s[i] == w[i];
    assert s[|w|] == '.';
  }

  // --- the results -------------------------------------------------------------------------------

  lemma {:induction false} CStringOf(t: string, n: nat)
    requires NUL !in t && n > 0
    ensures CString(t + Nuls(n)) == t
  {
    var s := t + Nuls(n);
    var i := IndexOf(s, NUL);
    assert forall j :: 0 <= j < |t| ==> s[j] == t[j] != NUL;
    assert s[|t|] == NUL;
  }

  /** A string reads up to its first NUL. */
  lemma CStringIs(s: string, t: string)
    requires |t| < |s| && s[..|t|] == t && s[|t|] == NUL && NUL !in t
    ensures CString(s) == t
  {
    assert forall j :: 0 <= j < |t| ==> s[j] == s[..|t|][j];
  }

  lemma NoNul(v: nat, m: nat)
    requires 0 < v < TWO64
    ensures NUL !in Text(v)
  {
    hide Num, Scale, WholeText, FractionText;
    WholeFacts(v);
    FractionFacts(v, DECIMALS + 1);
    DigitsAreText(WholeText(v));
    DigitsAreText(FractionText(v));
  }

  lemma DigitsAreText(s: string)
    requires AllDigits(s)
    ensures NUL !in s
  {
  }

  /** Main result: the string shown for an amount is terminated, and reads back as the amount
      with the decimals that did not fit set to zero. With 22 characters or more it is the
      amount itself; with 10 or more the whole units are exact. */
  lemma ShownReads(v: nat, len: nat)
    requires v < TWO64 && len >= 10
    ensures
      var s := CString(Shown(v, len));
      var k := len - 2 - |WholeText(v)|;
      |Shown(v, len)| == len && |s| < len && Readable(s)
      && Amount(s) == ZeroLast(v, if v == 0 || k > DECIMALS then 0 else DECIMALS - k)
  {
    hide Num, ZeroLast, Text, WholeText, Scale, Readable, Amount, CString;
    if v == 0 {
      ZeroReads(len);
      ZeroTextShort();
    } else {
      WholeFacts(v);
      NoNul(v, len - 1);
      TakeReads(v, len - 1);
      var t := if |Text(v)| > len - 1 then Text(v)[..len - 1] else Text(v);
      CStringOf(t, len - |t|);
    }
  }

  lemma ZeroReads(len: nat)
    requires len >= 10
    ensures var s := CString(Shown(0, len)); s == "0" && Readable(s) && Amount(s) == 0 == ZeroLast(0, 0)
  {
    hide Scale, Num, CString;
    ZeroShown(len);
    CStringOf("0", len - 1);
    ZeroAmount();
  }

  lemma ZeroTextShort()
    ensures ZeroLast(0, 0) == 0
  {
  }

  lemma ZeroShown(len: nat)
    requires len >= 2
    ensures Shown(0, len) == "0" + Nuls(len - 1)
  {
  }

  lemma ZeroAmount()
    ensures Readable("0") && Amount("0") == 0
  {
    assert IndexOf("0"[1..], '.') == 0;
    assert IndexOf("0", '.') == 1;
    assert "0"[..1] == "0" && Num("0"[..0]) == 0;
    ZeroScale(DECIMALS);
  }

  lemma {:induction false} ZeroScale(n: nat)
    ensures Scale(0, n) == 0
  {
    if n > 0 { ZeroScale(n - 1); }
  }

  /** Nothing is lost with 22 characters. */
  lemma FullTextExact(v: nat, len: nat)
    requires v < TWO64 && len >= 22
    ensures Readable(CString(Shown(v, len))) && Amount(CString(Shown(v, len))) == v
  {
    hide Num, Text, WholeText, Scale, Shown;
    ShownReads(v, len);
    WholeFacts(v);
  }

  /** In the 15 characters of the review, less than 10^7 atomic units are not shown, and
      never more than there are is shown. */
  lemma ReviewTextError(v: nat)
    requires v < TWO64
    ensures Readable(CString(Shown(v, 15)))
    ensures Amount(CString(Shown(v, 15))) <= v < Amount(CString(Shown(v, 15))) + 10_000_000
  {
    hide Num, Text, WholeText, Scale, Shown, ZeroLast;
    ShownReads(v, 15);
    WholeFacts(v);
    var k := 13 - |WholeText(v)|;
    var n := if v == 0 || k > DECIMALS then 0 else DECIMALS - k;
    ZeroLastBound(v, n);
    assert n <= 7;
    assert Pow10(3) == 1000 && Pow10(5) == 100_000 && Pow10(7) == 10_000_000;
  }

  // --- the C code, in place -----------------------------------------------------------------------

  /** `monero_amount2str` */
  method Amount2Str(amount: nat, str: array<char>, len: nat) returns (sw: nat)
    requires amount < TWO64 && len <= str.Length
    modifies str
    ensures sw == if len < 2 then SW_WRONG_DATA_RANGE else 0
    ensures sw == 0 ==> str[..len] == Shown(amount, len)
    ensures str[len..] == old(str[len..])
  {
    hide Text, WholeText, FractionText, Dec, SkipZeros, TrimZeros;
    if len < 2 { return SW_WRONG_DATA_RANGE; }
    Clear(str, len);
    if amount == 0 {
      str[0] := '0';
      assert str[..len] == "0" + Nuls(len - 1);
      ZeroShown(len);
      return 0;
    }
    var text := new char[22];
    WriteDigits(text, amount);
    PlacePoint(text, amount);
    var offset, n := TrimText(text, amount);
    if n > len - 1 { n := len - 1; }
    ghost var shown := Text(amount)[..n];
    assert text[offset..offset + n] == shown;
    CopyText(str, text, offset, n, len);
    assert str[..len] == shown + Nuls(len - n);
    sw := 0;
  }

  method CopyText(str: array<char>, text: array<char>, offset: nat, n: nat, len: nat)
    requires str != text && offset + n <= text.Length && n <= len <= str.Length
    requires forall j :: 0 <= j < len ==> str[j] == NUL
    modifies str
    ensures str[..len] == text[offset..offset + n] + Nuls(len - n) && str[len..] == old(str[len..])
  {
    for i := 0 to n
      invariant forall j :: 0 <= j < i ==> str[j] == text[offset + j]
      invariant forall j :: i <= j < len ==> str[j] == NUL
      invariant forall j :: len <= j < str.Length ==> str[j] == old(str[j])
    {
      str[i] := text[offset + i];
    }
  }

  method Clear(str: array<char>, len: nat)
    requires len <= str.Length
    modifies str
    ensures forall j :: 0 <= j < len ==> str[j] == NUL
    ensures forall j :: len <= j < str.Length ==> str[j] == old(str[j])
  {
    for i := 0 to len
      invariant forall j :: 0 <= j < i ==> str[j] == NUL
      invariant forall j :: len <= j < str.Length ==> str[j] == old(str[j])
    {
      str[i] := NUL;
    }
  }

  lemma DecStep(v: nat, n: nat, t: string)
    requires n > 0
    ensures Dec(v, n) + t == Dec(v / 10, n - 1) + ([Digit(v % 10)] + t)
  {
  }

  lemma Pow10Step(v: nat, n: nat)
    requires 0 < v < Pow10(n)
    ensures n > 0 && v / 10 < Pow10(n - 1)
  {
  }

  /** Twenty digits, least significant last, at positions 1 to 20. */
  method WriteDigits(text: array<char>, amount: nat)
    requires text.Length == 22 && amount < TWO64
    modifies text
    ensures text[1..21] == Dec(amount, 20)
  {
    for i := 0 to 21
      invariant forall j :: 0 <= j < i ==> text[j] == '0'
    {
      text[i] := '0';
    }
    text[21] := NUL;
    hide Dec, Pow10;
    var offset: nat := 20;
    var v: nat := amount;
    TwentyDigits();
    assert text[21..21] == "";
    while v != 0
      invariant offset <= 20 && v < Pow10(offset)
      invariant forall j :: 0 <= j <= offset ==> text[j] == '0'
      invariant Dec(amount, 20) == Dec(v, offset) + text[offset + 1..21]
      decreases v
    {
      ghost var was := text[offset + 1..21];
      Pow10Step(v, offset);
      DecStep(v, offset, was);
      text[offset] := Digit(v % 10);
      assert text[offset..21] == [Digit(v % 10)] + was;
      v := v / 10;
      offset := offset - 1;
    }
    DecZero(offset);
    assert text[1..21] == text[1..offset + 1] + text[offset + 1..21];
    assert text[1..offset + 1] == Dec(0, offset);
  }

  lemma TwentyDigits()
    ensures TWO64 <= Pow10(20)
  {
    assert Pow10(4) == 10_000;
    assert Pow10(8) == 100_000_000;
    assert Pow10(12) == 1_000_000_000_000;
    assert Pow10(16) == 10_000_000_000_000_000;
  }

  lemma {:induction false} DecZero(n: nat)
    ensures forall i :: 0 <= i < n ==> Dec(0, n)[i] == '0'
  {
    if n > 0 { DecZero(n - 1); }
  }

  /** The `memmove` of eight digits one place down, and the point in the gap. */
  method PlacePoint(text: array<char>, ghost amount: nat)
    requires text.Length == 22 && text[1..21] == Dec(amount, 20)
    modifies text
    ensures text[..8] == Dec(amount / WHOLE, 8) && text[8] == '.' && text[9..21] == Dec(amount % WHOLE, DECIMALS)
  {
    DecSplit(amount);
    ghost var was := text[1..21];
    for i := 0 to 8
      invariant forall j :: 0 <= j < i ==> text[j] == was[j]
      invariant forall j :: i < j < 21 ==> text[j] == was[j - 1]
    {
      text[i] := text[i + 1];
    }
    text[8] := '.';
    assert text[..8] == was[..8] && text[9..21] == was[8..];
  }

  lemma {:induction false} DecAt(v: nat, q: nat, n: nat, m: nat)
    ensures Dec(Scale(q, n) + v, n + m) == Dec(q + Cut(v, n), m) + Dec(v, n)
    decreases n
  {
    if n > 0 {
      assert (Scale(q, n) + v) / 10 == Scale(q, n - 1) + v / 10;
      DecAt(v / 10, q, n - 1, m);
    }
  }

  lemma DecSplit(amount: nat)
    ensures Dec(amount, 20) == Dec(amount / WHOLE, 8) + Dec(amount % WHOLE, DECIMALS)
  {
    hide Dec, Scale, Cut, Pow10;
    WholeAndFraction(amount);
    CutZero(amount % WHOLE);
    DecAt(amount % WHOLE, amount / WHOLE, DECIMALS, 8);
  }

  lemma CutZero(f: nat)
    requires f < WHOLE
    ensures Cut(f, DECIMALS) == 0
  {
    hide Cut;
    FractionFits(f);
    CutBound(f, DECIMALS, 0);
  }

  lemma {:induction false} SkipIs(s: string, i: nat)
    requires i <= |s| && (forall j :: 0 <= j < i ==> s[j] == '0') && (i < |s| ==> s[i] != '0')
    ensures SkipZeros(s) == s[i..]
  {
    if i > 0 { SkipIs(s[1..], i - 1); }
  }

  lemma {:induction false} TrimIs(s: string, i: nat)
    requires i <= |s| && (forall j :: i <= j < |s| ==> s[j] == '0') && (i > 0 ==> s[i - 1] != '0')
    ensures TrimZeros(s) == s[..i]
    decreases |s|
  {
    if i < |s| { TrimIs(s[..|s| - 1], i); }
  }

  /** Where the text starts: past the leading zeros, but not past the last whole digit. */
  method ScanWhole(text: array<char>, ghost whole: string) returns (offset: nat)
    requires text.Length == 22 && |whole| == 8 && AllDigits(whole) && text[8] == '.'
    requires forall j :: 0 <= j < 8 ==> text[j] == whole[j]
    ensures offset < 8 && whole[offset..] == if SkipZeros(whole) == "" then "0" else SkipZeros(whole)
  {
    hide SkipZeros;
    offset := 0;
    while text[offset] == '0' && text[offset] != '.'
      invariant 0 <= offset <= 8 && forall j :: 0 <= j < offset ==> whole[j] == '0'
      decreases 8 - offset
    {
      offset := offset + 1;
    }
    SkipIs(whole, offset);
    if text[offset] == '.' { offset := offset - 1; }
  }

  /** The last character: past the trailing zeros, but not past the point. */
  method ScanFraction(text: array<char>, ghost fraction: string) returns (len: nat)
    requires text.Length == 22 && |fraction| == 12 && text[8] == '.'
    requires forall j :: 0 <= j < 12 ==> text[9 + j] == fraction[j]
    ensures 8 <= len <= 20 && fraction[..len - 8] == TrimZeros(fraction)
  {
    hide TrimZeros;
    len := 20;
    while text[len] == '0' && text[len] != '.'
      invariant 8 <= len <= 20 && forall j :: len - 8 <= j < 12 ==> fraction[j] == '0'
      decreases len
    {
      assert text[9 + (len - 9)] == fraction[len - 9];
      len := len - 1;
    }
    assert len > 8 ==> text[9 + (len - 9)] == fraction[len - 9];
    TrimIs(fraction, len - 8);
  }

  /** The two scans: where the text starts and how long it is. */
  method TrimText(text: array<char>, ghost amount: nat) returns (offset: nat, len: nat)
    requires text.Length == 22 && 0 < amount < TWO64
    requires text[..8] == Dec(amount / WHOLE, 8) && text[8] == '.' && text[9..21] == Dec(amount % WHOLE, DECIMALS)
    ensures offset + len <= 21 && text[offset..offset + len] == Text(amount)
  {
    hide Dec, SkipZeros, TrimZeros;
    ghost var whole, fraction := text[..8], text[9..21];
    offset := ScanWhole(text, whole);
    len := ScanFraction(text, fraction);
    assert text[offset..8] == whole[offset..] && text[9..len + 1] == fraction[..len - 8];
    assert text[offset..len + 1] == text[offset..8] + "." + text[9..len + 1];
    len := len - offset + 1;
  }

  // --- plain numbers ------------------------------------------------------------------------------

  /** Decimal digits without padding; zero has none. */
  function Digits(v: nat): (s: string)
    ensures AllDigits(s) && (s == "" <==> v == 0)
  {
    if v == 0 then "" else Digits(v / 10) + [Digit(v % 10)]
  }

  lemma {:induction false} DigitsLength(v: nat, k: nat)
    ensures |Digits(v)| <= k <==> v < Pow10(k)
  {
    if v > 0 && k > 0 { DigitsLength(v / 10, k - 1); }
    if k > 0 { Pow10Positive(k); }
  }

  lemma {:induction false} Pow10Positive(k: nat)
    ensures Pow10(k) >= 1
  {
    if k > 0 { Pow10Positive(k - 1); }
  }

  /** The digits of a number read back as the number. */
  lemma {:induction false} DigitsRead(v: nat)
    ensures Num(Digits(v)) == v
  {
    if v > 0 {
      var s := Digits(v);
      assert s[..|s| - 1] == Digits(v / 10);
      DigitsRead(v / 10);
    }
  }

  lemma DigitsStep(v: nat, t: string)
    requires v > 0
    ensures |Digits(v)| == |Digits(v / 10)| + 1
    ensures Digits(v) + t == Digits(v / 10) + ([Digit(v % 10)] + t)
  {
    hide AllDigits, Digit;
    assert Digits(v) == Digits(v / 10) + [Digit(v % 10)];
    Associates(Digits(v / 10), [Digit(v % 10)], t);
  }

  lemma Associates(a: string, b: string, c: string)
    ensures (a + b) + c == a + (b + c)
  {
  }

  /** The digits of `val`, ending at the last of 22 places. */
  method WriteNumber(text: array<char>, val: nat) returns (offset: nat)
    requires text.Length == 22 && val < TWO64
    modifies text
    ensures 2 <= offset <= 22 && text[offset..22] == Digits(val)
  {
    hide Digits, Pow10;
    offset := 22;
    var v: nat := val;
    TwentyDigits();
    DigitsLength(val, 20);
    assert text[22..22] == "";
    while v != 0
      invariant 2 <= offset <= 22 && |Digits(v)| <= offset - 2
      invariant Digits(val) == Digits(v) + text[offset..22]
      decreases v
    {
      ghost var was := text[offset..22];
      DigitsStep(v, was);
      offset := offset - 1;
      text[offset] := Digit(v % 10);
      assert text[offset..22] == [Digit(v % 10)] + was;
      v := v / 10;
    }
  }

  /** `monero_uint642str`: refused when the digits do not fit; a terminator is not counted. */
  method Uint642Str(val: nat, str: array<char>, len: nat) returns (sw: nat)
    requires val < TWO64 && len <= str.Length
    modifies str
    ensures sw == if len < 2 || |Digits(val)| > len then SW_WRONG_DATA_RANGE else 0
    ensures sw == 0 ==> str[..len] == Digits(val) + Nuls(len - |Digits(val)|)
    ensures str[len..] == old(str[len..])
  {
    if len < 2 { return SW_WRONG_DATA_RANGE; }
    Clear(str, len);
    var text := new char[22];
    var offset := WriteNumber(text, val);
    var n := 22 - offset;
    if n > len { return SW_WRONG_DATA_RANGE; }
    assert text[offset..offset + n] == Digits(val);
    CopyText(str, text, offset, n, len);
    sw := 0;
  }

  /** The number is a terminated C string exactly when it has fewer digits than the buffer has
      characters: with as many digits as characters it is accepted without a terminator. */
  lemma TerminatedIff(v: nat, len: nat)
    requires |Digits(v)| <= len && len >= 1
    ensures NUL in Digits(v) + Nuls(len - |Digits(v)|) <==> v < Pow10(len - 1)
  {
    DigitsLength(v, len - 1);
    var s := Digits(v) + Nuls(len - |Digits(v)|);
    if |Digits(v)| < len { assert s[len - 1] == NUL; }
  }

  /** A 15-digit unlock time is one that the review's 15 characters do not terminate. */
  lemma UnterminatedTimelock()
    ensures |Digits(100_000_000_000_000)| == 15 && NUL !in Digits(100_000_000_000_000) + Nuls(0)
  {
    assert Pow10(3) == 1000 && Pow10(5) == 100_000 && Pow10(7) == 10_000_000 && Pow10(9) == 1_000_000_000;
    assert Pow10(11) == 100_000_000_000 && Pow10(13) == 10_000_000_000_000 && Pow10(15) == 1_000_000_000_000_000;
    DigitsLength(100_000_000_000_000, 14);
    DigitsLength(100_000_000_000_000, 15);
    TerminatedIff(100_000_000_000_000, 15);
  }
}
