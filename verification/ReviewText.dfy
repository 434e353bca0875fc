/** What the text on screen says about the output under review, in every run. */
module ReviewText {
  import opened Bytes
  import Scalars
  import AmountText
  import opened Base58
  import opened AddressReader
  import opened DeviceState
  import opened DeviceSpec
  import opened DeviceRuns
  import opened Ordering
  import opened PrefixBinding
  import opened ChangeAddress
  import ReviewBinding
  import PaymentIds
  import Prehash
  import Varint

  /** The payment ID put on screen: all zeros is none. */
  function PlainOf(pid: Option<Pid>): Option<pid8>
  {
    if pid.Some? && !AllZero(pid.value.plain) then Some(pid.value.plain) else None
  }

  /** The screen shows the output that is noted, with the payment ID retained. */
  predicate Displays(e: Env, pid: Option<Pid>, n: Note)
    requires n.Output?
  {
    n.shown == Shown(n.v) && n.display == DisplayOf(e, PlainOf(pid), n.rec, n.v)
  }

  lemma OutputDisplays(e: Env, d: Dev, c: Cmd, options: byte, data: bytes, s: Stream)
    requires Bound(e, d, s) && d.Signs()
    requires var r := Validate(e, d, c, options, data); !r.Refuse? && r.note.Output?
    ensures Displays(e, s.pid, Validate(e, d, c, options, data).note)
  {
    hide Building, Streaming, ParseStep, Opening, ChangeWord, FeeOf, FeeLine, AllZero, RecBytes, AmountBytes, DisplayOf,
      Shown, PidRefused;
    assert ShownPid(d.outputs) == PlainOf(s.pid);
  }

  lemma NextDisplays(e: Env, d: Dev, ev: Event, s: Stream)
    requires Bound(e, d, s) && Next(e, d, ev).Running? && Next(e, d, ev).note.Output?
    ensures Displays(e, s.pid, Next(e, d, ev).note)
  {
    hide Serve, Access, Dispatch, Protocol, Bound, Displays, Validate;
    var c := ev.cmd;
    CommandRuns(e, d, c);
    EnterKeeps(d, c);
    BoundEnter(e, d, c, s);
    ReviewBinding.OnlyValidateReviews(e, Entered(d, c), c, c.body[0], c.body[1..]);
    PaymentIds.OutputIsReal(e, Entered(d, c), c, c.body[0], c.body[1..]);
    OutputDisplays(e, Entered(d, c), c, c.body[0], c.body[1..], s);
  }

  /** In every run, every output step puts on screen the text of the output it notes. */
  lemma ScreenShowsOutput(e: Env, evs: seq<Event>, n: nat)
    requires n < |Play(e, evs).notes| && Play(e, evs).notes[n].Output?
    ensures Displays(e, StreamOf(Play(e, evs).notes[..n]).pid, Play(e, evs).notes[n])
  {
    hide Play, Next, Bound, StreamOf, Displays;
    FirstNote(e, evs);
    var m := NoteOrigin(e, evs, n);
    BoundRun(e, evs[..m]);
    NextDisplays(e, Play(e, evs[..m]).d, evs[m], StreamOf(Play(e, evs).notes[..n]));
  }

  /** Main result: in every run, the amount on screen is a number and the unit, never more than
      the low 64 bits of the value the commitment binds, and less than 10^7 atomic units off. */
  lemma AmountOnScreen(e: Env, evs: seq<Event>, n: nat) returns (t: string)
    requires n < |Play(e, evs).notes| && Play(e, evs).notes[n].Output?
    ensures
      var x := Play(e, evs).notes[n];
      && x.display.amount == t + " XMR" && AmountText.Readable(t)
      && AmountText.Amount(t) <= x.shown < AmountText.Amount(t) + 10_000_000
  {
    hide Play, StreamOf, Shown, AmountText.Shown, AmountText.CString, AmountText.Readable, AmountText.Amount,
      AddressLine, MajorOf;
    ScreenShowsOutput(e, evs, n);
    var x := Play(e, evs).notes[n];
    t := AmountText.CString(AmountText.Shown(x.shown, AMOUNT_WIDTH));
    ShownFits(x.v);
    AmountText.ReviewTextError(x.shown);
  }

  /** Main result: in every run, the text on screen for the fee starts with a number that is exactly
      the fee, followed by as much of the unit as 22 characters still take. */
  lemma FeeOnScreen(e: Env, evs: seq<Event>, n: nat) returns (t: string)
    requires n < |Play(e, evs).notes| && Play(e, evs).notes[n].Fee?
    ensures
      var x := Play(e, evs).notes[n];
      && AmountText.Readable(t) && AmountText.Amount(t) == x.fee
      && |t| <= 22 && x.text == t + if |t| <= 18 then " XMR" else " XMR"[..22 - |t|]
  {
    hide Play, ReviewBinding.LedgerOf, AmountText.Shown, AmountText.CString, AmountText.Readable, AmountText.Amount,
      Prehash.Digests, Varint.Value;
    Prehash.PrehashIsDigest(e, evs, n);
    var x := Play(e, evs).notes[n];
    Varint.WireFits(x.data[1..]);
    t := AmountText.CString(AmountText.Shown(x.fee, UX_AMOUNT));
    AmountText.FullTextExact(x.fee, UX_AMOUNT);
    TextFits(x.fee);
  }

  lemma TextFits(v: nat)
    requires v < TWO64
    ensures |AmountText.CString(AmountText.Shown(v, UX_AMOUNT))| <= 22
  {
    hide AmountText.Text;
    assert AmountText.Shown(v, UX_AMOUNT)[22] == AmountText.NUL;
  }

  lemma ShownFits(v: key)
    ensures Shown(v) < TWO64
  {
    BEBound(Scalars.Rev(v[..8]));
    Pow2Values();
  }

  /** Main result: in every run, on a network the app knows, the text on screen for a payment reads
      as the address of the output: network byte, spend key, view key, the payment ID retained,
      and the checksum. */
  lemma AddressReadsBack(e: Env, evs: seq<Event>, n: nat)
    requires n < |Play(e, evs).notes| && Play(e, evs).notes[n].Output? && Play(e, evs).notes[n].rec.change == 0
    requires e.network <= 2
    ensures
      var x, pid := Play(e, evs).notes[n], PlainOf(StreamOf(Play(e, evs).notes[..n]).pid);
      && x.display.Payment?
      && AddressBytes(e.addressHash, e.network, x.rec.view, x.rec.spend, x.rec.sub, pid, Decoded(x.display.address))
  {
    hide Play, StreamOf, Shown, AmountLine, Address, AddressBytes, Decoded, PrefixOf, KindOf;
    ScreenShowsOutput(e, evs, n);
    var x, pid := Play(e, evs).notes[n], PlainOf(StreamOf(Play(e, evs).notes[..n]).pid);
    AddressReads(e.addressHash, e.network, x.rec.view, x.rec.spend, x.rec.sub, pid);
  }

  /** Main result: in every run, the account shown for change that carries anything is the first of
      the wallet's fifty whose root is the address of the output; for change that carries nothing
      it is account 0. */
  lemma AccountOnScreen(e: Env, evs: seq<Event>, n: nat)
    requires n < |Play(e, evs).notes| && Play(e, evs).notes[n].Output? && Play(e, evs).notes[n].rec.change != 0
    ensures
      var x := Play(e, evs).notes[n];
      && x.display.Return?
      && if AllZero(x.v) then x.display.major == 0
         else (&& x.display.major < 50
               && IsRoot(e.wallet, e.mul, x.rec.view, x.rec.spend, x.display.major)
               && forall k :: 0 <= k < x.display.major ==> !IsRoot(e.wallet, e.mul, x.rec.view, x.rec.spend, k))
  {
    hide Play, ReviewBinding.LedgerOf, IsRoot;
    ReviewBinding.ReviewedIsSigned(e, evs, n);
  }

  /** Main result: in every run, on a network the app knows, the address on screen is that of
      one recipient only. Whatever network, kind, keys and payment ID have this text as their
      address, they are those of the output: its view key and spend key, whether it is a
      subaddress, and the payment ID retained. */
  lemma AddressOnScreen(e: Env, evs: seq<Event>, n: nat, network: nat, kind: Kind, view: key, spend: key,
                        pid: Option<pid8>)
    requires n < |Play(e, evs).notes| && Play(e, evs).notes[n].Output? && Play(e, evs).notes[n].rec.change == 0
    requires e.network <= STAGENET && PrefixOf(network, kind).Some?
    ensures
      var x, retained := Play(e, evs).notes[n], PlainOf(StreamOf(Play(e, evs).notes[..n]).pid);
      && x.display.Payment?
      && (x.display.address == Address(e.addressHash, PrefixOf(network, kind).value, view, spend, pid) ==>
            && view == x.rec.view && spend == x.rec.spend && pid == retained
            && network == e.network && kind == KindOf(x.rec.sub, retained))
  {
    hide Play, StreamOf, Shown, AmountLine, Address;
    ScreenShowsOutput(e, evs, n);
    var x, retained := Play(e, evs).notes[n], PlainOf(StreamOf(Play(e, evs).notes[..n]).pid);
    var own := KindOf(x.rec.sub, retained);
    assert PrefixOf(e.network, own).Some?;
    if x.display.address == Address(e.addressHash, PrefixOf(network, kind).value, view, spend, pid) {
      AddressDetermines(e.addressHash, e.network, own, x.rec.view, x.rec.spend, retained,
        network, kind, view, spend, pid);
    }
  }
}
