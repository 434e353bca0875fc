/** An ordinary transaction goes through: whatever its inputs, recipients, amounts and fee, the
    commands of a host that makes it are all served, and the run ends in a real response. */
module HonestRun {
  import opened Bytes
  import opened Transcript
  import opened Scalars
  import PrefixSpec
  import PrefixGrammar
  import opened HonestPrefix
  import opened OutputBinding
  import opened DeviceState
  import opened DeviceSpec
  import opened DeviceRuns
  import opened PrefixBinding
  import opened ReviewBinding
  import Recipients
  import opened Group
  import opened Commitments
  import ChangeAddress
  import opened Responses
  import Blinding
  import opened HonestHost
  import opened HonestSigner
  import PrefixRuns

  /** A last step, on the run and on both ledgers. */
  lemma Grow(e: Env, evs: seq<Event>, ev: Event)
    requires Play(e, evs).Alive? && Next(e, Play(e, evs).d, ev).Running?
    ensures
      var t := Play(e, evs);
      var s := Next(e, t.d, ev);
      && Play(e, evs + [ev]) == Alive(s.d, t.notes + [s.note])
      && StreamOf(t.notes + [s.note]) == Record(StreamOf(t.notes), s.note)
      && LedgerOf(t.notes + [s.note]) == Tally(LedgerOf(t.notes), s.note)
  {
    hide Next, Record, Tally;
    Extend(e, evs, ev);
    StreamSnoc(Play(e, evs).notes, Next(e, Play(e, evs).d, ev).note);
    LedgerSnoc(Play(e, evs).notes, Next(e, Play(e, evs).d, ev).note);
  }

  // --- what is derived and reviewed for a list of payments ------------------------------------------

  /** The calls this transaction makes succeed, no amount key is zero, and one main key fits all
      payments, which need an additional key each or none at all. */
  ghost predicate Works(e: Env, j: Job)
  {
    && Sane(e) && Known(j.version) && Usable(e, j.r) && e.mulG(j.r).Some? && AllOrNone(j.xs)
    && (j.id.Some? ==> e.derive(j.id.value.pub, j.r).Some?)
    && forall i :: 0 <= i < |j.xs| ==> WorksFor(e, j, j.xs[i], i)
  }

  predicate AllOrNone(xs: seq<Dest>)
  {
    forall i :: 0 <= i < |xs| ==> xs[i].need == xs[0].need
  }

  ghost predicate WorksFor(e: Env, j: Job, x: Dest, i: nat)
  {
    var y := Derive(e, ArgsOf(j.r, j.main, x, i));
    && Fits(e, j.r, j.main, x) && Home(e, x) && GoesWith(j.id, x) && Payable(x) && (x.need ==> Usable(e, x.own))
    && y.Some? && !AllZero(y.value.amountKey) && Commits(e, x, y.value.amountKey)
  }

  lemma WorksAt(e: Env, j: Job, i: nat)
    requires Works(e, j) && i < |j.xs|
    ensures e.mulG(j.r).Some? && Derive(e, ArgsOf(j.r, j.main, j.xs[i], i)).Some?
    ensures Fits(e, j.r, j.main, j.xs[i]) && Home(e, j.xs[i]) && (j.xs[i].need ==> Usable(e, j.xs[i].own))
    ensures GoesWith(j.id, j.xs[i]) && Payable(j.xs[i])
    ensures
      var ak := Derive(e, ArgsOf(j.r, j.main, j.xs[i], i)).value.amountKey;
      !AllZero(ak) && Commits(e, j.xs[i], ak) && HiddenOf(e, j.xs[i], ak).Some?
  {
    hide Derive, Sums, Blinds, AllZero, Fits, Home, Usable, GoesWith, Payable, HiddenOf;
    assert WorksFor(e, j, j.xs[i], i);
    HidesAmount(e, j.xs[i], Derive(e, ArgsOf(j.r, j.main, j.xs[i], i)).value.amountKey);
  }

  /** What fits the bytes that count steps, and the numbers. */
  predicate Sized(j: Job)
  {
    && 0 < |j.xs| <= 254 && |j.cuts| <= 253 && |j.pseudo| <= 253 && |j.rings| < TWO32 - 1
    && PrefixGrammar.InputsOk(j.inputs) && |j.inputs| < TWO64 && HeaderFits(j.number, j.lock) && j.fee < TWO64
    && (j.clsag ==> j.version == 4)
  }

  ghost function NoteAt(e: Env, j: Job, i: nat): (n: Note)
    requires Works(e, j) && i < |j.xs|
    ensures n.Derived?
  {
    WorksAt(e, j, i);
    DerivedFor(e, j.r, j.main, j.xs[i], i)
  }

  ghost function RecsTo(e: Env, j: Job, n: nat): (rs: seq<Rec>)
    requires Works(e, j) && n <= |j.xs|
    ensures |rs| == n
  {
    if n == 0 then [] else RecsTo(e, j, n - 1) + [NoteAt(e, j, n - 1).rec]
  }

  ghost function EntriesTo(e: Env, j: Job, n: nat): (es: seq<Entry>)
    requires Works(e, j) && n <= |j.xs|
    ensures |es| == n
  {
    if n == 0 then [] else EntriesTo(e, j, n - 1) + [NoteAt(e, j, n - 1).entry]
  }

  ghost function AddKeysTo(e: Env, j: Job, n: nat): seq<key>
    requires Works(e, j) && n <= |j.xs|
  {
    if n == 0 then []
    else
      var more := NoteAt(e, j, n - 1).addKey;
      AddKeysTo(e, j, n - 1) + if more.Some? then [more.value] else []
  }

  ghost function KeyAt(e: Env, j: Job, i: nat): key
    requires Works(e, j) && i < |j.xs|
  {
    NoteAt(e, j, i).rec.amountKey
  }

  ghost function CommitmentAt(e: Env, j: Job, i: nat): key
    requires Works(e, j) && i < |j.xs|
  {
    WorksAt(e, j, i);
    CommitmentTo(e, j.xs[i], KeyAt(e, j, i))
  }

  ghost function CommitmentsTo(e: Env, j: Job, n: nat): (cs: seq<key>)
    requires Works(e, j) && n <= |j.xs|
    ensures |cs| == n
  {
    if n == 0 then [] else CommitmentsTo(e, j, n - 1) + [CommitmentAt(e, j, n - 1)]
  }

  lemma NoteIs(e: Env, j: Job, i: nat)
    requires Works(e, j) && i < |j.xs|
    ensures
      var n, x, ak := NoteAt(e, j, i), j.xs[i], KeyAt(e, j, i);
      && n.mainKey == j.main && n.addKey.Some? == x.need && |n.entry.viewTag| == Flag(x.tagged)
      && n.rec == Rec(x.view, x.spend, Flag(x.change), Flag(x.sub), ak) && !AllZero(ak) && Commits(e, x, ak)
      && HiddenOf(e, x, ak).Some?
  {
    hide Commits, Works, AllZero, Derive, HiddenOf;
    WorksAt(e, j, i);
    Derives(e, j.r, j.main, j.xs[i], i);
    assert KeyAt(e, j, i) == Derive(e, ArgsOf(j.r, j.main, j.xs[i], i)).value.amountKey;
  }

  /** One additional key for each output, or none. */
  lemma {:induction false} AddKeysCount(e: Env, j: Job, n: nat)
    requires Works(e, j) && n <= |j.xs|
    ensures |AddKeysTo(e, j, n)| == if n > 0 && j.xs[0].need then n else 0
  {
    hide Works, Commits, HiddenOf, AllZero, NoteAt, KeyAt;
    if n > 0 {
      AddKeysCount(e, j, n - 1);
      NoteIs(e, j, n - 1);
      SaneToo(e, j);
    }
  }

  ghost predicate HasAll(e: Env, k: Keys, j: Job, n: nat)
    requires Works(e, j) && n <= |j.xs|
  {
    forall i :: 0 <= i < n ==> Has(e, k, KeyAt(e, j, i), TYPE_AMOUNT_KEY)
  }

  lemma HasAllLater(e: Env, d: Dev, s: Dev, j: Job, n: nat)
    requires Works(e, j) && n <= |j.xs| && HasAll(e, d.keys, j, n) && Keeps(d, s)
    ensures HasAll(e, s.keys, j, n)
  {
    hide Works, KeyAt;
  }

  // --- deriving -----------------------------------------------------------------------------------

  /** The transaction of `j` goes on. */
  predicate Goes(t: Trace, j: Job)
  {
    t.Alive? && t.d.session.protocol == j.version && Retains(t.d, j.id) && t.d.keys.signCnt == 0
  }

  /** The first `n` outputs have been derived. */
  ghost predicate Deriving(e: Env, t: Trace, j: Job, n: nat)
    requires Works(e, j) && n <= |j.xs|
  {
    && Goes(t, j) && InTx(e, t.d, j.r, t.d.session.gate) && t.d.session.stages == NO_STAGE
    && t.d.session.gate.ins in (if n == 0 then {INS_OPEN_TX, INS_STEALTH} else {INS_GEN_TXOUT_KEYS})
    && t.d.outputs.count == n && (n > 0 ==> t.d.outputs.mainKey == j.main)
    && HasAll(e, t.d.keys, j, n) && Listed(e, t.notes, j, n)
  }

  /** Both ledgers hold the first `n` outputs. */
  ghost predicate Listed(e: Env, ns: seq<Note>, j: Job, n: nat)
    requires Works(e, j) && n <= |j.xs|
  {
    && StreamOf(ns).entries == EntriesTo(e, j, n) && StreamOf(ns).addKeys == AddKeysTo(e, j, n)
    && LedgerOf(ns).derived == RecsTo(e, j, n)
  }

  lemma SaneToo(e: Env, j: Job)
    requires Works(e, j)
    ensures Sane(e) && Seals(e) && e.mulG(j.r).Some? && Usable(e, j.r) && Known(j.version) && AllOrNone(j.xs)
    ensures j.id.Some? ==> e.derive(j.id.value.pub, j.r).Some?
  {
    hide Usable, WorksFor;
  }

  lemma Begin(e: Env, j: Job) returns (evs: seq<Event>)
    requires Works(e, j)
    ensures Play(e, evs).Alive? && Fresh(e, Play(e, evs).d, j.r) && Play(e, evs).d.session.protocol == j.version
    ensures StreamOf(Play(e, evs).notes) == NO_STREAM && LedgerOf(Play(e, evs).notes) == EMPTY
  {
    hide Next, Works, Record, Tally;
    SaneToo(e, j);
    var mode := Command(Send(j.version, INS_SET_SIGNATURE_MODE, 0, 0, 0, [1]));
    var open := Command(SendWith(j.version, INS_OPEN_TX, 1, 0, 0, Repeat(0, 4), j.r));
    SetsMode(e, j.version);
    assert Play(e, []) == Alive(InitFrom(0, {}), [Init]);
    Grow(e, [], mode);
    var d := Play(e, [] + [mode]).d;
    OpensTx(e, d, j.r);
    Grow(e, [] + [mode], open);
    evs := [] + [mode] + [open];
    Recipients.Recorded(StreamOf(Play(e, [] + [mode]).notes), LedgerOf(Play(e, [] + [mode]).notes), Opened);
  }

  /** The payment ID, where there is one. */
  lemma Identify(e: Env, j: Job) returns (evs: seq<Event>)
    requires Works(e, j)
    ensures Deriving(e, Play(e, evs), j, 0)
  {
    hide Play, Next, Works, Record, Tally, StreamOf, LedgerOf, Usable, Has, Handle;
    SaneToo(e, j);
    evs := Begin(e, j);
    if j.id.Some? {
      var t := Play(e, evs);
      var data := j.id.value.pub + (Handle(e, t.d.keys, j.r, TYPE_SCALAR) + j.id.value.plain);
      var ev := Command(Send(j.version, INS_STEALTH, 0, 0, 0, data));
      RetainsId(e, t.d, j.id.value);
      Grow(e, evs, ev);
      Recipients.Recorded(StreamOf(t.notes), LedgerOf(t.notes), Next(e, t.d, ev).note);
      evs := evs + [ev];
    }
  }

  lemma {:induction false} DeriveAll(e: Env, j: Job, n: nat) returns (evs: seq<Event>)
    requires Works(e, j) && n <= |j.xs| < TWO32 - 1
    ensures Deriving(e, Play(e, evs), j, n)
  {
    hide Play, Works, Deriving;
    if n == 0 {
      evs := Identify(e, j);
    } else {
      var before := DeriveAll(e, j, n - 1);
      evs := MakeOwn(e, before, j, n - 1);
      evs := DeriveOne(e, evs, j, n - 1);
    }
  }

  /** The key pair of an additional key, where the next output needs one. */
  lemma MakeOwn(e: Env, before: seq<Event>, j: Job, n: nat) returns (evs: seq<Event>)
    requires Works(e, j) && n < |j.xs| && Deriving(e, Play(e, before), j, n)
    ensures Deriving(e, Play(e, evs), j, n) && OwnReady(e, Play(e, evs).d.keys, j.xs[n])
  {
    hide Play, Next, Works, Has, Usable, Record, Tally, StreamOf, LedgerOf, Fits, Home, Derive, Commits, Payable,
      GoesWith;
    WorksAt(e, j, n);
    evs := before;
    if j.xs[n].need {
      var t, ev := Play(e, before), Command(MakeKey(e, j.version, j.xs[n].own));
      MakesKey(e, t.d, j.xs[n].own);
      Grow(e, before, ev);
      HasAllLater(e, t.d, Next(e, t.d, ev).d, j, n);
      QuietRecorded(StreamOf(t.notes), LedgerOf(t.notes));
      evs := before + [ev];
    }
  }

  lemma QuietRecorded(l: Stream, m: Ledger)
    ensures Record(l, Quiet) == l && Tally(m, Quiet) == m
  {
  }

  lemma DeriveOne(e: Env, before: seq<Event>, j: Job, n: nat) returns (evs: seq<Event>)
    requires Works(e, j) && n < |j.xs| < TWO32 - 1
    requires Deriving(e, Play(e, before), j, n) && OwnReady(e, Play(e, before).d.keys, j.xs[n])
    ensures Deriving(e, Play(e, evs), j, n + 1)
  {
    hide Play, Next, Works, GenData, Derive, DerivedFor, Has, Usable, Record, Tally, StreamOf, LedgerOf, Fits, Home,
      Commits, OwnReady, Payable, GoesWith, HiddenOf;
    var t := Play(e, before);
    var d := t.d;
    var ev := Command(Send(j.version, INS_GEN_TXOUT_KEYS, 0, 0, 0, GenData(e, d.keys, j.main, j.xs[n], n)));
    SaneToo(e, j);
    WorksAt(e, j, n);
    GeneratesOne(e, d, j.main, j.xs[n], n);
    Grow(e, before, ev);
    var s := Next(e, d, ev);
    assert s.note == NoteAt(e, j, n);
    NoteIs(e, j, n);
    HasAllLater(e, d, s.d, j, n);
    Recipients.Recorded(StreamOf(t.notes), LedgerOf(t.notes), s.note);
    evs := before + [ev];
    HasNext(e, s.d.keys, j, n);
  }

  lemma HasNext(e: Env, k: Keys, j: Job, n: nat)
    requires Works(e, j) && n < |j.xs| && HasAll(e, k, j, n)
    requires Has(e, k, KeyAt(e, j, n), TYPE_AMOUNT_KEY)
    ensures HasAll(e, k, j, n + 1)
  {
    hide Works, KeyAt, Has;
  }

  // --- the prefix -----------------------------------------------------------------------------------

  /** The header has been taken, and then `n` chunks. */
  ghost predicate Streams(e: Env, t: Trace, j: Job, n: nat)
    requires Works(e, j) && n < 255
  {
    && Goes(t, j) && InTx(e, t.d, j.r, Gate(INS_PREFIX_HASH, if n == 0 then 1 else 2, n))
    && t.d.session.stages == NO_STAGE && HasAll(e, t.d.keys, j, |j.xs|) && Listed(e, t.notes, j, |j.xs|)
  }

  lemma StartStream(e: Env, before: seq<Event>, j: Job) returns (evs: seq<Event>)
    requires Works(e, j) && Sized(j) && Deriving(e, Play(e, before), j, |j.xs|)
    ensures Streams(e, Play(e, evs), j, 0) && StreamOf(Play(e, evs).notes).streamed == []
  {
    hide Play, Next, Works, Has, Record, Tally, StreamOf, LedgerOf, Bound, HeaderOf, HeaderFits,
      PrefixGrammar.InputsOk;
    var t := Play(e, before);
    BoundRun(e, before);
    NothingStreamed(e, t.d, StreamOf(t.notes));
    var ev := Command(Send(j.version, INS_PREFIX_HASH, 1, 0, 0, HeaderOf(j.number, j.lock)));
    StartsPrefix(e, t.d, j.number, j.lock);
    Grow(e, before, ev);
    var s := Next(e, t.d, ev);
    HasAllLater(e, t.d, s.d, j, |j.xs|);
    Recipients.Recorded(StreamOf(t.notes), LedgerOf(t.notes), s.note);
    StreamKept(StreamOf(t.notes), s.note);
    evs := before + [ev];
    if j.lock != 0 { evs := AcceptLock(e, evs, j); }
  }

  /** The unlock time is on screen. */
  lemma AcceptLock(e: Env, before: seq<Event>, j: Job) returns (evs: seq<Event>)
    requires Works(e, j)
    requires
      var t := Play(e, before);
      && Goes(t, j) && UnderReview(e, t.d, j.r, Gate(INS_PREFIX_HASH, 1, 0)) && t.d.session.stages == NO_STAGE
      && HasAll(e, t.d.keys, j, |j.xs|) && Listed(e, t.notes, j, |j.xs|) && StreamOf(t.notes).streamed == []
    ensures Streams(e, Play(e, evs), j, 0) && StreamOf(Play(e, evs).notes).streamed == []
  {
    hide Play, Next, Works, Has, Record, Tally, StreamOf, LedgerOf;
    var t := Play(e, before);
    Accepts(e, t.d, Gate(INS_PREFIX_HASH, 1, 0));
    Grow(e, before, Accept);
    var s := Next(e, t.d, Accept);
    HasAllLater(e, t.d, s.d, j, |j.xs|);
    Recipients.Recorded(StreamOf(t.notes), LedgerOf(t.notes), s.note);
    StreamKept(StreamOf(t.notes), s.note);
    evs := before + [Accept];
  }

  lemma NothingStreamed(e: Env, d: Dev, l: Stream)
    requires Bound(e, d, l) && d.Signs() && d.session.gate.ins == INS_GEN_TXOUT_KEYS
    ensures l.streamed == []
  {
    hide Counted, Entries, Flatten;
  }

  lemma StreamKept(l: Stream, n: Note)
    ensures n.PrefixHeader? || n.Accepted? ==> Record(l, n).streamed == l.streamed
    ensures n.PrefixChunk? ==> Record(l, n).streamed == l.streamed + n.chunk
  {
  }

  /** While the prefix streams, what the parser checks against is the derived list. */
  lemma AtStart(e: Env, d: Dev, l: Stream, gate: Gate)
    requires Bound(e, d, l) && InTx(e, d, d.keys.r, gate) && gate.ins == INS_PREFIX_HASH && gate.p1 > 0
    requires 0 < |l.entries| < TWO32 && (l.addKeys == [] || |l.addKeys| == |l.entries|)
    ensures Streamable(BindingOf(e, d), l.entries, l.addKeys) && BindingOf(e, d).Valid()
    ensures PrefixSpec.Run(BindingOf(e, d), PrefixSpec.RESET, l.streamed) == PrefixSpec.Ok(d.outputs.parser)
  {
    hide Entries, Flatten, AllValid, OneMain, PrefixSpec.Run;
  }

  /** The bytes to stream: the inputs, the derived outputs, and the keys and payment ID in `extra`. */
  ghost function DataOf(e: Env, t: Trace, j: Job): bytes
    requires t.Alive?
  {
    var l := StreamOf(t.notes);
    PrefixGrammar.PrefixBytes(PrefixOf(BindingOf(e, t.d), j.inputs, l.entries, l.addKeys))
  }

  /** Whatever of them has been taken, the parser takes any more of them, and is done after all. */
  lemma ChunkRuns(e: Env, evs: seq<Event>, j: Job, n: nat, q: nat, m: nat)
    requires Works(e, j) && Sized(j) && n < 255 && Streams(e, Play(e, evs), j, n)
    requires q <= m <= |DataOf(e, Play(e, evs), j)|
    requires StreamOf(Play(e, evs).notes).streamed == DataOf(e, Play(e, evs), j)[..q]
    ensures
      var t := Play(e, evs);
      var o := PrefixSpec.Run(BindingOf(e, t.d), t.d.outputs.parser, DataOf(e, t, j)[q..m]);
      o.Ok? && (m == |DataOf(e, t, j)| ==> o.p.done)
  {
    hide Play, Works, Has, StreamOf, LedgerOf, Bound, BindingOf, PrefixSpec.Run, PrefixSpec.Accepts,
      PrefixGrammar.PrefixBytes, PrefixGrammar.InputsOk, PrefixOf, Streamable, HeaderFits;
    var t := Play(e, evs);
    var l, b, data := StreamOf(t.notes), BindingOf(e, t.d), DataOf(e, t, j);
    BoundRun(e, evs);
    AddKeysCount(e, j, |j.xs|);
    AtStart(e, t.d, l, t.d.session.gate);
    PrefixFits(b, j.inputs, l.entries, l.addKeys);
    FinishesParser(b, data);
    PrefixRuns.RunSplit(b, PrefixSpec.RESET, data, m);
    PrefixRuns.RunSplit(b, PrefixSpec.RESET, data[..m], q);
    assert data[..m][..q] == data[..q] && data[..m][q..] == data[q..m];
    if m == |data| { assert data[..m] == data; }
  }

  /** The next place to cut at. */
  function CutTo(q: nat, cut: nat, len: nat): (m: nat)
    requires q <= len
    ensures q <= m <= len
  {
    if cut < q then q else if cut > len then len else cut
  }

  lemma {:induction false} StreamAll(e: Env, before: seq<Event>, j: Job, n: nat) returns (evs: seq<Event>, q: nat)
    requires Works(e, j) && Sized(j) && n <= |j.cuts|
    requires Streams(e, Play(e, before), j, 0) && StreamOf(Play(e, before).notes).streamed == []
    ensures Streams(e, Play(e, evs), j, n) && q <= |DataOf(e, Play(e, evs), j)|
    ensures StreamOf(Play(e, evs).notes).streamed == DataOf(e, Play(e, evs), j)[..q]
  {
    hide Play, Works, Has, StreamOf, LedgerOf, DataOf, HasAll, InTx, Retains, Listed;
    if n == 0 {
      evs, q := before, 0;
    } else {
      evs, q := StreamAll(e, before, j, n - 1);
      evs, q := StreamOne(e, evs, j, n - 1, q);
    }
  }

  lemma StreamOne(e: Env, before: seq<Event>, j: Job, n: nat, q: nat) returns (evs: seq<Event>, m: nat)
    requires Works(e, j) && Sized(j) && n < |j.cuts| && Streams(e, Play(e, before), j, n)
    requires q <= |DataOf(e, Play(e, before), j)|
    requires StreamOf(Play(e, before).notes).streamed == DataOf(e, Play(e, before), j)[..q]
    ensures Streams(e, Play(e, evs), j, n + 1) && m <= |DataOf(e, Play(e, evs), j)|
    ensures StreamOf(Play(e, evs).notes).streamed == DataOf(e, Play(e, evs), j)[..m]
  {
    hide Play, Next, Works, Has, Record, Tally, StreamOf, LedgerOf, BindingOf, PrefixSpec.Run, PrefixOf,
      PrefixGrammar.PrefixBytes, PrefixGrammar.InputsOk, HeaderFits;
    var t := Play(e, before);
    var data := DataOf(e, t, j);
    m := CutTo(q, j.cuts[n], |data|);
    ChunkRuns(e, before, j, n, q, m);
    SaneToo(e, j);
    TakesChunk(e, t.d, data[q..m], n + 1, false);
    var ev := Command(Send(j.version, INS_PREFIX_HASH, 2, n + 1, 0x80, data[q..m]));
    Grow(e, before, ev);
    var s := Next(e, t.d, ev);
    HasAllLater(e, t.d, s.d, j, |j.xs|);
    Recipients.Recorded(StreamOf(t.notes), LedgerOf(t.notes), s.note);
    StreamKept(StreamOf(t.notes), s.note);
    SameBinding(e, t.d, s.d);
    assert data[..q] + data[q..m] == data[..m];
    evs := before + [ev];
  }

  lemma SameBinding(e: Env, d: Dev, s: Dev)
    requires s.outputs == d.outputs.(parser := s.outputs.parser) && s.session.mode == d.session.mode
    ensures BindingOf(e, s) == BindingOf(e, d)
  {
  }

  /** The prefix is finalized; the last step was of `ins`, and all handles are there. */
  ghost predicate Carried(e: Env, t: Trace, j: Job, ins: byte)
    requires Works(e, j)
  {
    && Goes(t, j) && InTx(e, t.d, j.r, t.d.session.gate) && t.d.session.gate.ins == ins
    && (ins == INS_BLIND ==> t.d.session.gate == Gate(INS_BLIND, 0, 0))
    && t.d.session.stages == Stages(true, false, false, false) && |t.d.signing.prefixH| == KEY_SIZE
    && HasAll(e, t.d.keys, j, |j.xs|) && LedgerOf(t.notes).derived == RecsTo(e, j, |j.xs|)
  }

  lemma EndStream(e: Env, before: seq<Event>, j: Job, q: nat) returns (evs: seq<Event>)
    requires Works(e, j) && Sized(j) && Streams(e, Play(e, before), j, |j.cuts|)
    requires q <= |DataOf(e, Play(e, before), j)|
    requires StreamOf(Play(e, before).notes).streamed == DataOf(e, Play(e, before), j)[..q]
    ensures Carried(e, Play(e, evs), j, INS_PREFIX_HASH)
  {
    hide Play, Next, Works, Has, Record, Tally, StreamOf, LedgerOf, BindingOf, PrefixSpec.Run, DataOf,
      PrefixGrammar.InputsOk, HeaderFits;
    var t := Play(e, before);
    var data := DataOf(e, t, j);
    ChunkRuns(e, before, j, |j.cuts|, q, |data|);
    SaneToo(e, j);
    TakesChunk(e, t.d, data[q..|data|], |j.cuts| + 1, true);
    var ev := Command(Send(j.version, INS_PREFIX_HASH, 2, |j.cuts| + 1, 0, data[q..|data|]));
    Grow(e, before, ev);
    var s := Next(e, t.d, ev);
    HasAllLater(e, t.d, s.d, j, |j.xs|);
    Recipients.Recorded(StreamOf(t.notes), LedgerOf(t.notes), s.note);
    evs := before + [ev];
  }

  // --- masks and blindings -----------------------------------------------------------------------------

  lemma CarryOn(e: Env, before: seq<Event>, ev: Event, j: Job, was: byte, gate: Gate)
    requires Works(e, j) && Carried(e, Play(e, before), j, was) && gate.p1 == gate.p2 == 0
    requires
      var d, s := Play(e, before).d, Next(e, Play(e, before).d, ev);
      && s.Running? && (s.note.Masked? || s.note.Blinded?) && InTx(e, s.d, j.r, gate) && Later(d, s.d)
      && s.d.session.stages == d.session.stages
    ensures Carried(e, Play(e, before + [ev]), j, gate.ins)
  {
    hide Play, Next, Works, Has, Record, Tally, StreamOf, LedgerOf;
    var t := Play(e, before);
    Grow(e, before, ev);
    HasAllLater(e, t.d, Next(e, t.d, ev).d, j, |j.xs|);
    Recipients.Recorded(StreamOf(t.notes), LedgerOf(t.notes), Next(e, t.d, ev).note);
  }

  lemma {:induction false} MaskAll(e: Env, before: seq<Event>, j: Job, n: nat) returns (evs: seq<Event>)
    requires Works(e, j) && n <= |j.xs| && Carried(e, Play(e, before), j, INS_PREFIX_HASH)
    ensures Carried(e, Play(e, evs), j, if n == 0 then INS_PREFIX_HASH else INS_GEN_COMMITMENT_MASK)
  {
    hide Play, Next, Works, Has, LedgerOf, Handle, AllZero, KeyAt, Commits, HiddenOf;
    evs := before;
    if n > 0 {
      evs := MaskAll(e, before, j, n - 1);
      var d, ak := Play(e, evs).d, KeyAt(e, j, n - 1);
      NoteIs(e, j, n - 1);
      SaneToo(e, j);
      AsksMask(e, d, ak);
      var c := Send(j.version, INS_GEN_COMMITMENT_MASK, 0, 0, 0, Handle(e, d.keys, ak, TYPE_AMOUNT_KEY));
      CarryOn(e, evs, Command(c), j, d.session.gate.ins, Gate(INS_GEN_COMMITMENT_MASK, 0, 0));
      evs := evs + [Command(c)];
    }
  }

  lemma {:induction false} BlindAll(e: Env, before: seq<Event>, j: Job, n: nat) returns (evs: seq<Event>)
    requires Works(e, j) && n <= |j.xs| && Carried(e, Play(e, before), j, INS_GEN_COMMITMENT_MASK)
    ensures Carried(e, Play(e, evs), j, if n == 0 then INS_GEN_COMMITMENT_MASK else INS_BLIND)
  {
    hide Play, Next, Works, Has, LedgerOf, Handle, AllZero, KeyAt, Commits, HiddenOf;
    evs := before;
    if n > 0 {
      evs := BlindAll(e, before, j, n - 1);
      var d, x, ak := Play(e, evs).d, j.xs[n - 1], KeyAt(e, j, n - 1);
      NoteIs(e, j, n - 1);
      SaneToo(e, j);
      AsksBlind(e, d, x, ak);
      var data := Handle(e, d.keys, ak, TYPE_AMOUNT_KEY) + (x.mask + x.v);
      var c := Send(j.version, INS_BLIND, 0, 0, FormOf(x), data);
      CarryOn(e, evs, Command(c), j, d.session.gate.ins, Gate(INS_BLIND, 0, 0));
      evs := evs + [Command(c)];
    }
  }

  // --- the review ---------------------------------------------------------------------------------------

  /** The fee has been accepted, and `n` pseudo outputs taken. */
  ghost predicate Paying(e: Env, t: Trace, j: Job, n: nat)
    requires Works(e, j) && n <= |j.pseudo| <= 253
  {
    && Goes(t, j) && InTx(e, t.d, j.r, Gate(INS_VALIDATE, 1, n + 1))
    && t.d.session.stages == Stages(true, false, false, false) && t.d.session.more == (n < |j.pseudo|)
    && |t.d.signing.prefixH| == KEY_SIZE && HasAll(e, t.d.keys, j, |j.xs|)
    && LedgerOf(t.notes) == EMPTY.(derived := RecsTo(e, j, |j.xs|), fee := FeeData(j.fee),
                                   pseudo := Flatten(j.pseudo[..n]), announced := n < |j.pseudo|)
  }

  lemma StartReview(e: Env, before: seq<Event>, j: Job) returns (evs: seq<Event>)
    requires Works(e, j) && Sized(j) && Carried(e, Play(e, before), j, INS_BLIND)
    ensures Paying(e, Play(e, evs), j, 0)
  {
    hide Play, Next, Works, Has, LedgerOf, StreamOf, Tally, Record, FeeData, HeaderFits, PrefixGrammar.InputsOk;
    var t, more := Play(e, before), |j.pseudo| > 0;
    var ev := Command(Send(j.version, INS_VALIDATE, 1, 1, Follow(more), FeeData(j.fee)));
    ShowsFee(e, t.d, j.fee, more);
    Grow(e, before, ev);
    var s := Next(e, t.d, ev);
    HasAllLater(e, t.d, s.d, j, |j.xs|);
    Accepts(e, s.d, Gate(INS_VALIDATE, 1, 1));
    Grow(e, before + [ev], Accept);
    HasAllLater(e, s.d, Next(e, s.d, Accept).d, j, |j.xs|);
    FeeTallied(LedgerOf(t.notes), s.note);
    assert j.pseudo[..0] == [] && Flatten([]) == [];
    evs := before + [ev] + [Accept];
  }

  lemma FeeTallied(l: Ledger, n: Note)
    requires n.Fee?
    ensures Tally(Tally(l, n), Accepted) == EMPTY.(derived := l.derived, fee := n.data, announced := n.more)
  {
  }

  lemma {:induction false} PseudoAll(e: Env, before: seq<Event>, j: Job, n: nat) returns (evs: seq<Event>)
    requires Works(e, j) && Sized(j) && n <= |j.pseudo| && Paying(e, Play(e, before), j, 0)
    ensures Paying(e, Play(e, evs), j, n)
  {
    hide Play, Works, Paying;
    if n == 0 {
      evs := before;
    } else {
      evs := PseudoAll(e, before, j, n - 1);
      evs := PseudoNext(e, evs, j, n - 1);
    }
  }

  lemma PseudoNext(e: Env, before: seq<Event>, j: Job, n: nat) returns (evs: seq<Event>)
    requires Works(e, j) && Sized(j) && n < |j.pseudo| && Paying(e, Play(e, before), j, n)
    ensures Paying(e, Play(e, evs), j, n + 1)
  {
    hide Play, Next, Works, Has, LedgerOf, StreamOf, Tally, Record, FeeData, HeaderFits, PrefixGrammar.InputsOk,
      Flatten;
    var t, x, more := Play(e, before), j.pseudo[n], n + 1 < |j.pseudo|;
    TakesPseudo(e, t.d, x, n + 2, more);
    var ev := Command(Send(j.version, INS_VALIDATE, 1, n + 2, Follow(more), x));
    Grow(e, before, ev);
    HasAllLater(e, t.d, Next(e, t.d, ev).d, j, |j.xs|);
    PseudoTallied(LedgerOf(t.notes), x, more);
    FlattenSnoc(j.pseudo[..n], x);
    assert j.pseudo[..n + 1] == j.pseudo[..n] + [x];
    evs := before + [ev];
  }

  lemma PseudoTallied(l: Ledger, x: key, more: bool)
    ensures Tally(l, PseudoOut(x, more)) == l.(pseudo := l.pseudo + x, announced := more)
  {
  }

  /** The first `n` outputs have been reviewed and accepted. */
  ghost predicate Reviewing(e: Env, t: Trace, j: Job, n: nat)
    requires Works(e, j) && n <= |j.xs| <= 254 && |j.pseudo| <= 253
  {
    && Goes(t, j)
    && InTx(e, t.d, j.r, Gate(INS_VALIDATE, if n == 0 then 1 else 2, if n == 0 then |j.pseudo| + 1 else n))
    && t.d.session.stages == Stages(true, n == |j.xs|, n == |j.xs|, false)
    && |t.d.signing.prefixH| == KEY_SIZE && HasAll(e, t.d.keys, j, |j.xs|)
    && Reviewed(e, LedgerOf(t.notes), j, n)
  }

  ghost predicate Reviewed(e: Env, l: Ledger, j: Job, n: nat)
    requires Works(e, j) && n <= |j.xs|
  {
    && l.derived == RecsTo(e, j, |j.xs|) && l.reviewed == RecsTo(e, j, n)
    && l.committed == CommitmentsTo(e, j, n) && l.hashed == [] && l.finals == 0
    && l.fee == FeeData(j.fee) && l.pseudo == Flatten(j.pseudo)
    && (if n < |j.xs| then l.closed == [] && l.late == CommitmentsTo(e, j, n) && l.terminals == 0
        else l.closed == CommitmentsTo(e, j, n) && l.late == [] && l.terminals == 1)
  }

  lemma AllPseudo(e: Env, t: Trace, j: Job)
    requires Works(e, j) && Sized(j) && Paying(e, t, j, |j.pseudo|)
    ensures Reviewing(e, t, j, 0)
  {
    hide Works, FeeData, LedgerOf, Has, Flatten, HeaderFits, PrefixGrammar.InputsOk;
    assert j.pseudo[..|j.pseudo|] == j.pseudo;
  }

  /** The list reviewed is complete exactly when its digest is that of the list derived. */
  lemma TerminalMatches(e: Env, d: Dev, l: Ledger, x: Rec)
    requires Built(e, d, l) && d.Signs() && d.session.gate.ins == INS_VALIDATE && l.terminals == 0
    requires l.reviewed + [x] == l.derived
    ensures e.sha(Update(d.review.outKeys, RecBytes(x))) == d.review.outK
  {
    hide Recs, RecBytes, Flatten;
    RecsSnoc(l.reviewed, x);
  }

  lemma {:induction false} ReviewAll(e: Env, before: seq<Event>, j: Job, n: nat) returns (evs: seq<Event>)
    requires Works(e, j) && Sized(j) && n <= |j.xs| && Reviewing(e, Play(e, before), j, 0)
    ensures Reviewing(e, Play(e, evs), j, n)
  {
    hide Play, Works, Reviewing;
    if n == 0 {
      evs := before;
    } else {
      evs := ReviewAll(e, before, j, n - 1);
      evs := ReviewNextOne(e, evs, j, n - 1);
    }
  }

  lemma ReviewNextOne(e: Env, before: seq<Event>, j: Job, n: nat) returns (evs: seq<Event>)
    requires Works(e, j) && Sized(j) && n < |j.xs| && Reviewing(e, Play(e, before), j, n)
    ensures Reviewing(e, Play(e, evs), j, n + 1)
  {
    hide Play, Next, Works, Has, LedgerOf, StreamOf, Tally, Record, FeeData, StepData, Payable, Built, RecBytes,
      AllZero, Commits, HiddenOf, NotesOutput, Home, Fits, Derive, Usable, GoesWith, HeaderFits,
      PrefixGrammar.InputsOk;
    var t, x, ak := Play(e, before), j.xs[n], KeyAt(e, j, n);
    var l, terminal := LedgerOf(t.notes), n + 1 == |j.xs|;
    NoteIs(e, j, n);
    WorksAt(e, j, n);
    ReviewRun(e, before);
    if terminal { TerminalMatches(e, t.d, l, NoteAt(e, j, n).rec); }
    SaneToo(e, j);
    ReviewsStep(e, t.d, j.id, x, ak, n + 1, terminal);
    var data := StepData(e, t.d.keys, x, ak);
    var ev := Command(Send(j.version, INS_VALIDATE, 2, n + 1, StepOptions(x, terminal), data));
    Grow(e, before, ev);
    var s := Next(e, t.d, ev);
    HasAllLater(e, t.d, s.d, j, |j.xs|);
    Accepts(e, s.d, Gate(INS_VALIDATE, 2, n + 1));
    Grow(e, before + [ev], Accept);
    HasAllLater(e, s.d, Next(e, s.d, Accept).d, j, |j.xs|);
    OutputTallied(e, l, j, n, s.note);
    evs := before + [ev] + [Accept];
  }

  lemma OutputTallied(e: Env, l: Ledger, j: Job, n: nat, x: Note)
    requires Works(e, j) && n < |j.xs| && Reviewed(e, l, j, n) && Commits(e, j.xs[n], KeyAt(e, j, n))
    requires NotesOutput(e, j.xs[n], KeyAt(e, j, n), n + 1 == |j.xs|, x)
    ensures Reviewed(e, Tally(Tally(l, x), Accepted), j, n + 1)
  {
    hide Works, FeeData, Commits, HiddenOf, Flatten;
    NoteIs(e, j, n);
  }

  // --- the prehash --------------------------------------------------------------------------------------

  /** The first `n` commitments have been given to the last phase. */
  ghost predicate Hashing(e: Env, t: Trace, j: Job, n: nat)
    requires Works(e, j) && n <= |j.xs| <= 254
  {
    && Goes(t, j) && InTx(e, t.d, j.r, Gate(INS_VALIDATE, if n == 0 then 2 else 3, if n == 0 then |j.xs| else n))
    && t.d.session.stages == Stages(true, true, true, false) && |t.d.signing.prefixH| == KEY_SIZE
    && Hashed(e, LedgerOf(t.notes), j, n) && LedgerOf(t.notes).finals == 0
  }

  ghost predicate Hashed(e: Env, l: Ledger, j: Job, n: nat)
    requires Works(e, j) && n <= |j.xs|
  {
    && l.derived == l.reviewed == RecsTo(e, j, |j.xs|) && l.fee == FeeData(j.fee) && l.pseudo == Flatten(j.pseudo)
    && l.committed == l.closed == CommitmentsTo(e, j, |j.xs|) && l.late == [] && l.terminals == 1
    && l.hashed == CommitmentsTo(e, j, n)
  }

  lemma {:induction false} HashAll(e: Env, before: seq<Event>, j: Job, n: nat) returns (evs: seq<Event>)
    requires Works(e, j) && Sized(j) && n <= |j.xs| && Hashing(e, Play(e, before), j, 0)
    ensures Hashing(e, Play(e, evs), j, n)
  {
    hide Play, Works, Hashing;
    if n == 0 {
      evs := before;
    } else {
      evs := HashAll(e, before, j, n - 1);
      evs := HashNext(e, evs, j, n - 1);
    }
  }

  lemma HashNext(e: Env, before: seq<Event>, j: Job, n: nat) returns (evs: seq<Event>)
    requires Works(e, j) && n < |j.xs| <= 254 && Hashing(e, Play(e, before), j, n)
    ensures Hashing(e, Play(e, evs), j, n + 1)
  {
    hide Play, Next, Works, Has, LedgerOf, StreamOf, Record, FeeData, CommitmentAt, Flatten;
    var t, h := Play(e, before), CommitmentAt(e, j, n);
    AbsorbsOne(e, t.d, h, n + 1);
    var ev := Command(Send(j.version, INS_VALIDATE, 3, n + 1, 0x80, h));
    Grow(e, before, ev);
    evs := before + [ev];
  }

  /** The commitments given are those closed over, so their digests agree. */
  lemma DigestsAgree(e: Env, d: Dev, l: Ledger)
    requires Built(e, d, l) && d.Signs() && d.session.gate.ins == INS_VALIDATE && l.finals == 0 && l.terminals > 0
    requires l.late == [] && l.hashed == l.closed
    ensures e.sha(d.review.commitments) == d.review.digest
  {
    hide Recs, Flatten;
    assert l.late + l.hashed == l.closed;
  }

  /** The prehash is closed, and `n` responses are out; the ledger stays at `l`. */
  ghost predicate Ready(e: Env, t: Trace, j: Job, l: Ledger, n: nat)
  {
    && t.Alive? && t.d.session.protocol == j.version && MayPrepare(e, t.d, j.clsag) && t.d.keys.r == j.r
    && t.d.keys.signCnt == n && LedgerOf(t.notes) == l
  }

  lemma ClosePrehash(e: Env, before: seq<Event>, j: Job) returns (evs: seq<Event>, l: Ledger)
    requires Works(e, j) && Sized(j) && Hashing(e, Play(e, before), j, |j.xs|)
    ensures Ready(e, Play(e, evs), j, l, 0) && Hashed(e, l, j, |j.xs|)
  {
    hide Play, Next, Works, Has, LedgerOf, StreamOf, Record, FeeData, Built, Flatten, HeaderFits,
      PrefixGrammar.InputsOk;
    var t := Play(e, before);
    ReviewRun(e, before);
    DigestsAgree(e, t.d, LedgerOf(t.notes));
    SaneToo(e, j);
    ClosesPrehash(e, t.d, j.proof, |j.xs| + 1);
    var ev := Command(Send(j.version, INS_VALIDATE, 3, |j.xs| + 1, 0, t.d.signing.prefixH + j.proof));
    Grow(e, before, ev);
    evs := before + [ev];
    l := LedgerOf(Play(e, evs).notes);
  }

  // --- the responses -----------------------------------------------------------------------------------

  /** A run that goes on from `before`. */
  predicate Grew(e: Env, before: seq<Event>, evs: seq<Event>)
  {
    && Play(e, before).Alive? && Play(e, evs).Alive?
    && Play(e, before).notes <= Play(e, evs).notes
  }

  lemma GrewOn(e: Env, first: seq<Event>, before: seq<Event>, evs: seq<Event>)
    requires Grew(e, first, before) && Grew(e, before, evs)
    ensures Grew(e, first, evs)
  {
    hide Play;
  }

  /** What one response needs. */
  predicate Signable(e: Env, clsag: bool, x: Ring)
  {
    Usable(e, x.p) && Multiplies(e, clsag, x) && !AllZero(x.alpha) && (clsag ==> !AllZero(x.z))
  }

  /** A hash round goes on for `x`, with its nonce prepared. */
  ghost predicate Hashes(e: Env, t: Trace, j: Job, x: Ring, l: Ledger, n: nat, p1: byte, p2: byte)
  {
    && t.Alive? && t.d.session.protocol == j.version && InRound(e, t.d, j.r, j.clsag, p1, p2)
    && Has(e, t.d.keys, x.alpha, TYPE_ALPHA) && Has(e, t.d.keys, x.p, TYPE_SCALAR)
    && t.d.keys.signCnt == n + 1 && LedgerOf(t.notes) == l
  }

  /** Notes of the signing phase leave the ledger. */
  lemma SigningTallied(l: Ledger, n: Note)
    requires n.Prepared? || n.Hashed? || n.Signed? || n.Quiet?
    ensures Tally(l, n) == l
  {
  }

  /** The secret gets a handle, and the nonce is prepared. */
  lemma PrepareNonce(e: Env, before: seq<Event>, j: Job, x: Ring, l: Ledger, n: nat) returns (evs: seq<Event>)
    requires Seals(e) && Signable(e, j.clsag, x) && n + 1 < TWO32 && Ready(e, Play(e, before), j, l, n)
    ensures Hashes(e, Play(e, evs), j, x, l, n, 1, 0) && Grew(e, before, evs)
  {
    hide Play, Next, Seals, Has, LedgerOf, StreamOf, Record, Tally, PrepareData, Usable, Multiplies, AllZero, PointsFor;
    var t, mint := Play(e, before), Command(MakeKey(e, j.version, x.p));
    MakesKey(e, t.d, x.p);
    Grow(e, before, mint);
    SigningTallied(l, Quiet);
    var s := Play(e, before + [mint]);
    PreparesNonce(e, s.d, j.clsag, x);
    var data := PrepareData(e, s.d.keys, j.clsag, x);
    var ev := Command(SendWith(j.version, RingIns(j.clsag), 1, 0, 0, data, x.alpha));
    Grow(e, before + [mint], ev);
    SigningTallied(l, Next(e, s.d, ev).note);
    evs := before + [mint] + [ev];
  }

  lemma HashMessage(e: Env, before: seq<Event>, j: Job, x: Ring, l: Ledger, n: nat, m: key, first: bool, last: bool)
    returns (evs: seq<Event>)
    requires Hashes(e, Play(e, before), j, x, l, n, if first then 1 else 2, 0)
    requires !j.clsag && first ==> m == Play(e, before).d.signing.mlsagH
    requires last ==> !first
    requires last && j.clsag ==>
      History(Play(e, before).d.signing.history, m == Play(e, before).d.signing.mlsagH) >= 4
    ensures Hashes(e, Play(e, evs), j, x, l, n, 2, if last then 2 else 0) && Grew(e, before, evs)
    ensures
      var d, s := Play(e, before).d, Play(e, evs).d;
      && s.signing.mlsagH == d.signing.mlsagH
      && (j.clsag ==> s.signing.history == History(if first then 0 else d.signing.history, m == d.signing.mlsagH))
  {
    hide Play, Next, Has, LedgerOf, StreamOf, Record, Tally, History;
    var t := Play(e, before);
    var ev := Command(Send(j.version, RingIns(j.clsag), 2, Position(first), Follow(!last), m));
    HashesOne(e, t.d, j.clsag, m, first, last);
    Grow(e, before, ev);
    SigningTallied(l, Next(e, t.d, ev).note);
    evs := before + [ev];
  }

  /** The first `k` messages that do not matter; `starts` when they start the round. */
  lemma {:induction false} HashFront(e: Env, before: seq<Event>, j: Job, x: Ring, l: Ledger, n: nat, starts: bool,
                                      k: nat)
    returns (evs: seq<Event>)
    requires k <= |x.front| && (starts ==> j.clsag)
    requires Hashes(e, Play(e, before), j, x, l, n, if starts then 1 else 2, 0)
    ensures Hashes(e, Play(e, evs), j, x, l, n, if starts && k == 0 then 1 else 2, 0) && Grew(e, before, evs)
    ensures Play(e, evs).d.signing.mlsagH == Play(e, before).d.signing.mlsagH
  {
    hide Play, Hashes, History;
    HashesAlive(e, Play(e, before), j, x, l, n, if starts then 1 else 2, 0);
    evs := before;
    if k > 0 {
      var some := HashFront(e, before, j, x, l, n, starts, k - 1);
      evs := HashMessage(e, some, j, x, l, n, x.front[k - 1], starts && k == 1, false);
      GrewOn(e, before, some, evs);
    }
  }

  lemma HashesAlive(e: Env, t: Trace, j: Job, x: Ring, l: Ledger, n: nat, p1: byte, p2: byte)
    requires Hashes(e, t, j, x, l, n, p1, p2)
    ensures t.Alive? && |t.d.signing.mlsagH| == KEY_SIZE
  {
    hide LedgerOf, Has, InTx;
  }

  /** Two messages after the prehash, and the round is over. */
  lemma HashTail(e: Env, before: seq<Event>, j: Job, x: Ring, l: Ledger, n: nat) returns (evs: seq<Event>)
    requires Hashes(e, Play(e, before), j, x, l, n, 2, 0)
    requires j.clsag ==> Play(e, before).d.signing.history % 2 == 1
    ensures Hashes(e, Play(e, evs), j, x, l, n, 2, 2) && Grew(e, before, evs)
  {
    hide Play, Hashes;
    HashesAlive(e, Play(e, before), j, x, l, n, 2, 0);
    var some := HashMessage(e, before, j, x, l, n, x.m1, false, false);
    evs := HashMessage(e, some, j, x, l, n, x.m2, false, true);
    GrewOn(e, before, some, evs);
  }

  /** A round: in CLSAG the prehash is third from last, in MLSAG it comes first. */
  lemma HashRound(e: Env, before: seq<Event>, j: Job, x: Ring, l: Ledger, n: nat) returns (evs: seq<Event>)
    requires Hashes(e, Play(e, before), j, x, l, n, 1, 0)
    ensures Hashes(e, Play(e, evs), j, x, l, n, 2, 2) && Grew(e, before, evs)
  {
    hide Play, Hashes;
    HashesAlive(e, Play(e, before), j, x, l, n, 1, 0);
    var m: key := Play(e, before).d.signing.mlsagH;
    var one, two;
    if j.clsag {
      one := HashFront(e, before, j, x, l, n, true, |x.front|);
      two := HashMessage(e, one, j, x, l, n, m, x.front == [], false);
    } else {
      one := HashMessage(e, before, j, x, l, n, m, true, false);
      two := HashFront(e, one, j, x, l, n, false, |x.front|);
    }
    GrewOn(e, before, one, two);
    evs := HashTail(e, two, j, x, l, n);
    GrewOn(e, before, two, evs);
  }

  lemma SignLast(e: Env, before: seq<Event>, j: Job, x: Ring, l: Ledger, n: nat) returns (evs: seq<Event>)
    requires Seals(e) && Signable(e, j.clsag, x) && Hashes(e, Play(e, before), j, x, l, n, 2, 2)
    ensures Ready(e, Play(e, evs), j, l, n + 1) && Grew(e, before, evs)
    ensures |Play(e, evs).notes| == |Play(e, before).notes| + 1
    ensures Answers(e, j.clsag, x, Play(e, evs).notes[|Play(e, before).notes|])
  {
    hide Play, Next, Seals, Has, LedgerOf, StreamOf, Record, Tally, SignData, Usable, LE, AllZero, Multiplies;
    var t := Play(e, before);
    var ev := Command(Send(j.version, RingIns(j.clsag), 3, 0, 0, SignData(e, t.d.keys, j.clsag, x)));
    SignsOne(e, t.d, j.clsag, x);
    Grow(e, before, ev);
    SigningTallied(l, Next(e, t.d, ev).note);
    evs := before + [ev];
  }

  lemma SignOne(e: Env, before: seq<Event>, j: Job, l: Ledger, n: nat) returns (evs: seq<Event>, at: nat)
    requires Seals(e) && n < |j.rings| < TWO32 - 1 && Signable(e, j.clsag, j.rings[n])
    requires Ready(e, Play(e, before), j, l, n)
    ensures Ready(e, Play(e, evs), j, l, n + 1) && Grew(e, before, evs)
    ensures |Play(e, before).notes| <= at < |Play(e, evs).notes|
    ensures Answers(e, j.clsag, j.rings[n], Play(e, evs).notes[at])
  {
    hide Play, Seals, Signable, Ready, Hashes, Answers;
    var x := j.rings[n];
    var one := PrepareNonce(e, before, j, x, l, n);
    var two := HashRound(e, one, j, x, l, n);
    GrewOn(e, before, one, two);
    evs := SignLast(e, two, j, x, l, n);
    at := |Play(e, two).notes|;
    GrewOn(e, before, two, evs);
  }

  /** The notes at `at` are the responses to the first of the rings, in order. */
  predicate Responded(e: Env, j: Job, ns: seq<Note>, at: seq<nat>)
  {
    && |at| <= |j.rings| && (forall i :: 0 <= i < |at| ==> at[i] < |ns| && Answers(e, j.clsag, j.rings[i], ns[at[i]]))
    && forall i, k :: 0 <= i < k < |at| ==> at[i] < at[k]
  }

  lemma {:induction false} SignAll(e: Env, before: seq<Event>, j: Job, l: Ledger, n: nat)
    returns (evs: seq<Event>, at: seq<nat>)
    requires Seals(e) && n <= |j.rings| < TWO32 - 1 && (forall x <- j.rings :: Signable(e, j.clsag, x))
    requires Ready(e, Play(e, before), j, l, 0)
    ensures Ready(e, Play(e, evs), j, l, n) && Play(e, evs).Alive?
    ensures |at| == n && Responded(e, j, Play(e, evs).notes, at)
  {
    hide Play, Seals, Signable, Answers, MayPrepare, LedgerOf;
    if n == 0 {
      evs, at := before, [];
    } else {
      var some, q;
      some, at := SignAll(e, before, j, l, n - 1);
      evs, q := SignOne(e, some, j, l, n - 1);
      at := at + [q];
    }
  }

  // --- the result ------------------------------------------------------------------------------------------

  /** A run up to the accepted review of all payments. */
  lemma HonestReview(e: Env, j: Job) returns (evs: seq<Event>)
    requires Works(e, j) && Sized(j)
    ensures Reviewing(e, Play(e, evs), j, |j.xs|)
  {
    hide Play, Works, HeaderFits, PrefixGrammar.InputsOk, Deriving, Streams, Carried, Paying, Reviewing, StreamOf,
      DataOf;
    evs := DeriveAll(e, j, |j.xs|);
    evs := StartStream(e, evs, j);
    var q;
    evs, q := StreamAll(e, evs, j, |j.cuts|);
    evs := EndStream(e, evs, j, q);
    evs := MaskAll(e, evs, j, |j.xs|);
    evs := BlindAll(e, evs, j, |j.xs|);
    evs := StartReview(e, evs, j);
    evs := PseudoAll(e, evs, j, |j.pseudo|);
    AllPseudo(e, Play(e, evs), j);
    evs := ReviewAll(e, evs, j, |j.xs|);
  }

  /** The records are those of the payments, in order. */
  predicate Paid(xs: seq<Dest>, rs: seq<Rec>)
  {
    && |rs| == |xs|
    && forall i :: 0 <= i < |xs| ==>
         && rs[i].view == xs[i].view && rs[i].spend == xs[i].spend
         && rs[i].change == Flag(xs[i].change) && rs[i].sub == Flag(xs[i].sub)
  }

  lemma {:induction false} RecsPaid(e: Env, j: Job, n: nat)
    requires Works(e, j) && n <= |j.xs|
    ensures Paid(j.xs[..n], RecsTo(e, j, n))
  {
    hide Works, Commits, AllZero, HiddenOf;
    if n > 0 {
      RecsPaid(e, j, n - 1);
      NoteIs(e, j, n - 1);
      assert j.xs[..n] == j.xs[..n - 1] + [j.xs[n - 1]];
    }
  }

  lemma AllPaid(e: Env, l: Ledger, j: Job)
    requires Works(e, j) && Hashed(e, l, j, |j.xs|)
    ensures Paid(j.xs, l.derived) && Paid(j.xs, l.reviewed)
  {
    hide Works, Paid, Flatten;
    RecsPaid(e, j, |j.xs|);
    assert j.xs[..|j.xs|] == j.xs;
  }

  /** The commitment the host gives is the point kG + vH, for the mask of the output and the
      value paid. */
  lemma HonestCommitmentIs<P(!new)>(e: Env, g: Curve<P>, b: P, hh: P, enc: P -> key, j: Job, i: nat)
    requires OnTwoBases(e, g, b, hh, enc) && Works(e, j) && i < |j.xs|
    ensures
      var k := if j.xs[i].short then e.streams.mask(KeyAt(e, j, i)) else j.xs[i].mask;
      CommitmentAt(e, j, i) == enc(g.add(Times(g, LE(k), b), Times(g, LE(j.xs[i].v), hh)))
  {
    hide OnTwoBases, Works, Times, LE, AllZero, KeyAt, Sums, SumOf, Blinds, HiddenOf;
    NoteIs(e, j, i);
    var k := MaskOf(e, j.xs[i], KeyAt(e, j, i));
    SumIs(e, g, b, hh, enc, k, j.xs[i].v);
  }

  /** Main result: every transaction whose calls succeed goes through. There is a run in which the
      outputs derived and reviewed are those of the payments, in order, with or without a payment
      ID, an unlock time, additional keys, pseudo outputs, change, and amounts of either form; the
      commitments closed over and hashed into the prehash are theirs; and every response asked for,
      by CLSAG or by MLSAG, is given, on the secrets and weights asked for, in order. */
  lemma HonestTransactionSigns(e: Env, j: Job) returns (evs: seq<Event>, at: seq<nat>)
    requires Works(e, j) && Sized(j) && forall x <- j.rings :: Signable(e, j.clsag, x)
    ensures Play(e, evs).Alive? && |at| == |j.rings| && Responded(e, j, Play(e, evs).notes, at)
    ensures
      var l := LedgerOf(Play(e, evs).notes);
      Hashed(e, l, j, |j.xs|) && Paid(j.xs, l.derived) && Paid(j.xs, l.reviewed)
  {
    hide Play, Works, Paid, HeaderFits, PrefixGrammar.InputsOk, LedgerOf, Hashed, Signable, Hashing, Reviewing,
      Responded, MayPrepare;
    SaneToo(e, j);
    evs := HonestReview(e, j);
    AllReviewed(e, Play(e, evs), j);
    evs := HashAll(e, evs, j, |j.xs|);
    var l;
    evs, l := ClosePrehash(e, evs, j);
    evs, at := SignAll(e, evs, j, l, |j.rings|);
    AllPaid(e, l, j);
  }

  lemma SizeIs(j: Job)
    requires Sized(j)
    ensures 0 < |j.xs| <= 254 && |j.pseudo| <= 253
  {
    hide HeaderFits, PrefixGrammar.InputsOk;
  }

  lemma AllReviewed(e: Env, t: Trace, j: Job)
    requires Works(e, j) && Sized(j) && Reviewing(e, t, j, |j.xs|)
    ensures Hashing(e, t, j, 0)
  {
    hide Works, FeeData, LedgerOf, Flatten, HeaderFits, PrefixGrammar.InputsOk, Has;
  }

  // --- the premises can be met --------------------------------------------------------------------------

  const ONE: key := [1] + Repeat(0, 31)

  function AsKey(x: bytes): key { if |x| == KEY_SIZE then x else ONE }

  /** An environment whose calls always answer. */
  ghost function Answering(): Env
  {
    var pair := (x: bytes, y: bytes) => Some(ONE);
    var streams := Blinding.Streams(x => ONE, x => ONE, x => ONE, (op, x, y) => None);
    Env(h => ONE, h => ONE, AsKey, AsKey, m => ONE, k => Some(ONE), k => Some(ONE), pair, pair, pair,
        (x, i) => Some(ONE), (x, i, y) => Some(ONE), (x, i) => Some(0), streams, x => ONE, 0,
        ChangeAddress.Wallet(ONE, ONE, ONE, x => Some(ONE)))
  }

  /** They are met for payments of every kind, change to the wallet's primary address among them,
      and for every number of responses. */
  lemma PremisesMet(j: Job)
    requires Known(j.version) && j.r == j.main == ONE && AllOrNone(j.xs)
    requires forall x <- j.xs :: Payable(x) && GoesWith(j.id, x)
    requires forall x <- j.xs :: (x.change ==> x.view == x.spend == ONE) && (x.need ==> x.own == ONE)
    requires forall x <- j.rings :: x.p == x.alpha == x.z == ONE
    ensures
      var e := Answering();
      Works(e, j) && forall x <- j.rings :: Signable(e, j.clsag, x)
  {
    hide LE, Payable, GoesWith;
    var e := Answering();
    assert ONE[0] == 1 && !AllZero(ONE) && ONE != ZERO_KEY && ONE != FAKE_SPEND_KEY;
    assert LE(ONE) == 1 by { OneIs(); }
    forall x <- j.xs ensures Home(e, x) {
      assert x.change ==> ChangeAddress.IsRoot(e.wallet, e.mul, x.view, x.spend, 0);
    }
  }

  lemma OneIs()
    ensures LE(ONE) == 1
  {
    assert AllZero(ONE[1..]) && ONE[..1] == [1];
    LowBytes(ONE, 1);
    LEHead([1]);
    assert [1][1..] == [] && Rev([]) == [];
  }
}
