/** Runs: every sequence of commands, accepts, rejects and resets, and what each step noted. */
module DeviceRuns {
  import opened Status
  import opened DeviceState
  import opened DeviceSpec

  /** The app after a run, with one note for the start and one for every completed step. */
  datatype Trace = Alive(d: Dev, notes: seq<Note>) | Halted(sw: nat, notes: seq<Note>)

  /** Any error ends the run for good. */
  function Play(e: Env, evs: seq<Event>): Trace
  {
    if evs == [] then Alive(InitFrom(0, {}), [Init])
    else
      match Play(e, evs[..|evs| - 1])
      case Halted(sw, ns) => Halted(sw, ns)
      case Alive(d, ns) =>
        match Next(e, d, evs[|evs| - 1])
        case Dead(sw) => Halted(sw, ns)
        case Running(t, n) => Alive(t, ns + [n])
  }

  lemma {:induction false} HaltedStays(e: Env, evs: seq<Event>, m: nat)
    requires m <= |evs| && Play(e, evs[..m]).Halted?
    ensures Play(e, evs) == Play(e, evs[..m])
    decreases |evs|
  {
    hide Next;
    if m == |evs| {
      assert evs[..m] == evs;
    } else {
      assert evs[..|evs| - 1][..m] == evs[..m];
      HaltedStays(e, evs[..|evs| - 1], m);
    }
  }

  /** One more step. */
  lemma Extend(e: Env, evs: seq<Event>, ev: Event)
    requires Play(e, evs).Alive? && Next(e, Play(e, evs).d, ev).Running?
    ensures
      var t := Play(e, evs);
      var s := Next(e, t.d, ev);
      Play(e, evs + [ev]) == Alive(s.d, t.notes + [s.note])
  {
    hide Next;
    assert (evs + [ev])[..|evs|] == evs;
  }

  /** Every note but the first was left by a step of the run, and the notes before it are
      those of the run up to that step. */
  lemma {:induction false} NoteOrigin(e: Env, evs: seq<Event>, n: nat) returns (m: nat)
    requires 0 < n < |Play(e, evs).notes|
    ensures m < |evs| && Play(e, evs[..m]).Alive? && Play(e, evs[..m]).notes == Play(e, evs).notes[..n]
    ensures Next(e, Play(e, evs[..m]).d, evs[m]).Running?
    ensures Next(e, Play(e, evs[..m]).d, evs[m]).note == Play(e, evs).notes[n]
  {
    hide Next;
    var last := |evs| - 1;
    var p := Play(e, evs[..last]);
    if n < |p.notes| {
      m := NoteOrigin(e, evs[..last], n);
      assert evs[..last][..m] == evs[..m];
      assert p.notes[..n] == Play(e, evs).notes[..n];
    } else {
      m := last;
      assert Play(e, evs).notes[..n] == p.notes;
    }
  }

  lemma {:induction false} FirstNote(e: Env, evs: seq<Event>)
    ensures |Play(e, evs).notes| > 0 && Play(e, evs).notes[0] == Init
  {
    hide Next;
    if evs != [] { FirstNote(e, evs[..|evs| - 1]); }
  }

  /** A transaction ends here, or another begins. */
  predicate Boundary(n: Note)
  {
    n.Init? || n.Ended? || n.Opened?
  }

  /** Where the device stands after the reply, given what the command did. */
  function After(r: Result): Dev
    requires !r.Refuse?
  {
    if r.Reply? then r.d else Awaiting(r.d)
  }

  /** The command runs on a device that knows the protocol. */
  function Entered(d: Dev, c: Cmd): Dev
    requires Protocol(d, c.version).Some?
  {
    Protocol(d, c.version).value
  }

  /** A command that succeeds was let in, with an option byte, when nothing was on screen. */
  lemma CommandRuns(e: Env, d: Dev, c: Cmd)
    requires Next(e, d, Command(c)).Running?
    ensures d.session.screen == Idle && Protocol(d, c.version).Some? && c.body != []
    ensures Access(d.session.inProgress, c.ins) == SW_OK
    ensures var r := Serve(e, Entered(d, c), c, c.body[0], c.body[1..]);
      !r.Refuse? && Next(e, d, Command(c)) == Running(After(r), r.note)
  {
    hide Serve, Access;
  }
}
