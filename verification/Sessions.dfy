/** A call of `receive_file` is a run of the server, so what every run keeps holds of every call. */
module Sessions {
  import opened Words
  import opened Frames
  import opened Paths
  import opened PartialStore
  import opened Receiver
  import opened ReceiveFile
  import opened ServerRuns

  /** The events of a session's loop; at the end of the script the peer is gone. */
  function Inputs(rounds: seq<Round>): (events: seq<Event>)
    ensures forall ev :: ev in events ==> ev.Input?
    decreases |rounds|
  {
    var now := RoundAt(rounds);
    [Input(now.input, now.os)] + (if rounds == [] then [] else Inputs(rounds[1..]))
  }

  /** Nothing happens once the session is over. */
  lemma {:induction false} IdleRun(files: map<Path, Bytes>, st: State, events: seq<Event>, l: TransferLimits)
    requires Inv(files, st) && st.session.None? && forall ev :: ev in events ==> ev.Input?
    ensures Run(files, st, events, l) == st
    decreases |events|
  {
    hide Inv, After, Turn;
    if events != [] {
      assert events[0] in events;
      IdleRun(files, st, events[1..], l);
    }
  }

  lemma RunStep(files: map<Path, Bytes>, st: State, ev: Event, events: seq<Event>, l: TransferLimits)
    requires Inv(files, st)
    ensures Inv(files, Next(st, ev, l)) && Run(files, st, [ev] + events, l) == Run(files, Next(st, ev, l), events, l)
  {
    hide Inv, Next;
    NextKeeps(files, st, ev, l);
    assert ([ev] + events)[1..] == events;
  }

  lemma {:induction false} TurnsAreRun(files: map<Path, Bytes>, st: State, rounds: seq<Round>, l: TransferLimits)
    requires Inv(files, st) && st.session.Some?
    ensures var r := Turns(st.disk, st.session.value, rounds, l);
      && r.phase.Closed?
      && Run(files, st, Inputs(rounds), l) == After(st, r)
    decreases |rounds|
  {
    hide Inv, Turn, Run, Inputs;
    HeldInv(files, st);
    InputsUnfold(rounds);
    var s, now := st.session.value, RoundAt(rounds);
    var ev, more := Input(now.input, now.os), if rounds == [] then [] else Inputs(rounds[1..]);
    RunStep(files, st, ev, more, l);
    TurnStays(st.disk, s, now.input, l, now.os);
    LostIsClosed(st.disk, s, l);
    var st' := Next(st, ev, l);
    if st'.session.None? {
      IdleRun(files, st', more, l);
    } else {
      HeldInv(files, st');
      TurnsAreRun(files, st', rounds[1..], l);
      var r, q := Turn(st.disk, s, now.input, l, now.os), Turns(st'.disk, st'.session.value, rounds[1..], l);
      assert st.commits + r.commits + q.commits == st.commits + (r.commits + q.commits);
      assert st.sent + r.sent + q.sent == st.sent + (r.sent + q.sent);
    }
  }

  lemma HeldInv(files: map<Path, Bytes>, st: State)
    requires Inv(files, st)
    ensures st.session.Some? ==> st.session.value.meta in st.disk.parts
  {
  }

  lemma InputsUnfold(rounds: seq<Round>)
    ensures var now := RoundAt(rounds);
      Inputs(rounds) == [Input(now.input, now.os)] + (if rounds == [] then [] else Inputs(rounds[1..]))
  {
  }

  lemma LostIsClosed(disk: Disk, s: Session, l: TransferLimits)
    requires s.meta in disk.parts
    ensures Turn(disk, s, Failed(PeerGone), l, HEALTHY).phase.Closed?
  {
    hide Judge;
  }

  /** Every call of `receive_file` from an idle server is the run of its request and its inputs. */
  lemma SessionIsRun(files: map<Path, Bytes>, st: State, request: Frame, l: TransferLimits, os: OpenOs,
                     rounds: seq<Round>)
    requires Inv(files, st) && st.session.None?
    ensures var r := WholeSession(st.disk, request, l, os, rounds);
      && r.phase.Closed?
      && Run(files, st, [Request(request, os)] + Inputs(rounds), l) == After(st, r)
  {
    hide Verified, Backed, Replay, Surviving, Begin, Run, Turns;
    RunStep(files, st, Request(request, os), Inputs(rounds), l);
    var st' := Next(st, Request(request, os), l);
    var r := Begin(st.disk, request, l, os);
    if st'.session.None? {
      IdleRun(files, st', Inputs(rounds), l);
    } else {
      BeginStays(st.disk, request, l, os);
      TurnsAreRun(files, st', rounds, l);
      var q := Turns(st'.disk, st'.session.value, rounds, l);
      assert st.commits + r.commits + q.commits == st.commits + (r.commits + q.commits);
      assert st.sent + r.sent + q.sent == st.sent + (r.sent + q.sent);
    }
  }
}
