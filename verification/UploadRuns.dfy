/**
 * Client and server together: one client uploading one file over connections that can be cut at
 * any moment, to a server whose calls can fail, whose process can be killed, whose machine can
 * lose power, and which serves other clients in between.
 */
module UploadRuns {
  import opened Words
  import opened Wire
  import opened Frames
  import opened Paths
  import opened TransferCodec
  import opened PartialStore
  import opened Receiver
  import opened ReceiveFile
  import opened ServerRuns
  import opened Sessions
  import opened Sender

  datatype World = World(
    server: State,
    client: Client,
    toServer: seq<Frame>,   // sent by the client, not yet read
    toClient: seq<Frame>,
    linked: bool,           // frames sent now will arrive
    chunkBytes: nat,        // file bytes the client has sent, over all connections
    cuts: nat)              // connections lost so far

  datatype Happening =
    | Connect(clientOs: ClientOs)
    | ServerReads(openOs: OpenOs, os: Os)
    | ServerNotices(io: Io, os: Os)
    | ClientReads(clientOs: ClientOs)
    | ClientNotices
    | Cut(a: nat, b: nat)
    | KillServer(spot: Spot, truncated: bool, b: nat)
    | Outage(parts: Parts, lost: set<nat>, b: nat)
    | Foreign(request: Frame, openOs: OpenOs, rounds: seq<Round>)

  function Take(frames: seq<Frame>, n: nat): seq<Frame>
  {
    if n < |frames| then frames[..n] else frames
  }

  /** The file bytes in the chunks of a batch of frames. */
  function DataIn(frames: seq<Frame>): nat
    decreases |frames|
  {
    if frames == [] then 0 else
      (if frames[0].header.messageType == MessageType.FileChunk && |frames[0].payload| >= CHUNK_OFFSET
       then |frames[0].payload| - CHUNK_OFFSET else 0) + DataIn(frames[1..])
  }

  /** The client has moved: what it sent travels if the connection still stands. */
  function Moved(w: World, m: Move): World
  {
    w.(client := m.client,
       toServer := if w.linked then w.toServer + m.sent else w.toServer,
       chunkBytes := w.chunkBytes + DataIn(m.sent))
  }

  /** The server has moved on: what it sent travels if the connection still stands. */
  function Served(w: World, server: State, sent: seq<Frame>, toServer: seq<Frame>): World
  {
    w.(server := server, toServer := toServer, toClient := if w.linked then w.toClient + sent else w.toClient)
  }

  ghost predicate SessionHeld(w: World)
  {
    w.server.session.Some? ==> w.server.session.value.meta in w.server.disk.parts
  }

  /** One happening; one that is impossible in the world as it is changes nothing. */
  ghost function Do(u: Upload, l: TransferLimits, w: World, h: Happening): World
    requires ClientOk(u, w.client) && SessionHeld(w)
  {
    var st := w.server;
    match h
    case Connect(os) =>
      if w.linked || st.session.Some? then w else
        Moved(w.(toServer := [], toClient := [], linked := true), Start(u, os))
    case ServerReads(openOs, os) =>
      if w.toServer == [] then w
      else if st.session.Some? then
        var r := Turn(st.disk, st.session.value, Arrived(w.toServer[0]), l, os);
        Served(w, After(st, r), r.sent, w.toServer[1..])
      else if w.toServer[0].header.messageType != UploadRequest then w
      else
        var r := Begin(st.disk, w.toServer[0], l, openOs);
        Served(w, After(st, r), r.sent, w.toServer[1..])
    case ServerNotices(io, os) =>
      if w.linked || w.toServer != [] || st.session.None? || io == Malformed then w else
        var r := Turn(st.disk, st.session.value, Failed(io), l, os);
        Served(w, After(st, r), r.sent, [])
    case ClientReads(os) =>
      if w.toClient == [] then w else
        Moved(w.(toClient := w.toClient[1..]), OnFrame(u, w.client, Arrived(w.toClient[0]), os))
    case ClientNotices =>
      if w.linked || w.toClient != [] then w else Moved(w, OnFrame(u, w.client, Failed(PeerGone), CLIENT_HEALTHY))
    case Cut(a, b) =>
      if !w.linked then w else
        w.(toServer := Take(w.toServer, a), toClient := Take(w.toClient, b), linked := false, cuts := w.cuts + 1)
    case KillServer(spot, truncated, b) =>
      var input := if w.toServer == [] then Failed(PeerGone) else Arrived(w.toServer[0]);
      var killed :=
        if st.session.Some? then Next(st, Kill(input, spot), l)
        else if w.toServer == [] then st
        else Next(st, KillOpening(w.toServer[0], truncated), l);
      w.(server := killed, toServer := [], toClient := Take(w.toClient, b), linked := false,
         cuts := if w.linked then w.cuts + 1 else w.cuts)
    case Outage(parts, lost, b) =>
      if !Survives(st, parts, lost) then w else
        w.(server := Next(st, PowerLoss(parts, lost), l), toServer := [], toClient := Take(w.toClient, b),
           linked := false, cuts := if w.linked then w.cuts + 1 else w.cuts)
    case Foreign(request, openOs, rounds) =>
      if st.session.Some? then w else
        var r := WholeSession(st.disk, request, l, openOs, rounds);
        w.(server := After(st, r))
  }

  // ---------------------------------------------------------------------------
  // A client that reports success has its file durably committed.
  // ---------------------------------------------------------------------------

  ghost predicate Committed(commits: seq<Commit>, m: UploadMetadata)
  {
    exists c :: c in commits && c.durable && c.meta == m
  }

  ghost predicate Asks(u: Upload, f: Frame)
    requires Representable(u)
  {
    f.header.messageType == UploadRequest ==> DecodeMetadata(f.payload) == Ok(MetadataOf(u))
  }

  ghost predicate Sound(u: Upload, files: map<Path, Bytes>, w: World)
  {
    && ClientOk(u, w.client)
    && Inv(files, w.server)
    && (w.server.session.Some? ==> w.server.session.value.meta == MetadataOf(u))
    && (forall f :: f in w.toServer ==> Asks(u, f))
    && (forall f :: f in w.toClient && Announces(f) ==> Committed(w.server.commits, MetadataOf(u)))
    && (w.client.Ended? && w.client.outcome.status == Status.Success ==> Committed(w.server.commits, MetadataOf(u)))
  }

  lemma CommittedGrows(commits: seq<Commit>, more: seq<Commit>, m: UploadMetadata)
    requires Committed(commits, m) || Committed(more, m)
    ensures Committed(commits + more, m)
  {
    if Committed(commits, m) {
      var c :| c in commits && c.durable && c.meta == m;
      assert c in commits + more;
    } else {
      var c :| c in more && c.durable && c.meta == m;
      assert c in commits + more;
    }
  }

  /** The client asks only for its own upload, and succeeds only on a success report. */
  lemma ClientMoves(u: Upload, client: Client, input: Incoming, os: ClientOs)
    requires ClientOk(u, client)
    ensures var r := OnFrame(u, client, input, os);
      && (forall f :: f in r.sent ==> Asks(u, f))
      && (r.client.Ended? && r.client.outcome.status == Status.Success ==>
            client == r.client || (input.Arrived? && Announces(input.frame)))
  {
    hide DecodeMetadata, NextChunk, PutUint, ResumePoint;
  }

  lemma StartAsks(u: Upload, os: ClientOs)
    requires Representable(u)
    ensures var r := Start(u, os);
      ClientOk(u, r.client) && (forall f :: f in r.sent ==> Asks(u, f))
      && (r.client.Ended? ==> r.client.outcome.status != Status.Success)
  {
    hide DecodeMetadata, EncodeMetadata;
    MetadataRoundTrip(MetadataOf(u));
  }

  /** A step of the server about this upload keeps what is known. */
  lemma ServedSound(u: Upload, files: map<Path, Bytes>, w: World, r: Step, toServer: seq<Frame>)
    requires Sound(u, files, w) && GoodStep(w.server.disk, MetadataOf(u), r)
    requires forall f :: f in toServer ==> f in w.toServer
    ensures Sound(u, files, Served(w, After(w.server, r), r.sent, toServer))
  {
    hide Inv, Announces, Asks;
    var m, st := MetadataOf(u), w.server;
    var w' := Served(w, After(st, r), r.sent, toServer);
    AfterKeeps(files, st, m, r);
    forall f | f in w'.toClient && Announces(f)
      ensures Committed(w'.server.commits, m)
    {
      if f in r.sent {
        var c :| c in r.commits && c.durable && c.id == f.header.requestId;
        assert Committed(r.commits, m);
      }
      CommittedGrows(st.commits, r.commits, m);
    }
    if Committed(st.commits, m) {
      CommittedGrows(st.commits, r.commits, m);
    }
  }

  lemma MovedSound(u: Upload, files: map<Path, Bytes>, w: World, m: Move)
    requires Representable(u) && Sound(u, files, w) && ClientOk(u, m.client)
    requires forall f :: f in m.sent ==> Asks(u, f)
    requires m.client.Ended? && m.client.outcome.status == Status.Success ==> Committed(w.server.commits, MetadataOf(u))
    ensures Sound(u, files, Moved(w, m))
  {
    hide Inv, Announces, Asks, DataIn;
  }

  /** Other sessions only add to the commits. */
  lemma ForeignState(files: map<Path, Bytes>, st: State, request: Frame, l: TransferLimits, os: OpenOs,
                     rounds: seq<Round>)
    requires Inv(files, st) && st.session.None?
    ensures var r := WholeSession(st.disk, request, l, os, rounds);
      r.phase.Closed? && Inv(files, After(st, r))
  {
    hide Inv, WholeSession, Next;
    SessionIsRun(files, st, request, l, os, rounds);
    assert Inv(files, Run(files, st, [Request(request, os)] + Inputs(rounds), l));
  }

  lemma QuietSound(u: Upload, files: map<Path, Bytes>, w: World, w': World)
    requires Sound(u, files, w) && Inv(files, w'.server) && w'.client == w.client
    requires w.server.commits <= w'.server.commits
    requires w'.server.session.None? || w'.server.session == w.server.session
    requires (forall f :: f in w'.toServer ==> f in w.toServer) && (forall f :: f in w'.toClient ==> f in w.toClient)
    ensures Sound(u, files, w')
  {
    hide Inv, Announces, Asks;
    if Committed(w.server.commits, MetadataOf(u)) {
      CommittedGrows(w.server.commits, w'.server.commits[|w.server.commits|..], MetadataOf(u));
      assert w.server.commits + w'.server.commits[|w.server.commits|..] == w'.server.commits;
    }
  }

  lemma KilledState(files: map<Path, Bytes>, st: State, ev: Event, l: TransferLimits)
    requires Inv(files, st) && (ev.Kill? || ev.KillOpening? || ev.PowerLoss?)
    ensures var st' := Next(st, ev, l);
      Inv(files, st') && st.commits <= st'.commits && (st'.session.None? || st'.session == st.session)
  {
    hide Inv, Torn, TornOpening, Survives;
    NextKeeps(files, st, ev, l);
  }

  lemma ConnectSound(u: Upload, l: TransferLimits, files: map<Path, Bytes>, w: World, os: ClientOs)
    requires Sound(u, files, w)
    ensures Sound(u, files, Do(u, l, w, Connect(os)))
  {
    hide Inv, Announces, Asks, Start, DataIn;
    HeldWorld(u, files, w);
    if !w.linked && w.server.session.None? {
      StartAsks(u, os);
      var clear := w.(toServer := [], toClient := [], linked := true);
      QuietSound(u, files, w, clear);
      MovedSound(u, files, clear, Start(u, os));
    }
  }

  lemma ServerSound(u: Upload, l: TransferLimits, files: map<Path, Bytes>, w: World, h: Happening)
    requires Sound(u, files, w) && (h.ServerReads? || h.ServerNotices?)
    ensures Sound(u, files, Do(u, l, w, h))
  {
    hide Announces, Asks, Turn, Begin, Verified, Replay, Surviving, Backed, GoodStep, Served, DecodeMetadata;
    var st := w.server;
    if h.ServerNotices? {
      if !w.linked && w.toServer == [] && st.session.Some? && h.io != Malformed {
        TurnKeeps(st.disk, st.session.value, Failed(h.io), l, h.os);
        ServedSound(u, files, w, Turn(st.disk, st.session.value, Failed(h.io), l, h.os), []);
      }
    } else if w.toServer != [] && st.session.Some? {
      TurnKeeps(st.disk, st.session.value, Arrived(w.toServer[0]), l, h.os);
      ServedSound(u, files, w, Turn(st.disk, st.session.value, Arrived(w.toServer[0]), l, h.os), w.toServer[1..]);
    } else if w.toServer != [] && w.toServer[0].header.messageType == UploadRequest {
      BeginKeeps(st.disk, w.toServer[0], l, h.openOs);
      AskedFor(u, w.toServer[0]);
      ServedSound(u, files, w, Begin(st.disk, w.toServer[0], l, h.openOs), w.toServer[1..]);
    }
  }

  lemma ClientSound(u: Upload, l: TransferLimits, files: map<Path, Bytes>, w: World, h: Happening)
    requires Sound(u, files, w) && (h.ClientReads? || h.ClientNotices?)
    ensures Sound(u, files, Do(u, l, w, h))
  {
    hide Inv, Announces, Asks, OnFrame, DataIn;
    HeldWorld(u, files, w);
    if h.ClientNotices? {
      ClientMoves(u, w.client, Failed(PeerGone), CLIENT_HEALTHY);
      MovedSound(u, files, w, OnFrame(u, w.client, Failed(PeerGone), CLIENT_HEALTHY));
    } else if w.toClient != [] {
      var w1 := w.(toClient := w.toClient[1..]);
      ClientMoves(u, w.client, Arrived(w.toClient[0]), h.clientOs);
      QuietSound(u, files, w, w1);
      MovedSound(u, files, w1, OnFrame(u, w.client, Arrived(w.toClient[0]), h.clientOs));
    }
  }

  lemma LossSound(u: Upload, l: TransferLimits, files: map<Path, Bytes>, w: World, h: Happening)
    requires Sound(u, files, w) && (h.Cut? || h.KillServer? || h.Outage?)
    ensures Sound(u, files, Do(u, l, w, h))
  {
    hide Inv, Announces, Asks, Next, Survives;
    HeldWorld(u, files, w);
    var st := w.server;
    if h.KillServer? {
      if st.session.Some? {
        KilledState(files, st, Kill(if w.toServer == [] then Failed(PeerGone) else Arrived(w.toServer[0]), h.spot), l);
      } else if w.toServer != [] {
        KilledState(files, st, KillOpening(w.toServer[0], h.truncated), l);
      }
    } else if h.Outage? {
      KilledState(files, st, PowerLoss(h.parts, h.lost), l);
    }
    QuietSound(u, files, w, Do(u, l, w, h));
  }

  lemma OthersSound(u: Upload, l: TransferLimits, files: map<Path, Bytes>, w: World, h: Happening)
    requires Sound(u, files, w) && h.Foreign?
    ensures Sound(u, files, Do(u, l, w, h))
  {
    hide Inv, Announces, Asks, WholeSession;
    HeldWorld(u, files, w);
    if w.server.session.None? {
      ForeignState(files, w.server, h.request, l, h.openOs, h.rounds);
      QuietSound(u, files, w, Do(u, l, w, h));
    }
  }

  lemma HeldWorld(u: Upload, files: map<Path, Bytes>, w: World)
    requires Sound(u, files, w)
    ensures SessionHeld(w)
  {
  }

  lemma DoSound(u: Upload, l: TransferLimits, files: map<Path, Bytes>, w: World, h: Happening)
    requires Sound(u, files, w)
    ensures Sound(u, files, Do(u, l, w, h))
  {
    hide Sound, Do, SessionHeld;
    match h
    case Connect(os) => ConnectSound(u, l, files, w, os);
    case ServerReads(_, _) => ServerSound(u, l, files, w, h);
    case ServerNotices(_, _) => ServerSound(u, l, files, w, h);
    case ClientReads(_) => ClientSound(u, l, files, w, h);
    case ClientNotices => ClientSound(u, l, files, w, h);
    case Foreign(_, _, _) => OthersSound(u, l, files, w, h);
    case _ => LossSound(u, l, files, w, h);
  }

  lemma AskedFor(u: Upload, f: Frame)
    requires Representable(u) && Asks(u, f) && f.header.messageType == UploadRequest
    ensures DecodeMetadata(f.payload) == Ok(MetadataOf(u))
  {
  }

  /** All the worlds a sequence of happenings leads through, ending in this one. */
  ghost function History(u: Upload, l: TransferLimits, files: map<Path, Bytes>, w: World,
                         hs: seq<Happening>): (w': World)
    requires Sound(u, files, w)
    ensures Sound(u, files, w')
    decreases |hs|
  {
    if hs == [] then w else
      DoSound(u, l, files, w, hs[0]);
      History(u, l, files, Do(u, l, w, hs[0]), hs[1..])
  }

  /** Before the first connection. */
  function Initially(disk: Disk): World
  {
    World(Fresh(disk), Ended(Outcome(Status.InvalidRequest, 0, 0, None)), [], [], false, 0, 0)
  }

  lemma InitiallySound(u: Upload, disk: Disk)
    requires Representable(u) && PartsOk(disk.parts)
    ensures Sound(u, disk.files, Initially(disk))
  {
    FreshInv(disk);
  }

  /**
   * Whatever happens, a client that reports success has had its file committed: content of the
   * size and checksum of the source was renamed to the final path and both directories synchronised.
   */
  lemma SuccessIsCommitted(u: Upload, l: TransferLimits, disk: Disk, hs: seq<Happening>)
    requires Representable(u) && PartsOk(disk.parts)
    ensures (
      InitiallySound(u, disk);
      var w := History(u, l, disk.files, Initially(disk), hs);
      w.client.Ended? && w.client.outcome.status == Status.Success ==>
        exists c :: c in w.server.commits && c.durable && c.meta == MetadataOf(u) && Verified(c))
  {
    InitiallySound(u, disk);
    var w := History(u, l, disk.files, Initially(disk), hs);
    hide History, Verified, Replay, Announces, Backed;
    if w.client.Ended? && w.client.outcome.status == Status.Success {
      var c :| c in w.server.commits && c.durable && c.meta == MetadataOf(u);
      assert Verified(c);
    }
  }

  lemma DoExtends(u: Upload, l: TransferLimits, w: World, h: Happening)
    requires ClientOk(u, w.client) && SessionHeld(w)
    ensures w.server.commits <= Do(u, l, w, h).server.commits
  {
    hide Turn, Begin, WholeSession, OnFrame, Start, Torn, TornOpening, Survives, DataIn, Replay;
  }

  lemma {:induction false} HistoryExtends(u: Upload, l: TransferLimits, files: map<Path, Bytes>, w: World,
                                          hs: seq<Happening>)
    requires Sound(u, files, w)
    ensures w.server.commits <= History(u, l, files, w, hs).server.commits
    decreases |hs|
  {
    hide Do, Inv, Asks, Announces;
    if hs != [] {
      HeldWorld(u, files, w);
      DoSound(u, l, files, w, hs[0]);
      DoExtends(u, l, w, hs[0]);
      HistoryExtends(u, l, files, Do(u, l, w, hs[0]), hs[1..]);
    }
  }

  /**
   * A reported success is for good: whatever happens after it, power losses included, the final
   * path holds the content committed for it, or that of a later commit to the same path.
   */
  lemma SuccessOutlivesEverything(u: Upload, l: TransferLimits, files: map<Path, Bytes>, w: World, hs: seq<Happening>)
    requires Sound(u, files, w) && w.client.Ended? && w.client.outcome.status == Status.Success
    ensures var st := History(u, l, files, w, hs).server;
      exists i, j :: 0 <= i <= j && i < |w.server.commits| && i < |st.commits|
        && st.commits[i] == w.server.commits[i] && st.commits[i].durable && st.commits[i].meta == MetadataOf(u)
        && Shows(st, j, u.filename)
  {
    hide History, Replay, Verified, Backed, Announces, Asks, Surviving;
    HistoryExtends(u, l, files, w, hs);
    var st := History(u, l, files, w, hs).server;
    var c :| c in w.server.commits && c.durable && c.meta == MetadataOf(u);
    var i :| 0 <= i < |w.server.commits| && w.server.commits[i] == c;
    var j := SurvivorHolds(files, st.commits, st.lost, i);
    assert st.commits[j] in st.commits;
    assert Shows(st, j, u.filename);
  }
}
