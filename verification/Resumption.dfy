/**
 * Any number of interrupted connections: while the file is not yet committed, the client has sent
 * every byte at most once, plus at most one chunk for each connection it lost.
 */
module Resumption {
  import opened Words
  import opened Wire
  import opened Frames
  import opened Paths
  import opened Bits
  import opened Checksum
  import opened TransferCodec
  import opened PartialStore
  import opened Receiver
  import opened ReceiveFile
  import opened ServerRuns
  import opened Sender
  import opened UploadRuns
  import opened Completion

  // ---------------------------------------------------------------------------
  // What may happen.
  // ---------------------------------------------------------------------------

  /** Nothing fails but sends on a lost connection. */
  predicate Works(os: Os, linked: bool)
  {
    os == HEALTHY.(sends := os.sends) && (linked ==> os.sends)
  }

  predicate OpenWorks(os: OpenOs, linked: bool)
  {
    os == HEALTHY_OPEN.(sends := os.sends) && (linked ==> os.sends)
  }

  predicate ClientWorks(os: ClientOs, linked: bool)
  {
    os == CLIENT_HEALTHY.(sends := os.sends) && (linked ==> os.sends)
  }

  /** The server is about to read the end of the file. */
  predicate AtRename(u: Upload, w: World)
  {
    w.toServer != [] && w.server.session.Some? && w.server.session.value.offset >= |u.source|
  }

  /**
   * Connections are cut and the server is killed at any point, and other uploads go on in between,
   * but disks and files work and the power stays on. (A turn that refuses nothing unlinks nothing.)
   * A request left behind on a lost connection may be served late, to a client that is gone. When it
   * comes to the rename nothing is in its way: that refusal is final and drops the part, see
   * `RenameCommitsIff`.
   */
  ghost predicate Ordinary(u: Upload, w: World, h: Happening)
    requires Startable(u)
  {
    match h
    case Connect(os) => ClientWorks(os, true)
    case ServerReads(openOs, os) =>
      && OpenWorks(openOs, w.linked) && Works(os, w.linked)
      && (AtRename(u, w) ==> !InTheWay(w.server.disk.files, u.filename))
    case ServerNotices(_, os) => Works(os, false)
    case ClientReads(os) => ClientWorks(os, w.linked)
    case ClientNotices => true
    case Cut(_, _) => true
    case KillServer(spot, _, _) => !spot.AfterUnlink?
    case Outage(_, _, _) => false
    case Foreign(request, os, rounds) =>
      || DecodeMetadata(request.payload) != Ok(MetadataOf(u))
      || (request == RequestFrame(u) && rounds == [] && OpenWorks(os, false))
  }

  // ---------------------------------------------------------------------------
  // What is kept.
  // ---------------------------------------------------------------------------

  ghost predicate Uncommitted(u: Upload, w: World)
    requires Representable(u)
  {
    forall c :: c in w.server.commits ==> c.meta != MetadataOf(u)
  }

  /** How much of the source the server holds. */
  function Held(parts: Parts, m: UploadMetadata): nat
  {
    if m in parts then |parts[m].content| else 0
  }

  ghost predicate TruePrefix(u: Upload, parts: Parts)
    requires Representable(u)
  {
    var m := MetadataOf(u);
    m in parts ==> parts[m].content <= u.source
  }

  /** What is on its way to the server continues what the server holds. */
  ghost predicate Outgoing(u: Upload, w: World)
    requires Startable(u)
  {
    && TruePrefix(u, w.server.disk.parts)
    && match w.server.session
       case None => w.toServer == [] || w.toServer == [RequestFrame(u)]
       case Some(s) =>
         && SessionOk(w.server.disk, s) && s.meta == MetadataOf(u) && s.id == u.requestId
         && (|| w.toServer == []
             || (s.offset < |u.source| && w.toServer == [ChunkFrame(u, u.requestId, s.offset)])
             || (s.offset == |u.source| && w.toServer == [CompleteFrame(u)]))
  }

  /** While the connection stands, the two sides take turns. */
  ghost predicate InStep(u: Upload, w: World)
    requires Startable(u)
  {
    match w.server.session
    case None => w.toServer == [] || (w.client == AwaitReady && w.toClient == [])
    case Some(s) =>
      || (&& w.toServer == [] && w.client == AwaitReady && s.offset <= |u.source|
          && s == Offering(u, u.source[..s.offset]) && w.toClient == [OfferFrame(s)])
      || (&& w.toServer == [] && s.offset <= |u.source| && w.toClient == [AckFrame(u.requestId, s.offset)]
          && w.client.AwaitAck? && w.client.transferId == u.requestId && w.client.offset == s.offset)
      || (&& w.toServer != [] && w.toClient == []
          && (s.offset < |u.source| ==>
                && w.client.AwaitAck? && w.client.transferId == u.requestId
                && w.client.offset == s.offset + |NextChunk(u, s.offset)|))
  }

  /** A client that hears from a server without an open transfer hears only refusals. */
  ghost predicate OnlyResults(w: World)
  {
    w.server.session.None? && w.linked ==> forall f :: f in w.toClient ==> f.header.messageType == TransferResult
  }

  ghost function Allowance(u: Upload, w: World, held0: nat): int
    requires Representable(u)
  {
    Held(w.server.disk.parts, MetadataOf(u)) - held0 + w.cuts * u.limits.chunkSize
  }

  /** The count of bytes sent, with what is still under way and what the client may yet send in vain. */
  ghost predicate Paid(u: Upload, w: World, held0: nat)
    requires Representable(u)
  {
    if w.linked then w.chunkBytes <= Allowance(u, w, held0) + DataIn(w.toServer)
    else w.chunkBytes + (if w.toClient == [] then 0 else u.limits.chunkSize) <= Allowance(u, w, held0)
  }

  ghost predicate Resuming(u: Upload, w: World, held0: nat)
    requires Startable(u)
  {
    && Outgoing(u, w) && |w.toClient| <= 1 && OnlyResults(w)
    && (w.linked ==> InStep(u, w))
    && Paid(u, w, held0)
  }

  // ---------------------------------------------------------------------------
  // The client's moves.
  // ---------------------------------------------------------------------------

  lemma ChunkFrameData(u: Upload, o: nat)
    requires Startable(u) && o < |u.source|
    ensures DataIn([ChunkFrame(u, u.requestId, o)]) == |NextChunk(u, o)| <= u.limits.chunkSize
    ensures o + |NextChunk(u, o)| <= |u.source|
  {
    hide Crc, DataIn, PutUint;
    DataInOne(ChunkFrame(u, u.requestId, o));
  }

  lemma OtherFrameData(f: Frame)
    requires f.header.messageType != MessageType.FileChunk
    ensures DataIn([f]) == 0
  {
    hide DataIn;
    DataInOne(f);
  }

  lemma NoData()
    ensures DataIn([]) == 0
  {
  }

  /** No single move of the client sends more than one chunk. */
  lemma OneChunkAtMost(u: Upload, client: Client, input: Incoming, os: ClientOs)
    requires ClientOk(u, client)
    ensures DataIn(OnFrame(u, client, input, os).sent) <= u.limits.chunkSize
  {
    hide DataIn, Crc, DecodeReady, DecodeOffset, DecodeResult, PutUint;
    NoData();
    var r := OnFrame(u, client, input, os);
    if r.sent != [] {
      assert r.sent == [r.sent[0]];
      DataInOne(r.sent[0]);
    }
  }

  /** On a standing connection the client answers an offer or an acknowledgment with what continues it. */
  lemma AdvanceContinues(u: Upload, w: World, o: nat, from: nat, held0: nat)
    requires Startable(u) && Outgoing(u, w) && w.linked && w.toServer == [] && w.toClient == [] && Paid(u, w, held0)
    requires w.server.session.Some? && o == w.server.session.value.offset <= |u.source|
    ensures Resuming(u, Moved(w, Advance(u, u.requestId, o, from, CLIENT_HEALTHY)), held0)
  {
    hide Crc, DataIn, SessionOk, EncodeChunk, NextChunk, TruePrefix;
    NoData();
    var m := Advance(u, u.requestId, o, from, CLIENT_HEALTHY);
    assert [] + m.sent == m.sent;
    if o < |u.source| {
      ChunkFrameData(u, o);
      assert m.sent == [ChunkFrame(u, u.requestId, o)];
    } else {
      OtherFrameData(CompleteFrame(u));
      assert m.sent == [CompleteFrame(u)];
    }
  }

  lemma PrefixAccepted(u: Upload, o: nat)
    requires o <= |u.source|
    ensures From(u.source[..o], u.source) == o
  {
  }

  lemma ResultSilences(u: Upload, client: Client, f: Frame, os: ClientOs)
    requires ClientOk(u, client) && f.header.messageType == TransferResult
    ensures OnFrame(u, client, Arrived(f), os).sent == []
  {
    hide Crc;
  }

  lemma ClientReadsKeeps(u: Upload, w: World, os: ClientOs, held0: nat)
    requires Startable(u) && ClientOk(u, w.client) && Resuming(u, w, held0)
    requires ClientWorks(os, w.linked) && w.toClient != []
    ensures Resuming(u, Moved(w.(toClient := w.toClient[1..]), OnFrame(u, w.client, Arrived(w.toClient[0]), os)), held0)
  {
    hide Crc, DataIn, OnFrame, Advance, TruePrefix, SessionOk, OfferFrame, AckFrame, ChunkFrame;
    var f, w1 := w.toClient[0], w.(toClient := w.toClient[1..]);
    assert w1.toClient == [] && w.toClient == [f];
    var m := OnFrame(u, w.client, Arrived(f), os);
    NoData();
    if !w.linked {
      OneChunkAtMost(u, w.client, Arrived(f), os);
    } else if w.server.session.None? {
      ResultSilences(u, w.client, f, os);
      assert w1.toServer + [] == w1.toServer;
    } else {
      var s := w.server.session.value;
      if w.client == AwaitReady {
        PrefixAccepted(u, s.offset);
        OfferRead(u, u.source[..s.offset]);
        AdvanceContinues(u, w1, s.offset, s.offset, held0);
      } else {
        AckRead(u, s.offset, w.client.resumedFrom);
        AdvanceContinues(u, w1, s.offset, w.client.resumedFrom, held0);
      }
    }
  }

  // ---------------------------------------------------------------------------
  // The server's moves.
  // ---------------------------------------------------------------------------

  lemma ChunkWritten(u: Upload, l: TransferLimits, disk: Disk, s: Session, os: Os)
    requires PartsOk(disk.parts) && TruePrefixOf(u, disk, s) && s.offset < |u.source|
    requires u.limits.chunkSize <= l.chunkSize && Works(os, false)
    ensures var o' := s.offset + |NextChunk(u, s.offset)|;
      var r := Turn(disk, s, Arrived(ChunkFrame(u, u.requestId, s.offset)), l, os);
      && o' <= |u.source| && r.commits == []
      && s.meta in r.disk.parts && r.disk.parts[s.meta].content == u.source[..o']
      && (r.phase.Open? <==> os.sends)
      && (r.phase.Open? ==> TruePrefixOf(u, r.disk, r.phase.session) && r.phase.session.offset == o'
                            && r.sent == [AckFrame(u.requestId, o')])
  {
    hide Crc, Feed, Turn, Judge, ChunkFrame, AckFrame, NextChunk;
    ChunkBounds(u, s.offset);
    assert disk.parts[s.meta].content == u.source[..s.offset];
    ChunkCalm(u, l, disk, s, u.source, s.offset);
    if os.sends {
      assert os == HEALTHY;
    } else {
      assert os == HEALTHY.(sends := false);
      UnsentKeepsDisk(disk, s, Arrived(ChunkFrame(u, u.requestId, s.offset)), l);
    }
  }

  /** If only the acknowledgment cannot be sent, the part is as if it had been. */
  lemma UnsentKeepsDisk(disk: Disk, s: Session, input: Incoming, l: TransferLimits)
    requires s.meta in disk.parts && Turn(disk, s, input, l, HEALTHY).phase.Open?
    ensures var r, q := Turn(disk, s, input, l, HEALTHY), Turn(disk, s, input, l, HEALTHY.(sends := false));
      q.disk == r.disk && q.phase.Closed? && q.commits == [] && q.sent == []
  {
    hide Judge, Feed, WriteAt, PutUint;
  }

  ghost predicate TruePrefixOf(u: Upload, disk: Disk, s: Session)
  {
    && Startable(u) && SessionOk(disk, s) && s.meta == MetadataOf(u) && s.id == u.requestId
    && disk.parts[s.meta].content <= u.source
  }

  lemma CompleteCommits(u: Upload, l: TransferLimits, disk: Disk, s: Session, os: Os)
    requires TruePrefixOf(u, disk, s) && s.offset == |u.source| && Works(os, false)
    ensures var r := Turn(disk, s, Arrived(CompleteFrame(u)), l, os);
      if InTheWay(disk.files, u.filename) then r.commits == [] && r.disk == DropPart(disk, s.meta)
      else r.commits == [Commit(s.meta, u.requestId, u.source, true)]
  {
    hide Feed, WordNat, EncodeResult, InTheWay;
    assert disk.parts[s.meta].content == u.source;
  }

  lemma Opens(u: Upload, l: TransferLimits, disk: Disk, os: OpenOs)
    requires Startable(u) && TruePrefix(u, disk.parts) && OpenWorks(os, false)
    ensures var m, r := MetadataOf(u), Begin(disk, RequestFrame(u), l, os);
      && r.commits == [] && Held(r.disk.parts, m) == Held(disk.parts, m) && TruePrefix(u, r.disk.parts)
      && (r.phase.Open? ==> r.phase.session == Offering(u, u.source[..Held(disk.parts, m)]) && m in r.disk.parts
                            && r.sent == [OfferFrame(r.phase.session)] && TruePrefixOf(u, r.disk, r.phase.session))
      && (r.phase.Closed? ==> forall f :: f in r.sent ==> f.header.messageType == TransferResult)
      && |r.sent| <= 1
  {
    hide Crc, Feed, Begin, Accepts, RequestFrame, OfferFrame, Admits;
    var m := MetadataOf(u);
    if Accepts(l, disk, m) {
      BeginCalm(u, l, disk);
      var saved := Saved(disk.parts, m);
      assert saved == u.source[..Held(disk.parts, m)];
      if os.sends {
        assert os == HEALTHY_OPEN;
      } else {
        UnsentOffer(disk, RequestFrame(u), l);
      }
    } else {
      UnsentRefusal(u, l, disk, os);
    }
  }

  lemma UnsentOffer(disk: Disk, f: Frame, l: TransferLimits)
    requires Begin(disk, f, l, HEALTHY_OPEN).phase.Open?
    ensures var r, q := Begin(disk, f, l, HEALTHY_OPEN), Begin(disk, f, l, HEALTHY_OPEN.(sends := false));
      q.disk == r.disk && q.phase.Closed? && q.commits == [] && q.sent == []
  {
    hide DecodeMetadata, Admits, Feed;
  }

  lemma UnsentRefusal(u: Upload, l: TransferLimits, disk: Disk, os: OpenOs)
    requires Startable(u) && !Accepts(l, disk, MetadataOf(u)) && OpenWorks(os, false)
    ensures var r := Begin(disk, RequestFrame(u), l, os);
      && r.disk == disk && r.phase.Closed? && r.commits == [] && |r.sent| <= 1
      && forall f :: f in r.sent ==> f.header.messageType == TransferResult
  {
    hide DecodeMetadata, EncodeMetadata, Admits, Feed, Crc;
    MetadataRoundTrip(MetadataOf(u));
  }

  lemma ChunkReadKeeps(u: Upload, l: TransferLimits, w: World, openOs: OpenOs, os: Os, held0: nat)
    requires Startable(u) && ClientOk(u, w.client) && SessionHeld(w) && PartsOk(w.server.disk.parts)
    requires u.limits.chunkSize <= l.chunkSize && Resuming(u, w, held0) && Works(os, w.linked)
    requires w.toServer != [] && w.server.session.Some? && w.server.session.value.offset < |u.source|
    ensures Resuming(u, Do(u, l, w, ServerReads(openOs, os)), held0)
  {
    hide Crc, DataIn, Turn, OfferFrame, AckFrame, ChunkFrame, RequestFrame, CompleteFrame, NextChunk, Feed, Begin;
    var st, s := w.server, w.server.session.value;
    assert w.toServer[1..] == [];
    NoData();
    ChunkFrameData(u, s.offset);
    ChunkWritten(u, l, st.disk, s, os);
    assert w.linked ==> w.toClient == [];
  }

  /** At the end of the file the server commits exactly if nothing is in the way; else it drops the part. */
  lemma RenameCommitsIff(u: Upload, l: TransferLimits, w: World, openOs: OpenOs, os: Os, held0: nat)
    requires Startable(u) && ClientOk(u, w.client) && SessionHeld(w) && Resuming(u, w, held0) && Works(os, w.linked)
    requires AtRename(u, w) && Uncommitted(u, w)
    ensures var w' := Do(u, l, w, ServerReads(openOs, os));
      && (!Uncommitted(u, w') <==> !InTheWay(w.server.disk.files, u.filename))
      && (InTheWay(w.server.disk.files, u.filename) ==> Held(w'.server.disk.parts, MetadataOf(u)) == 0)
  {
    hide Crc, DataIn, Turn, OfferFrame, AckFrame, ChunkFrame, RequestFrame, CompleteFrame, NextChunk, Feed, Begin,
      InTheWay;
    var st, s := w.server, w.server.session.value;
    CompleteCommits(u, l, st.disk, s, os);
    var w' := Do(u, l, w, ServerReads(openOs, os));
    var c := Commit(s.meta, u.requestId, u.source, true);
    if InTheWay(w.server.disk.files, u.filename) {
      assert w'.server.commits == st.commits + [];
    } else {
      assert c in w'.server.commits;
    }
  }

  lemma RequestReadKeeps(u: Upload, l: TransferLimits, w: World, openOs: OpenOs, os: Os, held0: nat)
    requires Startable(u) && ClientOk(u, w.client) && SessionHeld(w) && Resuming(u, w, held0)
    requires OpenWorks(openOs, w.linked) && w.toServer != [] && w.server.session.None?
    ensures Resuming(u, Do(u, l, w, ServerReads(openOs, os)), held0)
  {
    hide Crc, DataIn, Turn, OfferFrame, AckFrame, ChunkFrame, RequestFrame, CompleteFrame, NextChunk, Feed, Begin;
    assert w.toServer[1..] == [];
    NoData();
    RequestIsRequest(u);
    OtherFrameData(RequestFrame(u));
    Opens(u, l, w.server.disk, openOs);
  }

  lemma ServerReadsKeeps(u: Upload, l: TransferLimits, w: World, openOs: OpenOs, os: Os, held0: nat)
    requires Startable(u) && ClientOk(u, w.client) && SessionHeld(w) && PartsOk(w.server.disk.parts)
    requires u.limits.chunkSize <= l.chunkSize
    requires Resuming(u, w, held0) && OpenWorks(openOs, w.linked) && Works(os, w.linked)
    requires Uncommitted(u, w) && (AtRename(u, w) ==> !InTheWay(w.server.disk.files, u.filename))
    ensures var w' := Do(u, l, w, ServerReads(openOs, os)); Uncommitted(u, w') ==> Resuming(u, w', held0)
  {
    hide Crc, Turn, Begin, Resuming, Uncommitted, Served, InTheWay;
    if w.toServer != [] {
      if w.server.session.None? {
        RequestReadKeeps(u, l, w, openOs, os, held0);
      } else if w.server.session.value.offset < |u.source| {
        ChunkReadKeeps(u, l, w, openOs, os, held0);
      } else {
        RenameCommitsIff(u, l, w, openOs, os, held0);
      }
    }
  }

  // ---------------------------------------------------------------------------
  // Kills, and the uploads of others.
  // ---------------------------------------------------------------------------

  /** A kill leaves a longer true prefix, or has already renamed the part. */
  lemma TornPrefix(u: Upload, l: TransferLimits, disk: Disk, s: Session, input: Incoming, spot: Spot)
    requires TruePrefixOf(u, disk, s) && !spot.AfterUnlink?
    requires input.Failed? || (s.offset < |u.source| && input.frame == ChunkFrame(u, u.requestId, s.offset))
      || (s.offset == |u.source| && input.frame == CompleteFrame(u))
    ensures var (disk', commits) := Torn(disk, s, input, l, spot);
      || (exists c :: c in commits && c.meta == MetadataOf(u))
      || (commits == [] && TruePrefix(u, disk'.parts) && Held(disk'.parts, s.meta) >= Held(disk.parts, s.meta))
  {
    hide Crc, Feed, ChunkFrame, CompleteFrame, WriteAt, Judge, InTheWay;
    var (disk', commits) := Torn(disk, s, input, l, spot);
    if input.Arrived? && s.offset < |u.source| {
      assert disk.parts[s.meta].content == u.source[..s.offset];
      ChunkJudged(u, l, disk, s, u.source, s.offset);
      var v := Judge(s, input.frame, l);
      if v.Append? && spot.AfterWriting? {
        var taken := if spot.n < |v.data| then v.data[..spot.n] else v.data;
        WriteAtEnd(disk.parts[s.meta].content, taken);
        assert u.source[..s.offset] + taken == u.source[..s.offset + |taken|];
      }
    } else if input.Arrived? {
      CompleteJudged(u, l, disk, s);
      if spot.AfterRename? && !InTheWay(disk.files, s.meta.filename) {
        assert commits[0] in commits;
      }
    }
  }

  lemma CompleteJudged(u: Upload, l: TransferLimits, disk: Disk, s: Session)
    requires TruePrefixOf(u, disk, s) && s.offset == |u.source|
    ensures Judge(s, CompleteFrame(u), l) == Finish
  {
    hide Feed, WordNat;
    assert disk.parts[s.meta].content == u.source;
  }

  lemma TornOpeningPrefix(u: Upload, l: TransferLimits, disk: Disk, truncated: bool)
    requires Startable(u) && TruePrefix(u, disk.parts)
    ensures var m, disk' := MetadataOf(u), TornOpening(disk, RequestFrame(u), l, truncated);
      TruePrefix(u, disk'.parts) && Held(disk'.parts, m) == Held(disk.parts, m)
  {
    hide Crc, DecodeMetadata, Admits, RequestFrame;
    RequestDecodes(u);
  }

  lemma KillKeeps(u: Upload, l: TransferLimits, w: World, spot: Spot, truncated: bool, b: nat, held0: nat)
    requires Startable(u) && ClientOk(u, w.client) && SessionHeld(w)
    requires Resuming(u, w, held0) && !spot.AfterUnlink?
    ensures var w' := Do(u, l, w, KillServer(spot, truncated, b)); Uncommitted(u, w') ==> Resuming(u, w', held0)
  {
    hide Crc, DataIn, Torn, TornOpening, OfferFrame, AckFrame, ChunkFrame, RequestFrame, CompleteFrame, NextChunk,
      Feed, TruePrefix, Allowance;
    var st, m := w.server, MetadataOf(u);
    var w' := Do(u, l, w, KillServer(spot, truncated, b));
    NoData();
    if st.session.Some? {
      var s := st.session.value;
      var input := if w.toServer == [] then Failed(PeerGone) else Arrived(w.toServer[0]);
      assert TruePrefixOf(u, st.disk, s) by { Prefixed(u, w); }
      TornPrefix(u, l, st.disk, s, input, spot);
      var commits := Torn(st.disk, s, input, l, spot).1;
      if exists c :: c in commits && c.meta == m {
        var c :| c in commits && c.meta == m;
        assert c in w'.server.commits;
      } else {
        if s.offset < |u.source| {
          ChunkFrameData(u, s.offset);
        }
        OtherFrameData(CompleteFrame(u)) by { CompleteIsNoChunk(u); }
        AllowanceGrows(u, w, w', held0);
      }
    } else if w.toServer != [] {
      TornOpeningPrefix(u, l, st.disk, truncated);
      OtherFrameData(RequestFrame(u)) by { RequestIsRequest(u); }
      AllowanceGrows(u, w, w', held0);
    } else {
      AllowanceGrows(u, w, w', held0);
    }
  }

  lemma Prefixed(u: Upload, w: World)
    requires Startable(u) && Outgoing(u, w) && w.server.session.Some?
    ensures TruePrefixOf(u, w.server.disk, w.server.session.value)
  {
  }

  lemma CompleteIsNoChunk(u: Upload)
    ensures CompleteFrame(u).header.messageType != MessageType.FileChunk
  {
  }

  /** A lost connection grants one more chunk, and the server keeps at least what it held. */
  lemma AllowanceGrows(u: Upload, w: World, w': World, held0: nat)
    requires Representable(u)
    requires Held(w'.server.disk.parts, MetadataOf(u)) >= Held(w.server.disk.parts, MetadataOf(u))
    requires w'.cuts == if w.linked then w.cuts + 1 else w.cuts
    ensures Allowance(u, w', held0) >= Allowance(u, w, held0) + (if w.linked then u.limits.chunkSize else 0)
  {
    assert (w.cuts + 1) * u.limits.chunkSize == w.cuts * u.limits.chunkSize + u.limits.chunkSize;
  }

  ghost predicate Untouched(disk: Disk, disk': Disk, m: UploadMetadata)
  {
    (m in disk'.parts <==> m in disk.parts) && (m in disk.parts ==> disk'.parts[m] == disk.parts[m])
  }

  lemma OtherUntouched(disk: Disk, disk': Disk, k: UploadMetadata, m: UploadMetadata)
    requires disk'.parts - {k} == disk.parts - {k} && k != m
    ensures Untouched(disk, disk', m)
  {
    assert m in disk.parts <==> m in disk.parts - {k};
    assert m in disk'.parts <==> m in disk'.parts - {k};
    assert m in disk.parts ==> disk.parts[m] == (disk.parts - {k})[m] == (disk'.parts - {k})[m];
  }

  lemma {:induction false} TurnsLeave(disk: Disk, s: Session, rounds: seq<Round>, l: TransferLimits, m: UploadMetadata)
    requires PartsOk(disk.parts) && SessionOk(disk, s) && s.meta != m
    ensures var r := Turns(disk, s, rounds, l); Untouched(disk, r.disk, m) && forall c :: c in r.commits ==> c.meta != m
    decreases |rounds|
  {
    hide Turn, SessionOk, Verified, Replay, Backed;
    assert s.meta in disk.parts by { HeldSession(disk, s); }
    var now := RoundAt(rounds);
    TurnKeeps(disk, s, now.input, l, now.os);
    var r := Turn(disk, s, now.input, l, now.os);
    OtherUntouched(disk, r.disk, s.meta, m);
    if r.phase.Open? && rounds != [] {
      TurnStays(disk, s, now.input, l, now.os);
      TurnsLeave(r.disk, r.phase.session, rounds[1..], l, m);
    }
  }

  lemma HeldSession(disk: Disk, s: Session)
    requires SessionOk(disk, s)
    ensures s.meta in disk.parts
  {
  }

  /** Another upload leaves this one's part alone and commits nothing in its name. */
  lemma ForeignLeaves(disk: Disk, request: Frame, l: TransferLimits, os: OpenOs, rounds: seq<Round>, m: UploadMetadata)
    requires PartsOk(disk.parts) && DecodeMetadata(request.payload) != Ok(m)
    ensures var r := WholeSession(disk, request, l, os, rounds);
      Untouched(disk, r.disk, m) && forall c :: c in r.commits ==> c.meta != m
  {
    hide Begin, Turns, DecodeMetadata, Verified, Replay, Backed, Admits;
    BeginKeeps(disk, request, l, os);
    var r, decoded := Begin(disk, request, l, os), DecodeMetadata(request.payload);
    if decoded.Ok? {
      OtherUntouched(disk, r.disk, decoded.value, m);
      if r.phase.Open? {
        BeginStays(disk, request, l, os);
        TurnsLeave(r.disk, r.phase.session, rounds, l, m);
      }
    }
  }

  // ---------------------------------------------------------------------------
  // Every history.
  // ---------------------------------------------------------------------------

  lemma CommitsGrow(u: Upload, l: TransferLimits, w: World, h: Happening)
    requires ClientOk(u, w.client) && SessionHeld(w) && Representable(u)
    ensures var w' := Do(u, l, w, h);
      w.server.commits <= w'.server.commits
      && (Uncommitted(u, w') ==> Uncommitted(u, w))
  {
    hide Do, Crc;
    DoExtends(u, l, w, h);
    var w' := Do(u, l, w, h);
    assert forall c :: c in w.server.commits ==> c in w'.server.commits;
  }

  lemma CutKeeps(u: Upload, l: TransferLimits, w: World, a: nat, b: nat, held0: nat)
    requires Startable(u) && ClientOk(u, w.client) && SessionHeld(w) && Resuming(u, w, held0)
    ensures Resuming(u, Do(u, l, w, Cut(a, b)), held0)
  {
    hide Crc, DataIn, OfferFrame, AckFrame, ChunkFrame, RequestFrame, CompleteFrame, NextChunk, Feed, TruePrefix,
      Allowance;
    NoData();
    if w.linked {
      if w.server.session.Some? && w.server.session.value.offset < |u.source| {
        ChunkFrameData(u, w.server.session.value.offset);
      }
      OtherFrameData(CompleteFrame(u)) by { CompleteIsNoChunk(u); }
      OtherFrameData(RequestFrame(u)) by { RequestIsRequest(u); }
      AllowanceGrows(u, w, Do(u, l, w, Cut(a, b)), held0);
    }
  }

  lemma ConnectKeeps(u: Upload, l: TransferLimits, files: map<Path, Bytes>, w: World, held0: nat)
    requires Startable(u) && Sound(u, files, w) && Resuming(u, w, held0)
    ensures Resuming(u, Do(u, l, w, Connect(CLIENT_HEALTHY)), held0)
  {
    hide Crc, DataIn, RequestFrame, TruePrefix, Inv, Asks, Announces, Start;
    if !w.linked && w.server.session.None? {
      ConnectConnects(u, l, files, w);
      OtherFrameData(RequestFrame(u)) by { RequestIsRequest(u); }
    }
  }

  lemma NoticeKeeps(u: Upload, l: TransferLimits, w: World, io: Io, os: Os, held0: nat)
    requires Startable(u) && ClientOk(u, w.client) && SessionHeld(w) && Resuming(u, w, held0) && Works(os, false)
    ensures Resuming(u, Do(u, l, w, ServerNotices(io, os)), held0)
  {
    hide Crc, DataIn, Feed, Judge;
    assert w.toClient + [] == w.toClient;
  }

  lemma HangUpKeeps(u: Upload, l: TransferLimits, w: World, held0: nat)
    requires Startable(u) && ClientOk(u, w.client) && SessionHeld(w) && Resuming(u, w, held0)
    ensures Resuming(u, Do(u, l, w, ClientNotices), held0)
  {
    hide Crc, DataIn, Feed;
    NoData();
  }

  /** A request served to nobody leaves a true prefix as it was. */
  lemma StaleLeaves(u: Upload, l: TransferLimits, disk: Disk, os: OpenOs)
    requires Startable(u) && TruePrefix(u, disk.parts) && OpenWorks(os, false)
    ensures var m, r := MetadataOf(u), WholeSession(disk, RequestFrame(u), l, os, []);
      && r.commits == [] && TruePrefix(u, r.disk.parts) && Held(r.disk.parts, m) == Held(disk.parts, m)
  {
    hide Crc, Begin, RequestFrame, OfferFrame, Feed, Judge;
    Opens(u, l, disk, os);
  }

  lemma ForeignKeeps(u: Upload, l: TransferLimits, files: map<Path, Bytes>, w: World, h: Happening, held0: nat)
    requires Startable(u) && Sound(u, files, w) && Resuming(u, w, held0) && h.Foreign? && Ordinary(u, w, h)
    ensures Resuming(u, Do(u, l, w, h), held0)
  {
    hide Crc, DataIn, Feed, WholeSession, DecodeMetadata, RequestFrame, Asks, Announces, Verified, Replay, Surviving,
      Backed;
    if w.server.session.None? {
      ForeignState(files, w.server, h.request, l, h.openOs, h.rounds);
      if DecodeMetadata(h.request.payload) != Ok(MetadataOf(u)) {
        ForeignLeaves(w.server.disk, h.request, l, h.openOs, h.rounds, MetadataOf(u));
      } else {
        StaleLeaves(u, l, w.server.disk, h.openOs);
      }
    }
  }

  lemma DoKeeps(u: Upload, l: TransferLimits, files: map<Path, Bytes>, w: World, h: Happening, held0: nat)
    requires Startable(u) && Sound(u, files, w) && u.limits.chunkSize <= l.chunkSize
    requires Resuming(u, w, held0) && Uncommitted(u, w) && Ordinary(u, w, h)
    ensures var w' := Do(u, l, w, h); Uncommitted(u, w') ==> Resuming(u, w', held0)
  {
    hide Crc, Resuming, Works, OpenWorks, Asks, Announces, Verified, Replay, Surviving, Backed, Turn, Begin, Start,
      OnFrame,
      DataIn, DecodeMetadata, WholeSession, SessionOk;
    assert SessionHeld(w) by { HeldWorld(u, files, w); }
    match h
    case Connect(os) => ConnectKeeps(u, l, files, w, held0);
    case ServerReads(openOs, os) => ServerReadsKeeps(u, l, w, openOs, os, held0);
    case ServerNotices(io, os) => NoticeKeeps(u, l, w, io, os, held0);
    case ClientReads(os) =>
      if w.toClient != [] {
        ClientReadsKeeps(u, w, os, held0);
      }
    case ClientNotices => HangUpKeeps(u, l, w, held0);
    case Cut(a, b) => CutKeeps(u, l, w, a, b, held0);
    case KillServer(spot, truncated, b) => KillKeeps(u, l, w, spot, truncated, b, held0);
    case Foreign(_, _, _) => ForeignKeeps(u, l, files, w, h, held0);
  }

  /** Every happening of the history is ordinary in the world it happens in. */
  ghost predicate OrdinaryHistory(u: Upload, l: TransferLimits, files: map<Path, Bytes>, w: World, hs: seq<Happening>)
    requires Startable(u) && Sound(u, files, w)
    decreases |hs|
  {
    hs != [] ==> (
      DoSound(u, l, files, w, hs[0]);
      Ordinary(u, w, hs[0]) && OrdinaryHistory(u, l, files, Do(u, l, w, hs[0]), hs[1..]))
  }

  lemma {:induction false} HistoryKeeps(u: Upload, l: TransferLimits, files: map<Path, Bytes>, w: World,
                                        hs: seq<Happening>, held0: nat)
    requires Startable(u) && Sound(u, files, w) && u.limits.chunkSize <= l.chunkSize
    requires OrdinaryHistory(u, l, files, w, hs) && (Uncommitted(u, w) ==> Resuming(u, w, held0))
    ensures var w' := History(u, l, files, w, hs); Uncommitted(u, w') ==> Uncommitted(u, w) && Resuming(u, w', held0)
    decreases |hs|
  {
    hide Sound, Resuming, Ordinary, Do, Uncommitted;
    if hs != [] {
      DoSound(u, l, files, w, hs[0]);
      HeldWorld(u, files, w);
      ClientOfSound(u, files, w);
      var next := Do(u, l, w, hs[0]);
      CommitsGrow(u, l, w, hs[0]);
      if Uncommitted(u, w) {
        DoKeeps(u, l, files, w, hs[0], held0);
      }
      HistoryKeeps(u, l, files, next, hs[1..], held0);
    }
  }

  lemma ClientOfSound(u: Upload, files: map<Path, Bytes>, w: World)
    requires Sound(u, files, w)
    ensures ClientOk(u, w.client)
  {
  }

  lemma Covered(u: Upload, w: World, held0: nat)
    requires Startable(u) && Resuming(u, w, held0)
    ensures w.chunkBytes <= |u.source| - held0 + w.cuts * u.limits.chunkSize
  {
    hide Crc, DataIn, Feed, OfferFrame, AckFrame, ChunkFrame, RequestFrame, CompleteFrame;
    NoData();
    if w.server.session.Some? && w.server.session.value.offset < |u.source| {
      ChunkFrameData(u, w.server.session.value.offset);
    }
    OtherFrameData(CompleteFrame(u)) by { CompleteIsNoChunk(u); }
    OtherFrameData(RequestFrame(u)) by { RequestIsRequest(u); }
  }

  /**
   * Whatever connections are lost and however often the server is killed and restarted: as long as
   * the file is not committed, the client has sent each missing byte once, and at most one chunk in
   * vain for every connection lost; and the server still holds a prefix of the source.
   */
  lemma NothingIsResent(u: Upload, l: TransferLimits, disk: Disk, hs: seq<Happening>)
    requires Startable(u) && u.limits.chunkSize <= l.chunkSize
    requires PartsOk(disk.parts) && TruePrefix(u, disk.parts)
    requires ( InitiallySound(u, disk); OrdinaryHistory(u, l, disk.files, Initially(disk), hs) )
    ensures (
      InitiallySound(u, disk);
      var w := History(u, l, disk.files, Initially(disk), hs);
      Uncommitted(u, w) ==>
        && w.chunkBytes <= |u.source| - Held(disk.parts, MetadataOf(u)) + w.cuts * u.limits.chunkSize
        && TruePrefix(u, w.server.disk.parts))
  {
    hide Crc, History, OrdinaryHistory, Uncommitted;
    InitiallySound(u, disk);
    var held0 := Held(disk.parts, MetadataOf(u));
    assert Resuming(u, Initially(disk), held0);
    HistoryKeeps(u, l, disk.files, Initially(disk), hs, held0);
    var w := History(u, l, disk.files, Initially(disk), hs);
    if Uncommitted(u, w) {
      Covered(u, w, held0);
    }
  }

  lemma TruePrefixResumes(u: Upload, w: World, held0: nat)
    requires Startable(u) && Resuming(u, w, held0) && !w.linked
    ensures var g := GoalOf(u, w);
      && g.expected == u.source && g.from == Held(w.server.disk.parts, MetadataOf(u))
      && w.chunkBytes + |u.source| - g.from <= |u.source| - held0 + w.cuts * u.limits.chunkSize
  {
    hide Crc, DataIn, Feed, OfferFrame, AckFrame, ChunkFrame, RequestFrame, CompleteFrame, InStep;
    var m := MetadataOf(u);
    var saved := Saved(w.server.disk.parts, m);
    assert saved == u.source[..Held(w.server.disk.parts, m)];
    ExpectedIsSource(saved, u.source);
    PrefixAccepted(u, |saved|);
  }

  /**
   * However often an upload was interrupted, one calm connection ends it: it commits exactly the
   * source, and over all connections the client has then sent each missing byte once, and at most one
   * chunk in vain for every connection lost.
   */
  lemma InterruptedUploadCompletes(u: Upload, l: TransferLimits, disk: Disk, hs: seq<Happening>)
    requires Startable(u) && u.limits.chunkSize <= l.chunkSize
    requires PartsOk(disk.parts) && TruePrefix(u, disk.parts)
    requires ( InitiallySound(u, disk); OrdinaryHistory(u, l, disk.files, Initially(disk), hs) )
    requires (
      InitiallySound(u, disk);
      var w := History(u, l, disk.files, Initially(disk), hs);
      && Uncommitted(u, w) && !w.linked && w.server.session.None?
      && Accepts(l, w.server.disk, MetadataOf(u)) && !Occupied(w.server.disk.files, u.filename))
    ensures (
      InitiallySound(u, disk);
      var w := History(u, l, disk.files, Initially(disk), hs);
      DoSound(u, l, disk.files, w, Connect(CLIENT_HEALTHY));
      HeldWorld(u, disk.files, w);
      var w1 := Do(u, l, w, Connect(CLIENT_HEALTHY));
      var w' := Calm(u, l, disk.files, w1, 4 + 2 * Chunks(u, Held(w.server.disk.parts, MetadataOf(u))));
      && w'.client.Ended? && w'.client.outcome.status == Status.Success
      && w'.server.disk.files == w.server.disk.files[u.filename := u.source]
      && w'.chunkBytes <= |u.source| - Held(disk.parts, MetadataOf(u)) + w.cuts * u.limits.chunkSize)
  {
    hide Crc, History, OrdinaryHistory, Uncommitted, Accepts, Occupied, Do, Calm, Sound, Resuming, Chunks;
    InitiallySound(u, disk);
    var files, held0 := disk.files, Held(disk.parts, MetadataOf(u));
    InitiallyResuming(u, disk);
    HistoryKeeps(u, l, files, Initially(disk), hs, held0);
    var w := History(u, l, files, Initially(disk), hs);
    DoSound(u, l, files, w, Connect(CLIENT_HEALTHY));
    HeldWorld(u, files, w);
    ClientOfSound(u, files, w);
    var w1 := Do(u, l, w, Connect(CLIENT_HEALTHY));
    ConnectConnects(u, l, files, w);
    TruePrefixResumes(u, w, held0);
    UploadCompletes(u, l, files, w1);
  }

  lemma InitiallyResuming(u: Upload, disk: Disk)
    requires Startable(u) && TruePrefix(u, disk.parts)
    ensures Resuming(u, Initially(disk), Held(disk.parts, MetadataOf(u)))
  {
  }
}
