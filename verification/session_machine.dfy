/** One endpoint of a sync session (crates/clipsed/src/sync.rs, crates/clipse-sync/src/merge.rs).

    `run_session` is a sequential program that blocks on `recv`. Here it is the deterministic
    machine between two blocking points: `Next` says what the endpoint does next, `Sent` and
    `Received` are what it does to its own state. */
module SyncSession {
  import opened Bytes
  import opened HybridClock
  import opened ContentHashes
  import opened Sorting
  import opened ClipTables
  import Blob = BlobTables

  const SUMMARY_PAGE: nat := 200
  const SUMMARY_LIMIT: nat := 100_000
  const PROTOCOL_VERSION: nat := 1

  datatype Disk = Disk(tables: Tables, blobs: Blob.Blobs)

  datatype Summary = Summary(hash: ContentHash, hlc: Hlc, kind: Kind, pinned: bool, deleted: bool, totalSize: nat)

  datatype Msg =
    | Hello(device: DeviceId, protocol: nat, maxHlc: Option<Hlc>)
    | SummaryPage(entries: seq<Summary>, complete: bool)
    | Want(hashes: seq<ContentHash>)
    | Push(clip: Clip)
    | Ack(hlc: Hlc)
    | BlobStream(bytes: seq<Byte>)

  /** Control messages share one ordered stream; each blob comes on a stream of its own, in order. */
  datatype Stream = Control | Blobs

  function StreamOf(m: Msg): Stream
  {
    if m.BlobStream? then Blobs else Control
  }

  // ---- merging one clip ---------------------------------------------------

  datatype MergeAction = InsertNew | UpdateMetadata(pinned: bool, deleted: bool) | Ignore | Reject

  /** Last writer wins on the stamp; a clip that does not hash to its payloads is refused. */
  function Merge(local: Option<Clip>, incoming: Clip): (r: MergeAction)
  {
    if !HashMatches(incoming) then Reject
    else if local.None? then InsertNew
    else if Less(local.value.hlc, incoming.hlc) then UpdateMetadata(incoming.pinned, incoming.deleted)
    else Ignore
  }

  datatype Applied = Added(id: ClipId) | Updated | Refused | Failed

  function ApplyUpdate(t: Tables, id: ClipId, pinned: bool, deleted: bool, hlc: Hlc, now: nat): (r: Tables)
  {
    var pinnedT := ClipTables.SetPinned(t, id, pinned, hlc).0;
    if deleted then ClipTables.Delete(pinnedT, id, hlc, now).0 else pinnedT
  }

  function Apply(t: Tables, clip: Clip, now: nat): (r: (Tables, Applied))
  {
    var local := Find(t, clip.hash);
    match Merge(local, clip)
    case Reject => (t, Refused)
    case Ignore => (t, Refused)
    case InsertNew =>
      var (t', outcome) := ClipTables.Insert(t, clip);
      if outcome.ConstraintError? then (t, Failed) else (t', Added(clip.id))
    case UpdateMetadata(pinned, deleted) =>
      (ApplyUpdate(t, local.value.id, pinned, deleted, clip.hlc, now), Updated)
  }

  // ---- the taking side's bookkeeping --------------------------------------

  datatype Outcome = Outcome(sent: nat, received: nat, rejected: nat,
                             blobsSent: nat, blobsReceived: nat, blobsRejected: nat, newest: Option<ClipId>)

  /** What has been taken in so far this turn. */
  datatype Intake = Intake(tables: Tables, received: nat, rejected: nat, missing: seq<ContentHash>,
                           newest: Option<(Hlc, ClipId)>, failed: bool)

  function BlobDigests(payloads: seq<Payload>): (r: seq<ContentHash>)
  {
    if payloads == [] then []
    else (if payloads[0].body.Blob? then [payloads[0].digest] else []) + BlobDigests(payloads[1..])
  }

  /** Some payload of the clip is kept as this blob. */
  predicate NamesBlob(clip: Clip, d: ContentHash)
  {
    exists k :: 0 <= k < |clip.payloads| && clip.payloads[k].body.Blob? && clip.payloads[k].digest == d
  }

  lemma {:induction false} BlobDigestsIff(payloads: seq<Payload>, d: ContentHash)
    ensures d in BlobDigests(payloads) <==> exists k :: 0 <= k < |payloads| && payloads[k].body.Blob? && payloads[k].digest == d
  {
    if payloads != [] {
      BlobDigestsIff(payloads[1..], d);
      if k :| 0 <= k < |payloads| && payloads[k].body.Blob? && payloads[k].digest == d {
        if k > 0 { assert payloads[1..][k - 1] == payloads[k]; }
      }
      if d in BlobDigests(payloads[1..]) {
        var k :| 0 <= k < |payloads[1..]| && payloads[1..][k].body.Blob? && payloads[1..][k].digest == d;
        assert payloads[k + 1] == payloads[1..][k];
      }
    }
  }

  /** One received clip: applied, counted, its blobs noted, and remembered if it is the newest insert. */
  function TakeIn(i: Intake, clip: Clip, now: nat): (r: Intake)
  {
    var (t, applied) := Apply(i.tables, clip, now);
    match applied
    case Added(id) =>
      var newest := if i.newest.None? || Less(i.newest.value.0, clip.hlc) then Some((clip.hlc, id)) else i.newest;
      Intake(t, i.received + 1, i.rejected, i.missing + BlobDigests(clip.payloads), newest, i.failed)
    case Updated => Intake(t, i.received + 1, i.rejected, i.missing + BlobDigests(clip.payloads), i.newest, i.failed)
    case Refused => i.(rejected := i.rejected + 1)
    case Failed => i.(failed := true)
  }

  /** The blobs to ask for: each digest once, in order of first mention, if it is not on disk. */
  function Needed(files: set<ContentHash>, missing: seq<ContentHash>): (r: seq<ContentHash>)
    ensures forall i :: 0 <= i < |r| ==> r[i] in missing && r[i] !in files
    ensures forall i, j :: 0 <= i < j < |r| ==> r[i] != r[j]
    ensures forall i :: 0 <= i < |missing| && missing[i] !in files ==> missing[i] in r
  {
    if missing == [] then [] else
    var before := Needed(files, missing[..|missing| - 1]);
    var last := missing[|missing| - 1];
    if last in files || last in before then before else before + [last]
  }

  /** We lack this content, or hold it with an older stamp. */
  predicate Takes(t: Tables, s: Summary)
  {
    var known := Find(t, s.hash);
    known.None? || Less(known.value.hlc, s.hlc)
  }

  /** The hashes of a summary that are worth asking for, in order. */
  function Wanted(t: Tables, entries: seq<Summary>): (r: seq<ContentHash>)
  {
    if entries == [] then []
    else if Takes(t, entries[0]) then [entries[0].hash] + Wanted(t, entries[1..])
    else Wanted(t, entries[1..])
  }

  /** The same two computations as the loops of the source. */
  method ComputeWanted(t: Tables, entries: seq<Summary>) returns (wanted: seq<ContentHash>)
    ensures wanted == Wanted(t, entries)
  {
    hide Takes;
    wanted := [];
    for i := 0 to |entries|
      invariant Wanted(t, entries) == wanted + Wanted(t, entries[i..])
    {
      assert entries[i..][1..] == entries[i + 1..];
      if Takes(t, entries[i]) {
        assert wanted + ([entries[i].hash] + Wanted(t, entries[i + 1..])) == (wanted + [entries[i].hash]) + Wanted(t, entries[i + 1..]);
        wanted := wanted + [entries[i].hash];
      }
    }
  }

  method ComputeNeeded(files: set<ContentHash>, missing: seq<ContentHash>) returns (needed: seq<ContentHash>)
    ensures needed == Needed(files, missing)
  {
    needed := [];
    for i := 0 to |missing|
      invariant needed == Needed(files, missing[..i])
    {
      assert missing[..i + 1][..i] == missing[..i];
      if missing[i] !in files && missing[i] !in needed {
        needed := needed + [missing[i]];
      }
    }
    assert missing[..|missing|] == missing;
  }

  // ---- the offering side's computations -----------------------------------

  function TotalSize(payloads: seq<Payload>): (r: nat)
  {
    if payloads == [] then 0 else payloads[0].size + TotalSize(payloads[1..])
  }

  function SummaryOf(c: Clip): (r: Summary)
  {
    Summary(c.hash, c.hlc, c.kind, c.pinned, c.deleted, TotalSize(c.payloads))
  }

  function SummariesOf(rows: seq<Row>): (r: seq<Summary>)
    ensures |r| == |rows|
    ensures forall i :: 0 <= i < |rows| ==> r[i] == SummaryOf(rows[i].clip)
  {
    seq(|rows|, i requires 0 <= i < |rows| => SummaryOf(rows[i].clip))
  }

  /** The whole history, oldest first, up to the limit of one `changes_since` call. */
  function Summaries(t: Tables): (r: seq<Summary>)
  {
    SummariesOf(ChangesSince(t.rows, None, SUMMARY_LIMIT))
  }

  /** Pages of at most `n`; an empty history is one empty page. */
  function Pages(s: seq<Summary>, n: nat): (r: seq<seq<Summary>>)
    requires n > 0
    ensures r != []
  {
    if |s| <= n then [s] else [s[..n]] + Pages(s[n..], n)
  }

  /** The clips asked for that are still there, in the order asked for. */
  function Serve(t: Tables, hashes: seq<ContentHash>): (r: seq<Clip>)
    ensures |r| <= |hashes|
  {
    if hashes == [] then [] else
    var found := Find(t, hashes[0]);
    if found.Some? then [found.value] + Serve(t, hashes[1..]) else Serve(t, hashes[1..])
  }

  // ---- the endpoint -------------------------------------------------------

  datatype Role = Dialler | Responder

  /** What an endpoint is configured with. `clock(k)` is its wall clock when it applies its `k`th clip
      of the turn; `stamp` is what its hybrid clock would say if it had no history to acknowledge. */
  datatype Config = Config(role: Role, device: DeviceId, peer: DeviceId, stamp: Hlc, clock: nat -> nat)

  datatype Error = ProtocolMismatch | IdentityMismatch | Unexpected | StoreError

  datatype Phase =
    | SendHello | AwaitHello
    | SendSummary(pages: seq<seq<Summary>>) | AwaitWant | SendPush(clips: seq<Clip>)
    | AwaitBlobWant | SendBlob(digests: seq<ContentHash>) | AwaitAck
    | TakeSummary(entries: seq<Summary>) | SendWant(wanted: seq<ContentHash>)
    | TakePush(left: nat, taken: Intake)
    | SendBlobWant(needed: seq<ContentHash>, newest: Option<ClipId>)
    | TakeBlob(awaited: seq<ContentHash>, newest: Option<ClipId>)
    | SendAck(newest: Option<ClipId>)
    | Done | Aborted(error: Error)

  datatype Endpoint = Endpoint(cfg: Config, disk: Disk, outcome: Outcome, phase: Phase)

  const NO_OUTCOME := Outcome(0, 0, 0, 0, 0, 0, None)

  function Start(cfg: Config, disk: Disk): (r: Endpoint)
  {
    Endpoint(cfg, disk, NO_OUTCOME, if cfg.role.Dialler? then SendHello else AwaitHello)
  }

  function BeginOffer(l: Endpoint): (r: Endpoint)
  {
    l.(phase := SendSummary(Pages(Summaries(l.disk.tables), SUMMARY_PAGE)))
  }

  function BeginTake(l: Endpoint): (r: Endpoint)
  {
    l.(phase := TakeSummary([]))
  }

  function AfterHello(l: Endpoint): (r: Endpoint)
  {
    if l.cfg.role.Dialler? then BeginOffer(l) else BeginTake(l)
  }

  function AfterOffer(l: Endpoint): (r: Endpoint)
  {
    if l.cfg.role.Dialler? then BeginTake(l) else l.(phase := Done)
  }

  function AfterTake(l: Endpoint): (r: Endpoint)
  {
    if l.cfg.role.Dialler? then l.(phase := Done) else BeginOffer(l)
  }

  function EnterPush(l: Endpoint, clips: seq<Clip>): (r: Endpoint)
  {
    l.(phase := if clips == [] then AwaitBlobWant else SendPush(clips))
  }

  function EnterBlobs(l: Endpoint, digests: seq<ContentHash>): (r: Endpoint)
  {
    l.(phase := if digests == [] then AwaitAck else SendBlob(digests))
  }

  /** The taker after some pushes, `left` of them still to come: when none is, it settles its counts
      and works out which blobs it lacks. */
  function EnterTaking(l: Endpoint, left: nat, taken: Intake): (r: Endpoint)
  {
    var disk := l.disk.(tables := taken.tables);
    if taken.failed then Endpoint(l.cfg, disk, l.outcome, Aborted(StoreError))
    else if left > 0 then Endpoint(l.cfg, disk, l.outcome, TakePush(left, taken))
    else Endpoint(l.cfg, disk,
                  l.outcome.(received := l.outcome.received + taken.received, rejected := l.outcome.rejected + taken.rejected),
                  SendBlobWant(Needed(disk.blobs.files.Keys, taken.missing), if taken.newest.None? then None else Some(taken.newest.value.1)))
  }

  function EnterTakeBlobs(l: Endpoint, digests: seq<ContentHash>, newest: Option<ClipId>): (r: Endpoint)
  {
    if digests == [] then Endpoint(l.cfg, l.disk, l.outcome.(newest := newest), SendAck(newest))
    else l.(phase := TakeBlob(digests, newest))
  }

  datatype Act = ToSend(msg: Msg) | ToReceive(stream: Stream) | Stopped

  /** What the endpoint does next. */
  function Next(l: Endpoint): (r: Act)
  {
    match l.phase
    case SendHello => ToSend(Hello(l.cfg.device, PROTOCOL_VERSION, MaxHlc(l.disk.tables.rows)))
    case SendSummary(pages) => if pages == [] then Stopped else ToSend(SummaryPage(pages[0], |pages| == 1))
    case SendPush(clips) => if clips == [] then Stopped else ToSend(Push(clips[0]))
    case SendBlob(digests) =>
      if digests == [] then Stopped
      else ToSend(BlobStream(if digests[0] in l.disk.blobs.files then l.disk.blobs.files[digests[0]] else []))
    case SendWant(wanted) => ToSend(Want(wanted))
    case SendBlobWant(needed, _) => ToSend(Want(needed))
    case SendAck(_) =>
      var newest := MaxHlc(l.disk.tables.rows);
      ToSend(Ack(if newest.None? then l.cfg.stamp else newest.value))
    case TakeBlob(_, _) => ToReceive(Blobs)
    case Done => Stopped
    case Aborted(_) => Stopped
    case _ => ToReceive(Control)
  }

  /** The endpoint once its message is on the wire. */
  function Sent(l: Endpoint): (r: Endpoint)
  {
    match l.phase
    case SendHello => if l.cfg.role.Dialler? then l.(phase := AwaitHello) else AfterHello(l)
    case SendSummary(pages) => if |pages| <= 1 then l.(phase := AwaitWant) else l.(phase := SendSummary(pages[1..]))
    case SendPush(clips) =>
      if clips == [] then l else
      EnterPush(l.(outcome := l.outcome.(sent := l.outcome.sent + 1)), clips[1..])
    case SendBlob(digests) =>
      if digests == [] then l else
      var (blobs, bytes) := Blob.ReadBlob(l.disk.blobs, digests[0]);
      var l' := if bytes.None? then l else
        l.(disk := l.disk.(blobs := blobs), outcome := l.outcome.(blobsSent := l.outcome.blobsSent + 1));
      EnterBlobs(l', digests[1..])
    case SendWant(wanted) => EnterTaking(l, |wanted|, Intake(l.disk.tables, 0, 0, [], None, false))
    case SendBlobWant(needed, newest) => EnterTakeBlobs(l, needed, newest)
    case SendAck(_) => AfterTake(l)
    case _ => l
  }

  function Abort(l: Endpoint, e: Error): (r: Endpoint)
  {
    l.(phase := Aborted(e))
  }

  /** The endpoint once it has read a message. Anything but the one kind it waits for aborts. */
  function Received(l: Endpoint, m: Msg): (r: Endpoint)
  {
    match l.phase
    case AwaitHello =>
      if !m.Hello? then Abort(l, Unexpected)
      else if m.protocol != PROTOCOL_VERSION then Abort(l, ProtocolMismatch)
      else if m.device != l.cfg.peer then Abort(l, IdentityMismatch)
      else if l.cfg.role.Dialler? then AfterHello(l) else l.(phase := SendHello)
    case AwaitWant => if m.Want? then EnterPush(l, Serve(l.disk.tables, m.hashes)) else Abort(l, Unexpected)
    case AwaitBlobWant => if m.Want? then EnterBlobs(l, m.hashes) else Abort(l, Unexpected)
    case AwaitAck => if m.Ack? then AfterOffer(l) else Abort(l, Unexpected)
    case TakeSummary(entries) =>
      if !m.SummaryPage? then Abort(l, Unexpected)
      else if m.complete then l.(phase := SendWant(Wanted(l.disk.tables, entries + m.entries)))
      else l.(phase := TakeSummary(entries + m.entries))
    case TakePush(left, taken) =>
      if !m.Push? || left == 0 then Abort(l, Unexpected)
      else EnterTaking(l, left - 1, TakeIn(taken.(tables := l.disk.tables), m.clip, l.cfg.clock(taken.received + taken.rejected)))
    case TakeBlob(digests, newest) =>
      if !m.BlobStream? || digests == [] then Abort(l, Unexpected)
      else if OfBytes(m.bytes) != digests[0] then
        EnterTakeBlobs(l.(outcome := l.outcome.(blobsRejected := l.outcome.blobsRejected + 1)), digests[1..], newest)
      else
        EnterTakeBlobs(l.(disk := l.disk.(blobs := Blob.PutBlob(l.disk.blobs, digests[0], m.bytes)),
                          outcome := l.outcome.(blobsReceived := l.outcome.blobsReceived + 1)), digests[1..], newest)
    case _ => l
  }
}
