/** The taking side's loops on a store object (crates/clipsed/src/sync.rs): each incoming clip is merged
    into the store in place, counted, and its blobs noted. */
module SessionStoreObject {
  import opened Bytes
  import opened HybridClock
  import opened ContentHashes
  import opened StoreObject
  import T = ClipTables
  import B = BlobTables
  import opened SyncSession
  import opened SessionTurns
  import opened SessionStores

  /** `apply`: decide, then insert, or update the metadata of the row already there. */
  method ApplyClip(store: Store, clip: T.Clip, now: nat) returns (applied: Applied)
    requires store.Valid()
    modifies store
    ensures store.Valid() && store.Blobs() == old(store.Blobs())
    ensures (store.Tables(), applied) == Apply(old(store.Tables()), clip, now)
  {
    hide T.Inv, B.Inv, T.Insert, T.SetPinned, T.Delete, T.Find, T.HashMatches, Less;
    var local := T.Find(store.Tables(), clip.hash);
    var action := Merge(local, clip);
    match action
    case Reject => return Refused;
    case Ignore => return Refused;
    case InsertNew =>
      ghost var before := store.Tables();
      var outcome := store.Insert(clip);
      if outcome.ConstraintError? {
        ConstraintChangesNothing(before, clip);
        return Failed;
      }
      return Added(clip.id);
    case UpdateMetadata(pinned, deleted) =>
      var id := local.value.id;
      var _ := store.SetPinned(id, pinned, clip.hlc);
      if deleted {
        var _ := store.Delete(id, clip.hlc, now);
      }
      return Updated;
  }

  lemma {:induction false} ConstraintChangesNothing(t: T.Tables, clip: T.Clip)
    requires T.Insert(t, clip).1.ConstraintError?
    ensures T.Insert(t, clip).0 == t
  {
  }

  /** Taking in the pushes of one turn, in the order they arrive, until the store fails. */
  method TakePushes(store: Store, cfg: Config, clips: seq<T.Clip>) returns (taken: Intake)
    requires store.Valid()
    modifies store
    ensures store.Valid() && store.Blobs() == old(store.Blobs()) && store.Tables() == taken.tables
    ensures taken.failed || taken == ReceiveAll(cfg, Fresh(old(store.Tables())), clips)
    ensures NeverFails(cfg, Fresh(old(store.Tables())), clips) ==> !taken.failed
  {
    hide T.Inv, B.Inv, Apply, Less;
    ghost var start := Fresh(store.Tables());
    taken := Fresh(store.Tables());
    for i := 0 to |clips|
      invariant store.Valid() && store.Blobs() == old(store.Blobs()) && store.Tables() == taken.tables && !taken.failed
      invariant ReceiveAll(cfg, start, clips) == ReceiveAll(cfg, taken, clips[i..])
      invariant NeverFails(cfg, start, clips) ==> NeverFails(cfg, taken, clips[i..])
    {
      assert clips[i..][0] == clips[i] && clips[i..][1..] == clips[i + 1..];
      var clip, now := clips[i], cfg.clock(taken.received + taken.rejected);
      RefusalChangesNothing(taken.tables, clip, now);
      var applied := ApplyClip(store, clip, now);
      match applied
      case Added(id) =>
        var newest := if taken.newest.None? || Less(taken.newest.value.0, clip.hlc) then Some((clip.hlc, id)) else taken.newest;
        taken := taken.(tables := store.Tables(), received := taken.received + 1,
                        missing := taken.missing + BlobDigests(clip.payloads), newest := newest);
      case Updated =>
        taken := taken.(tables := store.Tables(), received := taken.received + 1,
                        missing := taken.missing + BlobDigests(clip.payloads));
      case Refused =>
        taken := taken.(rejected := taken.rejected + 1);
      case Failed =>
        taken := taken.(failed := true);
        return;
    }
  }
}
