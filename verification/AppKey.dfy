/**
 The records and snapshots of internal/appkey/store.go as values. An instant is its
 UnixNano, and 0 in a record means "unset", as in the source.
 */
module AppKey {
  import opened Common

  type Key = string

  datatype Scopes = Scopes(models: seq<string>, providers: seq<string>)

  datatype ModelUsage = ModelUsage(requests: int, promptTokens: int, completionTokens: int)

  /** The counters RecordRequest moves. */
  datatype Usage = Usage(total: int, stream: int, nonStream: int, lastAccessedAt: int, models: map<string, ModelUsage>)

  const NO_USAGE := Usage(0, 0, 0, 0, map[])

  datatype Record = Record(key: Key, tag: string, createdAt: int, usage: Usage,
                           expiresAt: int, revokedAt: int, scopes: Option<Scopes>)

  /** The JSON form: unset instants are absent. The status string is derived and not read back. */
  datatype Snapshot = Snapshot(key: Key, tag: string, createdAt: int, total: int, stream: int, nonStream: int,
                               lastAccessedAt: Option<int>, expiresAt: Option<int>, revokedAt: Option<int>,
                               models: map<string, ModelUsage>, scopes: Option<Scopes>)

  function Present(ns: int): Option<int> {
    if ns != 0 then Some(ns) else None
  }

  function OrKeep(t: Option<int>, ns: int): int {
    if t.Some? then t.value else ns
  }

  function TakeSnapshot(r: Record): Snapshot {
    Snapshot(r.key, r.tag, r.createdAt, r.usage.total, r.usage.stream, r.usage.nonStream,
             Present(r.usage.lastAccessedAt), Present(r.expiresAt), Present(r.revokedAt), r.usage.models, r.scopes)
  }

  function Provisioned(key: Key, tag: string, now: int): Record {
    Record(key, tag, now, NO_USAGE, 0, 0, None)
  }

  function Vended(key: Key, tag: string, now: int, ttl: int, scopes: Option<Scopes>): Record {
    Record(key, tag, now, NO_USAGE, if ttl > 0 then now + ttl else 0, 0, scopes)
  }

  /** Restore over an existing record: its label stays, the snapshot's counters win. */
  function RestoredOver(r: Record, s: Snapshot): Record {
    Record(r.key, r.tag, s.createdAt,
           Usage(s.total, s.stream, s.nonStream, OrKeep(s.lastAccessedAt, r.usage.lastAccessedAt),
                 r.usage.models + s.models),
           OrKeep(s.expiresAt, r.expiresAt), OrKeep(s.revokedAt, r.revokedAt),
           if s.scopes.Some? then s.scopes else r.scopes)
  }

  /** Restore of an unknown key. */
  function Restored(s: Snapshot): Record {
    RestoredOver(Provisioned(s.key, s.tag, s.createdAt), s)
  }

  /** Nothing of a record is lost by writing its snapshot and reading it back. */
  lemma SnapshotRoundTrip(r: Record)
    ensures Restored(TakeSnapshot(r)) == r
  {
    assert NO_USAGE.models + r.usage.models == r.usage.models;
  }

  /** Read back over a key provisioned from config, everything but the label is the snapshot's. */
  lemma MergeRoundTrip(r: Record, tag: string, now: int)
    ensures RestoredOver(Provisioned(r.key, tag, now), TakeSnapshot(r)) == r.(tag := tag)
  {
    assert NO_USAGE.models + r.usage.models == r.usage.models;
  }
}
