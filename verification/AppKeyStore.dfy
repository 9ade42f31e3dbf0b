/**
 internal/appkey/store.go and the disk side of persist.go as they stand in memory: records
 are objects updated in place, the store maps keys to them, and lifecycle calls write
 through to the bucket before they return. One call at a time; interleavings are the
 subject of Persistence.
 */
module AppKeyStore {
  import opened Common
  import opened AppKey
  import Persistence
  import opened CloseAndLoad

  class UsageRecord {
    const key: Key
    const tag: string
    var createdAt: int
    var total: int
    var stream: int
    var nonStream: int
    var lastAccessedAt: int
    var expiresAt: int
    var revokedAt: int
    var scopes: Option<Scopes>
    var modelUsage: map<string, ModelUsage>

    ghost function View(): Record
      reads this
    {
      Record(key, tag, createdAt, Usage(total, stream, nonStream, lastAccessedAt, modelUsage), expiresAt, revokedAt,
             scopes)
    }

    constructor (key: Key, tag: string, now: int)
      ensures View() == Provisioned(key, tag, now)
    {
      this.key, this.tag, createdAt := key, tag, now;
      total, stream, nonStream, lastAccessedAt, expiresAt, revokedAt := 0, 0, 0, 0, 0, 0;
      scopes, modelUsage := None, map[];
    }

    method Snapshot() returns (s: AppKey.Snapshot)
      ensures s == TakeSnapshot(View())
    {
      var models: map<string, ModelUsage> := map[];
      var todo := modelUsage.Keys;
      while todo != {}
        invariant todo <= modelUsage.Keys && models.Keys == modelUsage.Keys - todo
        invariant forall m :: m in models ==> models[m] == modelUsage[m]
      {
        var m :| m in todo;
        models := models[m := modelUsage[m]];
        todo := todo - {m};
      }
      assert models == modelUsage;
      s := AppKey.Snapshot(key, tag, createdAt, total, stream, nonStream, Present(lastAccessedAt), Present(expiresAt),
                           Present(revokedAt), models, scopes);
    }

    /** RecordRequest's increments. */
    method Count(model: string, isStream: bool, prompt: int, completion: int, now: int)
      modifies this
      ensures View() == Counted(old(View()), model, isStream, prompt, completion, now)
    {
      total := total + 1;
      lastAccessedAt := now;
      if isStream {
        stream := stream + 1;
      } else {
        nonStream := nonStream + 1;
      }
      if model != "" {
        var m := if model in modelUsage then modelUsage[model] else ModelUsage(0, 0, 0);
        m := m.(requests := m.requests + 1);
        if prompt > 0 {
          m := m.(promptTokens := m.promptTokens + prompt);
        }
        if completion > 0 {
          m := m.(completionTokens := m.completionTokens + completion);
        }
        modelUsage := modelUsage[model := m];
      }
    }

    /** The counters part of Restore. */
    method Absorb(s: AppKey.Snapshot)
      modifies this
      ensures View() == RestoredOver(old(View()), s)
    {
      createdAt := s.createdAt;
      lastAccessedAt := OrKeep(s.lastAccessedAt, lastAccessedAt);
      expiresAt := OrKeep(s.expiresAt, expiresAt);
      revokedAt := OrKeep(s.revokedAt, revokedAt);
      total, stream, nonStream := s.total, s.stream, s.nonStream;
      if s.scopes.Some? {
        scopes := s.scopes;
      }
      modelUsage := modelUsage + s.models;
    }
  }

  /** The bbolt bucket: key to snapshot, one transaction at a time. */
  class Bucket {
    var entries: map<Key, AppKey.Snapshot>

    constructor ()
      ensures entries == map[]
    {
      entries := map[];
    }
  }

  /** What one request adds to a record's counters. */
  function Counted(r: Record, model: string, stream: bool, prompt: int, completion: int, now: int): Record {
    var u := r.usage;
    var m := if model in u.models then u.models[model] else ModelUsage(0, 0, 0);
    var m' := ModelUsage(m.requests + 1, m.promptTokens + (if prompt > 0 then prompt else 0),
                         m.completionTokens + (if completion > 0 then completion else 0));
    r.(usage := Usage(u.total + 1, if stream then u.stream + 1 else u.stream,
                      if stream then u.nonStream else u.nonStream + 1,
                      now, if model == "" then u.models else u.models[model := m']))
  }

  /** Rotate on contents: the new key takes over, the old one is revoked. */
  ghost function RotatedContents(c: map<Key, Record>, key: Key, newKey: Key, tag: string, now: int): map<Key, Record>
    requires key in c
  {
    var revoked := Persistence.ApplyOp(c[key], Persistence.RevokeAt(now));
    c[newKey := Persistence.Replacement(c[key], newKey, tag, now)][key := revoked]
  }

  /** Rotate on the bucket: both entries are written, the old key's only if it was not revoked before. */
  ghost function RotatedEntries(e: map<Key, AppKey.Snapshot>, was: map<Key, Record>, c: map<Key, Record>, key: Key,
                                newKey: Key): map<Key, AppKey.Snapshot>
    requires key in was && key in c && newKey in c
  {
    var e' := e[newKey := TakeSnapshot(c[newKey])];
    if was[key].revokedAt != 0 then e' else e'[key := TakeSnapshot(c[key])]
  }

  /** Vending the replacement and then revoking the old key is the rotation. */
  lemma RotatedInTwo(c: map<Key, Record>, vended: map<Key, Record>, e: map<Key, AppKey.Snapshot>, key: Key, newKey: Key,
                     tag: string, now: int)
    requires key in c && newKey !in c && vended == c[newKey := Persistence.Replacement(c[key], newKey, tag, now)]
    ensures var c' := vended[key := Persistence.ApplyOp(vended[key], Persistence.RevokeAt(now))];
      var e' := e[newKey := TakeSnapshot(vended[newKey])];
      && c' == RotatedContents(c, key, newKey, tag, now)
      && RotatedEntries(e, c, c', key, newKey)
         == if Persistence.SwapFails(vended[key], Persistence.RevokeAt(now)) then e'
            else e'[key := TakeSnapshot(c'[key])]
  {
  }

  class Store {
    var records: map<Key, UsageRecord>
    const bucket: Bucket
    /** The store as a value: each key with its record's fields. */
    ghost var contents: map<Key, Record>

    ghost predicate Valid()
      reads this, records.Values
    {
      records.Keys == contents.Keys && forall k :: k in records ==> Holds(k)
    }

    ghost predicate Holds(k: Key)
      requires k in records && k in contents
      reads this, records.Values
    {
      records[k].key == k && records[k].View() == contents[k]
    }

    lemma KeyedContents()
      requires Valid()
      ensures Keyed(contents)
    {
      forall k | k in contents ensures contents[k].key == k {
        assert Holds(k);
      }
    }

    /** Each record is the one that was there before, or new. */
    twostate predicate Extends(before: map<Key, UsageRecord>)
      reads this
    {
      forall k :: k in records ==> (k in before && records[k] == before[k]) || fresh(records[k])
    }

    constructor (bucket: Bucket)
      ensures Valid() && records == map[] && contents == map[] && this.bucket == bucket
    {
      this.bucket, records, contents := bucket, map[], map[];
    }

    method Provision(key: Key, tag: string, now: int)
      requires Valid()
      modifies this
      ensures Valid()
      ensures contents == old(contents + if key in contents then map[] else map[key := Provisioned(key, tag, now)])
      ensures Extends(old(records))
    {
      if key !in records {
        var r := new UsageRecord(key, tag, now);
        Add(r);
      }
    }

    /** A record enters the map. */
    method Add(r: UsageRecord)
      requires Valid() && r !in records.Values
      modifies this
      ensures Valid() && contents == old(contents)[r.key := r.View()] && records == old(records)[r.key := r]
    {
      records, contents := records[r.key := r], contents[r.key := r.View()];
      forall k | k in records ensures Holds(k) {
        if k != r.key { assert old(Holds(k)); }
      }
    }

    /** onUpdate, PersistKey: the record's snapshot replaces its entry. */
    method Persist(key: Key)
      requires Valid() && key in records
      modifies bucket
      ensures bucket.entries == old(bucket.entries)[key := TakeSnapshot(contents[key])]
    {
      assert Holds(key);
      var s := records[key].Snapshot();
      bucket.entries := bucket.entries[s.key := s];
    }

    method Vend(key: Key, tag: string, now: int, ttl: int, scopes: Option<Scopes>)
      requires Valid() && key !in records
      modifies this, bucket
      ensures Valid() && contents == old(contents)[key := Vended(key, tag, now, ttl, scopes)]
      ensures bucket.entries == old(bucket.entries)[key := TakeSnapshot(contents[key])]
      ensures key in records && fresh(records[key]) && records == old(records)[key := records[key]]
    {
      var r := new UsageRecord(key, tag, now);
      if ttl > 0 {
        r.expiresAt := now + ttl;
      }
      r.scopes := scopes;
      Add(r);
      Persist(key);
    }

    /** The fields a lifecycle call changes on one record, and nothing else. */
    method Change(key: Key, op: Persistence.Op)
      requires Valid() && key in records
      modifies this`contents, records[key]
      ensures Valid() && contents == old(contents)[key := Persistence.ApplyOp(old(contents)[key], op)]
    {
      var r := records[key];
      assert Holds(key);
      match op {
        case RevokeAt(now) =>
          if r.revokedAt == 0 {
            r.revokedAt := now;
          }
        case ExpireAt(at) =>
          r.expiresAt := at;
        case ScopeTo(sc) =>
          r.scopes := sc;
      }
      contents := contents[key := r.View()];
      Others(key);
    }

    /** Changing one record leaves the others as they were. */
    twostate lemma Others(key: Key)
      requires old(Valid()) && records == old(records) && key in records && contents.Keys == old(contents).Keys
      requires forall k :: k in contents && k != key ==> contents[k] == old(contents)[k]
      requires forall r :: r in old(records).Values && r != records[key] ==> r.View() == old(r.View())
      requires Holds(key)
      ensures Valid()
    {
      forall k | k in records ensures Holds(k) {
        if k != key { assert old(Holds(k)) && old(Holds(key)); }
      }
    }

    /** A known record is changed and, unless a compare-and-swap failed, persisted. */
    method Apply(key: Key, op: Persistence.Op)
      requires Valid() && key in records
      modifies this`contents, records[key], bucket
      ensures Valid() && contents == old(contents)[key := Persistence.ApplyOp(old(contents)[key], op)]
      ensures bucket.entries == if Persistence.SwapFails(old(contents)[key], op) then old(bucket.entries)
        else old(bucket.entries)[key := TakeSnapshot(contents[key])]
    {
      assert Holds(key);
      var swapFails := op.RevokeAt? && records[key].revokedAt != 0;
      Change(key, op);
      if !swapFails {
        Persist(key);
      }
    }

    /** Revoke, SetExpiry and UpdateScopes: ok is false for an unknown key. */
    method Update(key: Key, op: Persistence.Op) returns (ok: bool)
      requires Valid()
      modifies this`contents, records.Values, bucket
      ensures Valid() && ok == (key in old(contents))
      ensures ok ==> contents == old(contents)[key := Persistence.ApplyOp(old(contents)[key], op)]
      ensures !ok ==> contents == old(contents)
      ensures bucket.entries == if ok && !Persistence.SwapFails(old(contents)[key], op)
        then old(bucket.entries)[key := TakeSnapshot(contents[key])] else old(bucket.entries)
    {
      ok := key in records;
      if ok {
        Apply(key, op);
      }
    }

    /** The first half of Rotate: a key that carries on the old one's label, remaining life and scopes. */
    method VendReplacement(key: Key, newKey: Key, tag: string, now: int)
      requires Valid() && key in records && newKey !in records
      modifies this, bucket
      ensures Valid()
      ensures contents == old(contents)[newKey := Persistence.Replacement(old(contents)[key], newKey, tag, now)]
      ensures bucket.entries == old(bucket.entries)[newKey := TakeSnapshot(contents[newKey])]
      ensures newKey in records && fresh(records[newKey]) && records == old(records)[newKey := records[newKey]]
    {
      assert Holds(key);
      var r := records[key];
      var ttl := if r.expiresAt != 0 && r.expiresAt - now > 0 then r.expiresAt - now else 0;
      Vend(newKey, if tag != "" then tag else r.tag, now, ttl, r.scopes);
    }

    /** Rotate of a known key: the replacement is vended first, then the old key is revoked. */
    method RotateKnown(key: Key, newKey: Key, tag: string, now: int)
      requires Valid() && key in records && newKey !in records
      modifies this, records[key], bucket
      ensures Valid() && contents == RotatedContents(old(contents), key, newKey, tag, now)
      ensures bucket.entries == RotatedEntries(old(bucket.entries), old(contents), contents, key, newKey)
      ensures newKey in records && fresh(records[newKey]) && records == old(records)[newKey := records[newKey]]
    {
      VendReplacement(key, newKey, tag, now);
      ghost var vended := contents;
      Apply(key, Persistence.RevokeAt(now));
      RotatedInTwo(old(contents), vended, old(bucket.entries), key, newKey, tag, now);
    }

    /** Rotate: ok is false for an unknown key. */
    method Rotate(key: Key, newKey: Key, tag: string, now: int) returns (ok: bool)
      requires Valid() && newKey !in records
      modifies this, records.Values, bucket
      ensures Valid() && ok == (key in old(contents))
      ensures !ok ==> contents == old(contents) && bucket.entries == old(bucket.entries)
      ensures ok ==> contents == RotatedContents(old(contents), key, newKey, tag, now)
      ensures ok ==> bucket.entries == RotatedEntries(old(bucket.entries), old(contents), contents, key, newKey)
      ensures Extends(old(records))
    {
      ok := key in records;
      if ok {
        RotateKnown(key, newKey, tag, now);
      }
    }

    method Delete(key: Key) returns (ok: bool)
      requires Valid()
      modifies this, bucket
      ensures Valid() && ok == (key in old(contents))
      ensures contents == old(contents) - {key}
      ensures bucket.entries == if ok then old(bucket.entries) - {key} else old(bucket.entries)
      ensures Extends(old(records))
    {
      ok := key in records;
      if ok {
        records, contents := records - {key}, contents - {key};
        forall k | k in records ensures Holds(k) {
          assert old(Holds(k));
        }
        bucket.entries := bucket.entries - {key};
      }
    }

    method RecordRequest(key: Key, model: string, stream: bool, prompt: int, completion: int, now: int)
      requires Valid()
      modifies this`contents, records.Values
      ensures Valid()
      ensures contents == if key in old(contents)
        then old(contents)[key := Counted(old(contents)[key], model, stream, prompt, completion, now)]
        else old(contents)
    {
      if key !in records {
        return;
      }
      assert Holds(key);
      var r := records[key];
      r.Count(model, stream, prompt, completion, now);
      contents := contents[key := r.View()];
      Others(key);
    }

    /** Restore: a new record, or the counters merged into an existing one. */
    method Restore(s: AppKey.Snapshot)
      requires Valid()
      modifies this, records.Values
      ensures Valid()
      ensures contents == old(contents)[s.key :=
        if s.key in old(contents) then RestoredOver(old(contents)[s.key], s) else Restored(s)]
      ensures Extends(old(records))
    {
      if s.key in records {
        assert Holds(s.key);
        var r := records[s.key];
        r.Absorb(s);
        contents := contents[s.key := r.View()];
        Others(s.key);
      } else {
        var r := new UsageRecord(s.key, s.tag, s.createdAt);
        r.Absorb(s);
        Add(r);
      }
    }

    /** List: a snapshot of every record. */
    method List() returns (snaps: map<Key, AppKey.Snapshot>)
      requires Valid()
      ensures snaps == Snapshots(contents)
    {
      snaps := map[];
      var todo := records.Keys;
      while todo != {}
        invariant todo <= records.Keys && snaps.Keys == records.Keys - todo
        invariant forall k :: k in snaps ==> snaps[k] == TakeSnapshot(contents[k])
      {
        var k :| k in todo;
        assert Holds(k);
        var s := records[k].Snapshot();
        snaps := snaps[s.key := s];
        todo := todo - {k};
      }
    }

    /** flush, and all of Close that touches the bucket: every record's snapshot is put, in one transaction. */
    method Flush()
      requires Valid()
      modifies bucket
      ensures bucket.entries == old(bucket.entries) + Snapshots(contents)
    {
      var snaps := List();
      bucket.entries := bucket.entries + snaps;
    }

    /** One entry of the bucket, once the done ones are loaded over what the store held. */
    method LoadEntry(k: Key, ghost held: map<Key, Record>, ghost done: set<Key>)
      requires Valid() && k in bucket.entries && k !in done && bucket.entries[k].key == k
      requires contents == LoadOver(held, Only(bucket.entries, done))
      modifies this, records.Values
      ensures Valid() && contents == LoadOver(held, Only(bucket.entries, done + {k}))
      ensures Extends(old(records))
    {
      LoadOneMore(held, bucket.entries, done, k);
      Restore(bucket.entries[k]);
    }

    /** loadAll: every entry of an uncorrupted bucket is restored. */
    method LoadAll()
      requires Valid() && forall k :: k in bucket.entries ==> bucket.entries[k].key == k
      modifies this, records.Values
      ensures Valid() && contents == LoadOver(old(contents), bucket.entries)
      ensures Extends(old(records))
    {
      var todo := bucket.entries.Keys;
      ghost var done := {};
      LoadEnds(contents, bucket.entries);
      while todo != {}
        invariant Valid() && todo <= bucket.entries.Keys && done == bucket.entries.Keys - todo
        invariant Extends(old(records))
        invariant contents == LoadOver(old(contents), Only(bucket.entries, done))
      {
        var k :| k in todo;
        LoadEntry(k, old(contents), done);
        todo, done := todo - {k}, done + {k};
      }
      assert done == bucket.entries.Keys;
    }
  }

  function Snapshots(contents: map<Key, Record>): map<Key, AppKey.Snapshot> {
    map k | k in contents :: TakeSnapshot(contents[k])
  }

  ghost function Only(entries: map<Key, AppKey.Snapshot>, keys: set<Key>): map<Key, AppKey.Snapshot> {
    map k | k in entries && k in keys :: entries[k]
  }

  /** Nothing loaded, and everything. */
  lemma LoadEnds(c: map<Key, Record>, entries: map<Key, AppKey.Snapshot>)
    ensures LoadOver(c, Only(entries, {})) == c && Only(entries, entries.Keys) == entries
  {
  }

  lemma LoadOneMore(c: map<Key, Record>, entries: map<Key, AppKey.Snapshot>, done: set<Key>, k: Key)
    requires k in entries && k !in done && entries[k].key == k
    ensures var before := LoadOver(c, Only(entries, done));
      LoadOver(c, Only(entries, done + {k}))
      == before[k := if k in before then RestoredOver(before[k], entries[k]) else Restored(entries[k])]
  {
  }

  ghost predicate Keyed(contents: map<Key, Record>) {
    forall k :: k in contents ==> contents[k].key == k
  }

  lemma FlushedKeys(contents: map<Key, Record>, entries: map<Key, AppKey.Snapshot>)
    requires entries.Keys <= contents.Keys && Keyed(contents)
    ensures var flushed := entries + Snapshots(contents);
      flushed == Snapshots(contents) && forall k :: k in flushed ==> flushed[k].key == k
  {
  }

  lemma FlushedLoads(contents: map<Key, Record>, entries: map<Key, AppKey.Snapshot>)
    requires entries.Keys <= contents.Keys
    ensures LoadOver(map[], entries + Snapshots(contents)) == contents
  {
    forall k | k in contents ensures Restored(TakeSnapshot(contents[k])) == contents[k] {
      SnapshotRoundTrip(contents[k]);
    }
  }

  /** NewPersister: a new store takes over the bucket. */
  method Reopen(bucket: Bucket) returns (store: Store)
    requires forall k :: k in bucket.entries ==> bucket.entries[k].key == k
    ensures store.Valid() && fresh(store) && store.bucket == bucket && store.contents == LoadOver(map[], bucket.entries)
    ensures forall k :: k in store.records ==> fresh(store.records[k])
  {
    store := new Store(bucket);
    store.LoadAll();
  }

  /**
   A store whose bucket holds no key it does not have, flushed and loaded into an empty
   store, gives that store back.
   */
  method CloseAndReopen(store: Store) returns (reopened: Store)
    requires store.Valid() && store.bucket.entries.Keys <= store.contents.Keys
    modifies store.bucket
    ensures reopened.Valid() && fresh(reopened) && reopened.contents == store.contents
    ensures reopened.bucket == store.bucket && store.bucket.entries == Snapshots(store.contents)
    ensures forall k :: k in reopened.records ==> fresh(reopened.records[k])
  {
    FlushedLoads(store.contents, store.bucket.entries);
    store.KeyedContents();
    FlushedKeys(store.contents, store.bucket.entries);
    store.Flush();
    reopened := Reopen(store.bucket);
  }
}
