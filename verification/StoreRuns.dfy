/**
 Any sequence of store operations, one call at a time, with flushes and restarts anywhere in
 it: restarts cannot be told from the contents, and the counters add up.
 */
module StoreRuns {
  import opened Common
  import opened AppKey
  import opened AppKeyStore
  import CloseAndLoad
  import Persistence
  import TornSnapshot

  datatype Op =
    | Provision(key: Key, tag: string, now: int)
    | Vend(key: Key, tag: string, now: int, ttl: int, scopes: Option<Scopes>)
    | Update(key: Key, change: Persistence.Op)
    | Rotate(key: Key, newKey: Key, tag: string, now: int)
    | Delete(key: Key)
    | Request(key: Key, model: string, stream: bool, prompt: int, completion: int, now: int)
    | Flush
    | Restart

  type Contents = map<Key, Record>

  ghost function Applied(c: Contents, op: Op): Contents {
    match op
    case Provision(key, tag, now) => if key in c then c else c[key := Provisioned(key, tag, now)]
    case Vend(key, tag, now, ttl, scopes) => c[key := Vended(key, tag, now, ttl, scopes)]
    case Update(key, change) => if key in c then c[key := Persistence.ApplyOp(c[key], change)] else c
    case Rotate(key, newKey, tag, now) => if key in c then RotatedContents(c, key, newKey, tag, now) else c
    case Delete(key) => c - {key}
    case Request(key, model, stream, prompt, completion, now) =>
      if key in c then c[key := Counted(c[key], model, stream, prompt, completion, now)] else c
    case Flush => c
    case Restart => c
  }

  ghost function After(ops: seq<Op>): Contents {
    if ops == [] then map[] else Applied(After(ops[..|ops| - 1]), ops[|ops| - 1])
  }

  /** A key drawn by Vend or Rotate is not in use. */
  ghost predicate DrawsUnused(c: Contents, op: Op) {
    (op.Vend? ==> op.key !in c) && (op.Rotate? ==> op.newKey !in c)
  }

  ghost predicate Possible(ops: seq<Op>) {
    forall i :: 0 <= i < |ops| ==> DrawsUnused(After(ops[..i]), ops[i])
  }

  // ----- The store as written goes through any run -----

  /** A snapshot shows the record's label, times and scopes; its counters may be behind. */
  ghost predicate Lifecycle(s: AppKey.Snapshot, r: Record) {
    && s.key == r.key && s.tag == r.tag && s.createdAt == r.createdAt && s.scopes == r.scopes
    && s.expiresAt == Present(r.expiresAt) && s.revokedAt == Present(r.revokedAt)
  }

  /** The bucket holds no key that the store does not, and is up to date on what lifecycle calls did to the rest. */
  ghost predicate Current(c: Contents, entries: map<Key, AppKey.Snapshot>) {
    entries.Keys <= c.Keys && forall k :: k in entries ==> Lifecycle(entries[k], c[k])
  }

  ghost predicate Contained(store: Store)
    reads store, store.bucket
  {
    Current(store.contents, store.bucket.entries)
  }

  lemma CurrentWritten(c: Contents, entries: map<Key, AppKey.Snapshot>, k: Key, r: Record)
    requires Current(c, entries)
    ensures Current(c[k := r], entries[k := TakeSnapshot(r)])
  {
  }

  lemma CurrentCounted(c: Contents, entries: map<Key, AppKey.Snapshot>, k: Key, u: Usage)
    requires Current(c, entries) && k in c
    ensures Current(c[k := c[k].(usage := u)], entries)
  {
  }

  lemma CurrentAdded(c: Contents, entries: map<Key, AppKey.Snapshot>, k: Key, r: Record)
    requires Current(c, entries) && k !in c
    ensures Current(c[k := r], entries)
  {
  }

  lemma CurrentFlushed(c: Contents, entries: map<Key, AppKey.Snapshot>)
    requires Current(c, entries)
    ensures Current(c, entries + Snapshots(c))
  {
  }

  method Provide(store: Store, key: Key, tag: string, now: int)
    requires store.Valid() && Contained(store)
    modifies store, store.records.Values, store.bucket
    ensures store.Valid() && Contained(store) && store.Extends(old(store.records))
    ensures store.contents == Applied(old(store.contents), Provision(key, tag, now))
  {
    ghost var c, r := store.contents, Provisioned(key, tag, now);
    store.Provision(key, tag, now);
    if key in c {
      assert c + map[] == c;
    } else {
      assert c + map[key := r] == c[key := r];
      CurrentAdded(c, store.bucket.entries, key, r);
    }
  }

  method Issue(store: Store, key: Key, tag: string, now: int, ttl: int, scopes: Option<Scopes>)
    requires store.Valid() && Contained(store) && key !in store.contents
    modifies store, store.records.Values, store.bucket
    ensures store.Valid() && Contained(store) && store.Extends(old(store.records))
    ensures store.contents == Applied(old(store.contents), Vend(key, tag, now, ttl, scopes))
    ensures key in store.bucket.entries
  {
    CurrentWritten(store.contents, store.bucket.entries, key, Vended(key, tag, now, ttl, scopes));
    store.Vend(key, tag, now, ttl, scopes);
  }

  method Replace(store: Store, key: Key, newKey: Key, tag: string, now: int)
    requires store.Valid() && Contained(store) && newKey !in store.contents
    modifies store, store.records.Values, store.bucket
    ensures store.Valid() && Contained(store) && store.Extends(old(store.records))
    ensures store.contents == Applied(old(store.contents), Rotate(key, newKey, tag, now))
    ensures key in old(store.contents) ==> newKey in store.bucket.entries
  {
    var ok := store.Rotate(key, newKey, tag, now);
    if ok {
      RotatedCurrent(old(store.contents), old(store.bucket.entries), key, newKey, tag, now);
    }
  }

  lemma RotatedCurrent(c: Contents, entries: map<Key, AppKey.Snapshot>, key: Key, newKey: Key, tag: string, now: int)
    requires key in c && newKey !in c && Current(c, entries)
    ensures var c' := RotatedContents(c, key, newKey, tag, now);
      var e' := RotatedEntries(entries, c, c', key, newKey);
      Current(c', e') && newKey in e'
  {
    var fresh' := Persistence.Replacement(c[key], newKey, tag, now);
    var revoked := Persistence.ApplyOp(c[key], Persistence.RevokeAt(now));
    CurrentWritten(c, entries, newKey, fresh');
    CurrentWritten(c[newKey := fresh'], entries[newKey := TakeSnapshot(fresh')], key, revoked);
  }

  method Amend(store: Store, key: Key, change: Persistence.Op)
    requires store.Valid() && Contained(store)
    modifies store, store.records.Values, store.bucket
    ensures store.Valid() && Contained(store) && store.Extends(old(store.records))
    ensures store.contents == Applied(old(store.contents), Update(key, change))
    ensures store.contents != old(store.contents) ==> key in store.bucket.entries
  {
    if key in store.records {
      CurrentWritten(store.contents, store.bucket.entries, key, Persistence.ApplyOp(store.contents[key], change));
    }
    var _ := store.Update(key, change);
  }

  method Remove(store: Store, key: Key)
    requires store.Valid() && Contained(store)
    modifies store, store.records.Values, store.bucket
    ensures store.Valid() && Contained(store) && store.Extends(old(store.records))
    ensures store.contents == Applied(old(store.contents), Delete(key)) && key !in store.bucket.entries
  {
    var _ := store.Delete(key);
  }

  method Tally(store: Store, op: Op)
    requires store.Valid() && Contained(store) && op.Request?
    modifies store, store.records.Values, store.bucket
    ensures store.Valid() && Contained(store) && store.Extends(old(store.records))
    ensures store.contents == Applied(old(store.contents), op)
  {
    if op.key in store.records {
      ghost var counted := Counted(store.contents[op.key], op.model, op.stream, op.prompt, op.completion, op.now);
      CurrentCounted(store.contents, store.bucket.entries, op.key, counted.usage);
    }
    store.RecordRequest(op.key, op.model, op.stream, op.prompt, op.completion, op.now);
  }

  method Save(store: Store)
    requires store.Valid() && Contained(store)
    modifies store.bucket
    ensures store.Valid() && Contained(store)
  {
    CurrentFlushed(store.contents, store.bucket.entries);
    store.Flush();
  }

  /**
   A call other than a restart does to the contents what it says, and leaves the bucket without
   foreign keys and up to date on labels, times and scopes.
   */
  method Do(store: Store, op: Op)
    requires store.Valid() && Contained(store) && DrawsUnused(store.contents, op) && !op.Restart?
    modifies store, store.records.Values, store.bucket
    ensures store.Valid() && Contained(store) && store.Extends(old(store.records))
    ensures store.contents == Applied(old(store.contents), op)
  {
    match op {
      case Provision(key, tag, now) => Provide(store, key, tag, now);
      case Vend(key, tag, now, ttl, scopes) => Issue(store, key, tag, now, ttl, scopes);
      case Update(key, change) => Amend(store, key, change);
      case Rotate(key, newKey, tag, now) => Replace(store, key, newKey, tag, now);
      case Delete(key) => Remove(store, key);
      case Request(_, _, _, _, _, _) => Tally(store, op);
      case Flush => Save(store);
    }
  }

  /** Closing and reopening changes nothing that can be seen. */
  method Bounce(store: Store) returns (next: Store)
    requires store.Valid() && Contained(store)
    modifies store.bucket
    ensures next.Valid() && Contained(next) && next.contents == store.contents
    ensures fresh(next) && next.bucket == store.bucket && forall k :: k in next.records ==> fresh(next.records[k])
  {
    next := CloseAndReopen(store);
    CurrentSnapshots(store.contents);
  }

  lemma CurrentSnapshots(c: Contents)
    ensures Current(c, Snapshots(c))
  {
  }

  /** A crash loses unflushed counts and keys never written, but nothing that lifecycle calls did to the rest. */
  method CrashAndReopen(store: Store) returns (reopened: Store)
    requires store.Valid() && Contained(store)
    ensures reopened.Valid() && fresh(reopened) && reopened.contents.Keys == store.bucket.entries.Keys
    ensures forall k :: k in reopened.contents ==>
      reopened.contents[k] == store.contents[k].(usage := reopened.contents[k].usage)
  {
    store.KeyedContents();
    LifecycleLoads(store.contents, store.bucket.entries);
    reopened := Reopen(store.bucket);
  }

  lemma LifecycleLoads(c: Contents, entries: map<Key, AppKey.Snapshot>)
    requires Keyed(c) && Current(c, entries)
    ensures forall k :: k in entries ==> entries[k].key == k
    ensures var loaded := CloseAndLoad.LoadOver(map[], entries);
      loaded.Keys == entries.Keys && forall k :: k in loaded ==> loaded[k] == c[k].(usage := loaded[k].usage)
  {
  }

  /** What List shows at the end of any run, restarts included, is what the calls alone amount to. */
  method Live(ops: seq<Op>) returns (listed: map<Key, AppKey.Snapshot>)
    requires Possible(ops)
    ensures listed == Snapshots(After(ops))
  {
    var bucket := new Bucket();
    var store := new Store(bucket);
    for n := 0 to |ops|
      invariant fresh(store) && fresh(store.bucket) && store.Valid() && Contained(store)
      invariant forall k :: k in store.records ==> fresh(store.records[k])
      invariant store.contents == After(ops[..n])
    {
      assert ops[..n + 1][..n] == ops[..n];
      if ops[n].Restart? {
        store := Bounce(store);
      } else {
        Do(store, ops[n]);
      }
    }
    assert ops[..|ops|] == ops;
    listed := store.List();
  }

  // ----- The counters add up -----

  ghost function RequestCounts(models: map<string, ModelUsage>): map<string, nat>
    requires forall m :: m in models ==> models[m].requests >= 0
  {
    map m | m in models :: models[m].requests
  }

  /** The parts make up the total, and the models come to no more than it. */
  ghost predicate Tallied(u: Usage) {
    && u.stream + u.nonStream == u.total
    && (forall m :: m in u.models ==> u.models[m].requests >= 0)
    && TornSnapshot.Sum(RequestCounts(u.models)) <= u.total
  }

  lemma CountedKeepsTally(r: Record, model: string, stream: bool, prompt: int, completion: int, now: int)
    requires Tallied(r.usage)
    ensures Tallied(Counted(r, model, stream, prompt, completion, now).usage)
  {
    var u, u' := r.usage, Counted(r, model, stream, prompt, completion, now).usage;
    if model != "" {
      var counts := RequestCounts(u.models);
      var n := if model in counts then counts[model] else 0;
      assert RequestCounts(u'.models) == counts[model := n + 1];
      TornSnapshot.SumUpdate(counts, model, n + 1);
    }
  }

  ghost predicate AllTallied(c: Contents) {
    forall k :: k in c ==> Tallied(c[k].usage)
  }

  lemma AppliedKeepsTally(c: Contents, op: Op)
    requires AllTallied(c)
    ensures AllTallied(Applied(c, op))
  {
    assert RequestCounts(NO_USAGE.models) == map[];
    if op.Request? && op.key in c {
      CountedKeepsTally(c[op.key], op.model, op.stream, op.prompt, op.completion, op.now);
    }
  }

  /** In every run every record's counters add up. */
  lemma {:induction false} CountersAddUp(ops: seq<Op>)
    ensures AllTallied(After(ops))
  {
    if ops != [] {
      CountersAddUp(ops[..|ops| - 1]);
      AppliedKeepsTally(After(ops[..|ops| - 1]), ops[|ops| - 1]);
    }
  }

  // ----- What List shows of a run -----

  /** The requests made with a key since it last came into being, in order. */
  ghost function RequestsWith(ops: seq<Op>, k: Key): (reqs: seq<Op>)
    ensures forall i :: 0 <= i < |reqs| ==> reqs[i].Request?
  {
    if ops == [] then []
    else
      var before, op := ops[..|ops| - 1], ops[|ops| - 1];
      if k !in After(before) then []
      else RequestsWith(before, k) + if op.Request? && op.key == k then [op] else []
  }

  predicate AllRequests(reqs: seq<Op>) {
    forall i :: 0 <= i < |reqs| ==> reqs[i].Request?
  }

  /** How many of the requests were streamed, or were not. */
  ghost function Streamed(reqs: seq<Op>, stream: bool): nat
    requires AllRequests(reqs)
  {
    if reqs == [] then 0
    else Streamed(reqs[..|reqs| - 1], stream) + if reqs[|reqs| - 1].stream == stream then 1 else 0
  }

  ghost function Naming(reqs: seq<Op>, model: string): nat
    requires AllRequests(reqs)
  {
    if reqs == [] then 0 else Naming(reqs[..|reqs| - 1], model) + if reqs[|reqs| - 1].model == model then 1 else 0
  }

  function Positive(n: int): nat {
    if n > 0 then n else 0
  }

  /** The prompt tokens of the requests naming a model; counts that are not positive are left out. */
  ghost function PromptTokens(reqs: seq<Op>, model: string): nat
    requires AllRequests(reqs)
  {
    if reqs == [] then 0
    else
      var last := reqs[|reqs| - 1];
      PromptTokens(reqs[..|reqs| - 1], model) + if last.model == model then Positive(last.prompt) else 0
  }

  ghost function CompletionTokens(reqs: seq<Op>, model: string): nat
    requires AllRequests(reqs)
  {
    if reqs == [] then 0
    else
      var last := reqs[|reqs| - 1];
      CompletionTokens(reqs[..|reqs| - 1], model) + if last.model == model then Positive(last.completion) else 0
  }

  /** The counters are those of the requests. */
  ghost predicate Tells(u: Usage, reqs: seq<Op>)
    requires AllRequests(reqs)
  {
    && u.total == |reqs| && u.stream == Streamed(reqs, true) && u.nonStream == Streamed(reqs, false)
    && u.lastAccessedAt == (if reqs == [] then 0 else reqs[|reqs| - 1].now)
    && (forall m :: m in u.models <==> m != "" && Naming(reqs, m) > 0)
    && (forall m :: m in u.models ==> TellsModel(u.models[m], reqs, m))
  }

  ghost predicate TellsModel(m: ModelUsage, reqs: seq<Op>, model: string)
    requires AllRequests(reqs)
  {
    m == ModelUsage(Naming(reqs, model), PromptTokens(reqs, model), CompletionTokens(reqs, model))
  }

  /** A model no request names has no tokens. */
  lemma {:induction false} NotNamed(reqs: seq<Op>, model: string)
    requires AllRequests(reqs) && Naming(reqs, model) == 0
    ensures PromptTokens(reqs, model) == 0 && CompletionTokens(reqs, model) == 0
    decreases |reqs|
  {
    if reqs != [] { NotNamed(reqs[..|reqs| - 1], model); }
  }

  lemma OneMore(reqs: seq<Op>, op: Op, model: string)
    requires AllRequests(reqs) && op.Request?
    ensures var all := reqs + [op];
      && Naming(all, model) == Naming(reqs, model) + (if op.model == model then 1 else 0)
      && PromptTokens(all, model) == PromptTokens(reqs, model) + (if op.model == model then Positive(op.prompt) else 0)
      && CompletionTokens(all, model)
         == CompletionTokens(reqs, model) + (if op.model == model then Positive(op.completion) else 0)
  {
    assert (reqs + [op])[..|reqs|] == reqs;
  }

  lemma OneMorePart(reqs: seq<Op>, op: Op, stream: bool)
    requires AllRequests(reqs) && op.Request?
    ensures Streamed(reqs + [op], stream) == Streamed(reqs, stream) + if op.stream == stream then 1 else 0
  {
    assert (reqs + [op])[..|reqs|] == reqs;
  }

  lemma CountedModels(r: Record, reqs: seq<Op>, op: Op, m: string)
    requires AllRequests(reqs) && op.Request? && Tells(r.usage, reqs)
    ensures var u := Counted(r, op.model, op.stream, op.prompt, op.completion, op.now).usage;
      && (m in u.models <==> m != "" && Naming(reqs + [op], m) > 0)
      && (m in u.models ==> TellsModel(u.models[m], reqs + [op], m))
  {
    OneMore(reqs, op, m);
    if m !in r.usage.models && m != "" { NotNamed(reqs, m); }
  }

  /** One more request counts once, where it belongs. */
  lemma CountedTells(r: Record, reqs: seq<Op>, op: Op)
    requires AllRequests(reqs) && op.Request? && Tells(r.usage, reqs)
    ensures Tells(Counted(r, op.model, op.stream, op.prompt, op.completion, op.now).usage, reqs + [op])
  {
    OneMorePart(reqs, op, true);
    OneMorePart(reqs, op, false);
    forall m { CountedModels(r, reqs, op, m); }
  }

  /** One call: a key's usage starts empty, moves with its own requests, and with nothing else. */
  lemma AppliedUsage(c: Contents, op: Op, k: Key)
    requires DrawsUnused(c, op) && k in Applied(c, op)
    ensures Applied(c, op)[k].usage ==
      if k !in c then NO_USAGE
      else if op.Request? && op.key == k then
        Counted(c[k], op.model, op.stream, op.prompt, op.completion, op.now).usage
      else c[k].usage
  {
  }

  lemma PossibleBefore(ops: seq<Op>)
    requires Possible(ops) && ops != []
    ensures Possible(ops[..|ops| - 1]) && DrawsUnused(After(ops[..|ops| - 1]), ops[|ops| - 1])
  {
    var before := ops[..|ops| - 1];
    forall i | 0 <= i < |before| ensures DrawsUnused(After(before[..i]), before[i]) {
      assert before[..i] == ops[..i] && DrawsUnused(After(ops[..i]), ops[i]);
    }
  }

  lemma {:induction false} UsageIsRequests(ops: seq<Op>, k: Key)
    requires Possible(ops) && k in After(ops)
    ensures Tells(After(ops)[k].usage, RequestsWith(ops, k))
    decreases |ops|
  {
    var before, op := ops[..|ops| - 1], ops[|ops| - 1];
    PossibleBefore(ops);
    AppliedUsage(After(before), op, k);
    if k in After(before) {
      UsageIsRequests(before, k);
      var reqs := RequestsWith(before, k);
      if op.Request? && op.key == k {
        CountedTells(After(before)[k], reqs, op);
      } else {
        assert reqs + [] == reqs;
      }
    }
  }

  /**
   No request is lost, counted twice or counted in the wrong place. What List shows of a key at the
   end of any run, restarts included, is the number of requests made with it since it came into
   being, how many of them were streamed and how many not, the time of the last, and for each
   model named the number of requests and the sums of their positive token counts.
   */
  lemma ListTellsRequests(ops: seq<Op>, k: Key)
    requires Possible(ops) && k in After(ops)
    ensures var s, reqs := Snapshots(After(ops))[k], RequestsWith(ops, k);
      && s.total == |reqs| && s.stream == Streamed(reqs, true) && s.nonStream == Streamed(reqs, false)
      && (reqs == [] ==> s.lastAccessedAt == None)
      && (reqs != [] && reqs[|reqs| - 1].now != 0 ==> s.lastAccessedAt == Some(reqs[|reqs| - 1].now))
      && (forall m :: m in s.models <==> m != "" && Naming(reqs, m) > 0)
      && (forall m :: m in s.models ==>
           s.models[m] == ModelUsage(Naming(reqs, m), PromptTokens(reqs, m), CompletionTokens(reqs, m)))
  {
    UsageIsRequests(ops, k);
    forall m | m in After(ops)[k].usage.models
      ensures TellsModel(After(ops)[k].usage.models[m], RequestsWith(ops, k), m)
    {
    }
  }

  // ----- What List shows of lifecycle calls -----

  /** The call sets the expiry of k, its scopes, or neither; a removal ends both. */
  predicate SetsExpiry(op: Op, k: Key) {
    (op.Update? && op.key == k && op.change.ExpireAt?) || op == Delete(k)
  }

  predicate SetsScopes(op: Op, k: Key) {
    (op.Update? && op.key == k && op.change.ScopeTo?) || op == Delete(k)
  }

  lemma AppliedKeeps(c: Contents, op: Op, k: Key)
    requires DrawsUnused(c, op) && k in c && op != Delete(k)
    ensures k in Applied(c, op) && Applied(c, op)[k].tag == c[k].tag && Applied(c, op)[k].createdAt == c[k].createdAt
    ensures !SetsExpiry(op, k) ==> Applied(c, op)[k].expiresAt == c[k].expiresAt
    ensures !SetsScopes(op, k) ==> Applied(c, op)[k].scopes == c[k].scopes
    ensures c[k].revokedAt != 0 ==> Applied(c, op)[k].revokedAt == c[k].revokedAt
  {
  }

  lemma {:induction false} Kept(ops: seq<Op>, i: nat, k: Key)
    requires Possible(ops) && i <= |ops| && k in After(ops[..i]) && forall j :: i <= j < |ops| ==> ops[j] != Delete(k)
    ensures k in After(ops)
    ensures After(ops)[k].tag == After(ops[..i])[k].tag && After(ops)[k].createdAt == After(ops[..i])[k].createdAt
    ensures (forall j :: i <= j < |ops| ==> !SetsExpiry(ops[j], k)) ==>
      After(ops)[k].expiresAt == After(ops[..i])[k].expiresAt
    ensures (forall j :: i <= j < |ops| ==> !SetsScopes(ops[j], k)) ==>
      After(ops)[k].scopes == After(ops[..i])[k].scopes
    ensures After(ops[..i])[k].revokedAt != 0 ==> After(ops)[k].revokedAt == After(ops[..i])[k].revokedAt
    decreases |ops|
  {
    if i == |ops| {
      assert ops[..i] == ops;
    } else {
      var before := ops[..|ops| - 1];
      PossibleBefore(ops);
      assert before[..i] == ops[..i] && forall j :: 0 <= j < |before| ==> before[j] == ops[j];
      Kept(before, i, k);
      AppliedKeeps(After(before), ops[|ops| - 1], k);
    }
  }

  /** After the call at i, and until its key is removed. */
  ghost predicate Since(ops: seq<Op>, i: nat, k: Key) {
    Possible(ops) && i < |ops| && forall j :: i < j < |ops| ==> ops[j] != Delete(k)
  }

  lemma AfterCall(ops: seq<Op>, i: nat)
    requires i < |ops|
    ensures After(ops[..i + 1]) == Applied(After(ops[..i]), ops[i])
  {
    assert ops[..i + 1][..i] == ops[..i];
  }

  /** The expiry last set is the one that List shows. */
  lemma LastExpiryShows(ops: seq<Op>, i: nat, k: Key, at: int)
    requires Since(ops, i, k) && k in After(ops[..i]) && ops[i] == Update(k, Persistence.ExpireAt(at))
    requires forall j :: i < j < |ops| ==> !SetsExpiry(ops[j], k)
    ensures k in After(ops) && Snapshots(After(ops))[k].expiresAt == if at == 0 then None else Some(at)
  {
    AfterCall(ops, i);
    Kept(ops, i + 1, k);
  }

  /** So are the scopes last set. */
  lemma LastScopesShow(ops: seq<Op>, i: nat, k: Key, scopes: Option<Scopes>)
    requires Since(ops, i, k) && k in After(ops[..i]) && ops[i] == Update(k, Persistence.ScopeTo(scopes))
    requires forall j :: i < j < |ops| ==> !SetsScopes(ops[j], k)
    ensures k in After(ops) && Snapshots(After(ops))[k].scopes == scopes
  {
    AfterCall(ops, i);
    Kept(ops, i + 1, k);
  }

  /** The first revocation is the one that List shows, whatever comes after. */
  lemma FirstRevocationShows(ops: seq<Op>, i: nat, k: Key, now: int)
    requires Since(ops, i, k) && k in After(ops[..i]) && ops[i] == Update(k, Persistence.RevokeAt(now)) && now != 0
    ensures k in After(ops)
    ensures var was := Snapshots(After(ops[..i]))[k].revokedAt;
      Snapshots(After(ops))[k].revokedAt == if was.Some? then was else Some(now)
  {
    AfterCall(ops, i);
    Kept(ops, i + 1, k);
  }

  /** A vended key shows its label, its scopes and, for a positive lifetime, when it ends. */
  lemma VendedShows(ops: seq<Op>, i: nat, k: Key, tag: string, now: int, ttl: int, scopes: Option<Scopes>)
    requires Since(ops, i, k) && ops[i] == Vend(k, tag, now, ttl, scopes) && now + ttl != 0
    requires forall j :: i < j < |ops| ==> !SetsExpiry(ops[j], k) && !SetsScopes(ops[j], k)
    ensures k in After(ops)
    ensures var s := Snapshots(After(ops))[k];
      && s.tag == tag && s.createdAt == now && s.scopes == scopes
      && s.expiresAt == if ttl > 0 then Some(now + ttl) else None
  {
    AfterCall(ops, i);
    Kept(ops, i + 1, k);
  }

  /** A key provisioned from config shows its label, and no end or scopes until some are set. */
  lemma ProvisionedShows(ops: seq<Op>, i: nat, k: Key, tag: string, now: int)
    requires Since(ops, i, k) && k !in After(ops[..i]) && ops[i] == Provision(k, tag, now)
    requires forall j :: i < j < |ops| ==> !SetsExpiry(ops[j], k) && !SetsScopes(ops[j], k)
    ensures k in After(ops)
    ensures var s := Snapshots(After(ops))[k];
      s.tag == tag && s.createdAt == now && s.scopes == None && s.expiresAt == None
  {
    AfterCall(ops, i);
    Kept(ops, i + 1, k);
  }

  /** Rotate on records: the old key's end, if still to come, is the new one's. */
  lemma AppliedRotate(c: Contents, k: Key, newKey: Key, tag: string, now: int)
    requires k in c && newKey !in c
    ensures var c' := Applied(c, Rotate(k, newKey, tag, now));
      && newKey in c' && k in c' && (now != 0 ==> c'[k].revokedAt != 0)
      && c'[newKey].scopes == c[k].scopes && c'[newKey].tag == (if tag != "" then tag else c[k].tag)
      && c'[newKey].createdAt == now && c'[newKey].revokedAt == 0
      && c'[newKey].expiresAt == if c[k].expiresAt != 0 && c[k].expiresAt > now then c[k].expiresAt else 0
  {
  }

  /**
   A rotated key shows the scopes of the old one and its label unless another was given; it ends
   exactly when the old one would have, if that was still to come.
   */
  lemma RotatedShows(ops: seq<Op>, i: nat, k: Key, newKey: Key, tag: string, now: int)
    requires Since(ops, i, newKey) && k in After(ops[..i]) && ops[i] == Rotate(k, newKey, tag, now)
    requires forall j :: i < j < |ops| ==> !SetsExpiry(ops[j], newKey) && !SetsScopes(ops[j], newKey)
    ensures newKey in After(ops)
    ensures var was, s := TakeSnapshot(After(ops[..i])[k]), Snapshots(After(ops))[newKey];
      && s.scopes == was.scopes && s.tag == (if tag != "" then tag else was.tag) && s.createdAt == now
      && s.expiresAt == if was.expiresAt.Some? && was.expiresAt.value > now then was.expiresAt else None
  {
    AfterCall(ops, i);
    assert DrawsUnused(After(ops[..i]), ops[i]);
    AppliedRotate(After(ops[..i]), k, newKey, tag, now);
    Kept(ops, i + 1, newKey);
  }

  /** And the old one shows as revoked. */
  lemma RotatedIsRevoked(ops: seq<Op>, i: nat, k: Key, newKey: Key, tag: string, now: int)
    requires Since(ops, i, k) && k in After(ops[..i]) && ops[i] == Rotate(k, newKey, tag, now) && now != 0
    ensures k in After(ops) && Snapshots(After(ops))[k].revokedAt.Some?
  {
    AfterCall(ops, i);
    assert DrawsUnused(After(ops[..i]), ops[i]);
    AppliedRotate(After(ops[..i]), k, newKey, tag, now);
    Kept(ops, i + 1, k);
  }
}
