/**
 internal/cache/key.go: the cache key of a request is the hash of a NUL-framed preimage.
 JSON decoding, compaction and the hash are parameters; that the framing tells any two
 requests apart exactly when the key fields differ is proved.
 */
module CacheKey {
  import opened Common
  import opened JsonText

  const NUL: char := 0 as char

  const CACHE_FIELDS := ["max_tokens", "messages", "model", "stop", "temperature", "top_p"]

  /** What IsCacheable decodes of a body. */
  datatype Partial = Partial(stream: bool, temperature: Option<real>)

  /**
   parse: the top-level members of an object body, raw (none if the body is not one; null has none).
   canon: a raw value compacted with sorted keys, or itself when it does not decode.
   partial: the two fields that decide cacheability, if the body decodes. hash: SHA-256 in hex.
   */
  datatype Codec = Codec(parse: Bytes -> Option<map<string, Bytes>>, canon: Bytes -> Bytes,
                         partial: Bytes -> Option<Partial>, hash: Bytes -> string)
  {
    /** IsCacheable. */
    predicate Cacheable(body: Bytes) {
      match partial(body)
      case None => false
      case Some(p) => !p.stream && !(p.temperature.Some? && p.temperature.value != 0.0)
    }
  }

  ghost predicate NulFree(s: Bytes) {
    forall i :: 0 <= i < |s| ==> s[i] != NUL
  }

  /** The values of a decoded body have NUL-free canonical text; JSON admits no NUL byte outside an escape. */
  ghost predicate CleanValues(c: Codec, m: map<string, Bytes>) {
    forall f :: f in m ==> NulFree(c.canon(m[f]))
  }

  /** What encoding/json and SHA-256 are taken to give. */
  ghost predicate Lawful(c: Codec) {
    && (forall b :: c.parse(b).Some? ==> CleanValues(c, c.parse(b).value))
    && (forall b :: c.Cacheable(b) ==> c.parse(b).Some?)
    && (forall a, b :: c.hash(a) == c.hash(b) ==> a == b)
  }

  // ----- The preimage -----

  function FrameOne(c: Codec, m: map<string, Bytes>, field: string): Bytes {
    if field in m then field + [NUL] + c.canon(m[field]) + [NUL] else []
  }

  function Frame(c: Codec, m: map<string, Bytes>, fields: seq<string>): Bytes {
    if fields == [] then [] else FrameOne(c, m, fields[0]) + Frame(c, m, fields[1..])
  }

  function Preimage(c: Codec, provider: string, body: Bytes): Bytes {
    provider + [NUL] + match c.parse(body)
      case None => body
      case Some(m) => Frame(c, m, CACHE_FIELDS)
  }

  /** DeriveKey: the bytes are fed to the hash piece by piece. */
  method DeriveKey(c: Codec, provider: string, body: Bytes) returns (key: string)
    ensures key == c.hash(Preimage(c, provider, body))
  {
    var fed := provider + [NUL];
    match c.parse(body)
    case None =>
      key := c.hash(fed + body);
    case Some(m) =>
      fed := FeedFields(c, m, CACHE_FIELDS, fed);
      key := c.hash(fed);
  }

  /** The field loop. */
  method FeedFields(c: Codec, m: map<string, Bytes>, fields: seq<string>, start: Bytes) returns (fed: Bytes)
    ensures fed == start + Frame(c, m, fields)
  {
    fed := start;
    assert fields[0..] == fields;
    for i := 0 to |fields|
      invariant fed + Frame(c, m, fields[i..]) == start + Frame(c, m, fields)
    {
      var f := fields[i];
      ghost var before, rest := fed, Frame(c, m, fields[i + 1..]);
      assert fields[i..][1..] == fields[i + 1..];
      if f in m {
        fed := fed + f;
        fed := fed + [NUL];
        fed := fed + c.canon(m[f]);
        fed := fed + [NUL];
        Regroup(before, f, c.canon(m[f]), rest);
      } else {
        assert before + ([] + rest) == before + rest;
      }
    }
    assert fed + [] == fed;
  }

  lemma Regroup(a: Bytes, f: Bytes, v: Bytes, r: Bytes)
    ensures a + (f + [NUL] + v + [NUL] + r) == a + f + [NUL] + v + [NUL] + r
    ensures f + [NUL] + v + [NUL] + r == f + [NUL] + (v + [NUL] + r)
  {
  }

  // ----- The framing is injective -----

  /** The canonical value of a key field, if the body has it. */
  ghost function Canonical(c: Codec, m: map<string, Bytes>, field: string): Option<Bytes> {
    if field in m then Some(c.canon(m[field])) else None
  }

  lemma SplitAtNul(a: Bytes, x: Bytes, b: Bytes, y: Bytes)
    requires NulFree(a) && NulFree(b) && a + [NUL] + x == b + [NUL] + y
    ensures a == b && x == y
  {
    var l, r := a + [NUL] + x, b + [NUL] + y;
    assert l[|a|] == NUL && forall i :: 0 <= i < |a| ==> l[i] == a[i];
    assert r[|b|] == NUL && forall i :: 0 <= i < |b| ==> r[i] == b[i];
    assert |a| == |b|;
    assert a == l[..|a|] == r[..|b|] == b;
    assert x == l[|a| + 1..] == r[|b| + 1..] == y;
  }

  ghost predicate GoodFields(fields: seq<string>) {
    && (forall i :: 0 <= i < |fields| ==> NulFree(fields[i]))
    && (forall i, j :: 0 <= i < j < |fields| ==> fields[i] != fields[j])
  }

  /** A nonempty frame starts with one of its field names and a NUL. */
  lemma {:induction false} FrameStarts(c: Codec, m: map<string, Bytes>, fields: seq<string>)
    returns (field: string, tail: Bytes)
    requires Frame(c, m, fields) != []
    ensures field in fields && Frame(c, m, fields) == field + [NUL] + tail
    decreases |fields|
  {
    if fields[0] in m {
      field := fields[0];
      tail := c.canon(m[field]) + [NUL] + Frame(c, m, fields[1..]);
      Regroup([], field, c.canon(m[field]), Frame(c, m, fields[1..]));
    } else {
      field, tail := FrameStarts(c, m, fields[1..]);
    }
  }

  /** The first field is absent from one body and present in the other: the frames differ. */
  lemma FrameTells(c: Codec, m: map<string, Bytes>, m': map<string, Bytes>, fields: seq<string>)
    requires fields != [] && GoodFields(fields) && fields[0] in m && fields[0] !in m'
    ensures Frame(c, m, fields) != Frame(c, m', fields)
  {
    var f := fields[0];
    var tail := c.canon(m[f]) + [NUL] + Frame(c, m, fields[1..]);
    Regroup([], f, c.canon(m[f]), Frame(c, m, fields[1..]));
    assert Frame(c, m', fields) == Frame(c, m', fields[1..]);
    if Frame(c, m', fields[1..]) != [] {
      var f', tail' := FrameStarts(c, m', fields[1..]);
      assert f' != f && NulFree(f');
      if f + [NUL] + tail == f' + [NUL] + tail' { SplitAtNul(f, tail, f', tail'); }
    }
  }

  /** The first field is in both bodies: its canonical values and the rest of the frames agree. */
  lemma FrameHead(c: Codec, m: map<string, Bytes>, m': map<string, Bytes>, fields: seq<string>)
    requires CleanValues(c, m) && CleanValues(c, m') && GoodFields(fields)
      && Frame(c, m, fields) == Frame(c, m', fields)
    requires fields != [] && fields[0] in m && fields[0] in m'
    ensures c.canon(m[fields[0]]) == c.canon(m'[fields[0]]) && Frame(c, m, fields[1..]) == Frame(c, m', fields[1..])
  {
    var f, v, v' := fields[0], c.canon(m[fields[0]]), c.canon(m'[fields[0]]);
    var r, r' := Frame(c, m, fields[1..]), Frame(c, m', fields[1..]);
    Regroup([], f, v, r);
    Regroup([], f, v', r');
    SplitAtNul(f, v + [NUL] + r, f, v' + [NUL] + r');
    SplitAtNul(v, r, v', r');
  }

  lemma {:induction false} FrameInjective(c: Codec, m: map<string, Bytes>, m': map<string, Bytes>, fields: seq<string>)
    requires CleanValues(c, m) && CleanValues(c, m') && GoodFields(fields)
      && Frame(c, m, fields) == Frame(c, m', fields)
    ensures SameOn(c, m, m', fields)
    decreases |fields|
  {
    if fields != [] {
      var f, rest := fields[0], fields[1..];
      if f in m && f !in m' {
        FrameTells(c, m, m', fields);
      } else if f !in m && f in m' {
        FrameTells(c, m', m, fields);
      } else {
        if f in m {
          FrameHead(c, m, m', fields);
        } else {
          assert Frame(c, m, fields) == Frame(c, m, rest) && Frame(c, m', fields) == Frame(c, m', rest);
        }
        FrameInjective(c, m, m', rest);
      }
    }
  }

  /** The six key fields have the same canonical values in both bodies. */
  ghost predicate SameKeyFields(c: Codec, a: Bytes, b: Bytes) {
    && c.parse(a).Some? && c.parse(b).Some?
    && var m, m' := c.parse(a).value, c.parse(b).value;
       && Canonical(c, m, "max_tokens") == Canonical(c, m', "max_tokens")
       && Canonical(c, m, "messages") == Canonical(c, m', "messages")
       && Canonical(c, m, "model") == Canonical(c, m', "model")
       && Canonical(c, m, "stop") == Canonical(c, m', "stop")
       && Canonical(c, m, "temperature") == Canonical(c, m', "temperature")
       && Canonical(c, m, "top_p") == Canonical(c, m', "top_p")
  }

  ghost predicate SameOn(c: Codec, m: map<string, Bytes>, m': map<string, Bytes>, fields: seq<string>) {
    forall f :: f in fields ==> Canonical(c, m, f) == Canonical(c, m', f)
  }

  /** The six fields are those that the key is made of, and no others. */
  lemma KeyFields(c: Codec, a: Bytes, b: Bytes)
    requires c.parse(a).Some? && c.parse(b).Some?
    ensures SameKeyFields(c, a, b) <==> SameOn(c, c.parse(a).value, c.parse(b).value, CACHE_FIELDS)
  {
    assert CACHE_FIELDS[0] == "max_tokens" && CACHE_FIELDS[1] == "messages" && CACHE_FIELDS[2] == "model";
    assert CACHE_FIELDS[3] == "stop" && CACHE_FIELDS[4] == "temperature" && CACHE_FIELDS[5] == "top_p";
  }

  lemma FieldsAreGood()
    ensures GoodFields(CACHE_FIELDS)
  {
    assert CACHE_FIELDS[0] == "max_tokens" && CACHE_FIELDS[1] == "messages" && CACHE_FIELDS[2] == "model";
    assert CACHE_FIELDS[3] == "stop" && CACHE_FIELDS[4] == "temperature" && CACHE_FIELDS[5] == "top_p";
  }

  lemma {:induction false} SameFieldsSameFrame(c: Codec, m: map<string, Bytes>, m': map<string, Bytes>,
                                               fields: seq<string>)
    requires SameOn(c, m, m', fields)
    ensures Frame(c, m, fields) == Frame(c, m', fields)
    decreases |fields|
  {
    if fields != [] {
      assert Canonical(c, m, fields[0]) == Canonical(c, m', fields[0]);
      SameFieldsSameFrame(c, m, m', fields[1..]);
    }
  }

  /** Two cacheable requests share a key exactly when provider and canonical key fields agree. */
  lemma SameKeyExactlyWhen(c: Codec, p: string, a: Bytes, q: string, b: Bytes)
    requires Lawful(c) && NulFree(p) && NulFree(q) && c.Cacheable(a) && c.Cacheable(b)
    ensures c.hash(Preimage(c, p, a)) == c.hash(Preimage(c, q, b)) <==> p == q && SameKeyFields(c, a, b)
  {
    var m, m' := c.parse(a).value, c.parse(b).value;
    var x, y := Frame(c, m, CACHE_FIELDS), Frame(c, m', CACHE_FIELDS);
    assert Preimage(c, p, a) == p + [NUL] + x && Preimage(c, q, b) == q + [NUL] + y;
    if c.hash(Preimage(c, p, a)) == c.hash(Preimage(c, q, b)) {
      SplitAtNul(p, x, q, y);
      FieldsAreGood();
      FrameInjective(c, m, m', CACHE_FIELDS);
    }
    KeyFields(c, a, b);
    if p == q && SameKeyFields(c, a, b) {
      SameFieldsSameFrame(c, m, m', CACHE_FIELDS);
    }
  }

  /** Bodies that do not decode share a key exactly when they are the same bytes for the same provider. */
  lemma RawKeyExactlyWhen(c: Codec, p: string, a: Bytes, q: string, b: Bytes)
    requires Lawful(c) && NulFree(p) && NulFree(q) && c.parse(a).None? && c.parse(b).None?
    ensures c.hash(Preimage(c, p, a)) == c.hash(Preimage(c, q, b)) <==> p == q && a == b
  {
    assert Preimage(c, p, a) == p + [NUL] + a && Preimage(c, q, b) == q + [NUL] + b;
    if c.hash(Preimage(c, p, a)) == c.hash(Preimage(c, q, b)) {
      SplitAtNul(p, a, q, b);
    }
  }
}
