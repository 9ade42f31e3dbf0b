/**
 internal/transport/stream_detect.go: the allocation-free scanner that decides whether a
 chat request asks for a streamed reply.

 The methods walk an index over an arbitrary body exactly as the source does. Each is
 proved against a function on the unread suffix of the body; the theorems at the end say
 what those functions mean on every text of the JSON grammar.
 */
module StreamDetect {
  import opened Common
  import opened JsonText

  // ----- The scanner on unread suffixes -----

  function AfterSpace(s: Bytes): (r: Bytes)
    ensures |r| <= |s| && (r != [] ==> !IsSpace(r[0]))
  {
    if s != [] && IsSpace(s[0]) then AfterSpace(s[1..]) else s
  }

  /** s starts just past the opening quote; the result starts just past the closing one. */
  function AfterString(s: Bytes): (r: Option<Bytes>)
    ensures r.Some? ==> |r.value| < |s|
  {
    if s == [] then None
    else if s[0] == '\\' then (if |s| == 1 then None else AfterString(s[2..]))
    else if s[0] == '\"' then Some(s[1..])
    else AfterString(s[1..])
  }

  predicate IsOpen(c: char) {
    c == '{' || c == '['
  }

  predicate IsClose(c: char) {
    c == '}' || c == ']'
  }

  function AfterNested(s: Bytes, depth: int): (r: Option<Bytes>)
    ensures r.Some? ==> |r.value| < |s|
    decreases |s|
  {
    if s == [] then None
    else if s[0] == '\"' then
      var r := AfterString(s[1..]);
      if r.None? then None else AfterNested(r.value, depth)
    else if IsOpen(s[0]) then AfterNested(s[1..], depth + 1)
    else if IsClose(s[0]) then
      if depth == 1 then Some(s[1..]) else AfterNested(s[1..], depth - 1)
    else AfterNested(s[1..], depth)
  }

  predicate IsDelimiter(c: char) {
    c == ',' || c == '}' || c == ']' || IsSpace(c)
  }

  function AfterScalar(s: Bytes): (r: Bytes)
    ensures |r| <= |s|
  {
    if s == [] || IsDelimiter(s[0]) then s else AfterScalar(s[1..])
  }

  function AfterValue(s: Bytes): (r: Option<Bytes>)
    ensures r.Some? ==> |r.value| <= |s|
  {
    if s == [] then None
    else if s[0] == '\"' then AfterString(s[1..])
    else if IsOpen(s[0]) then AfterNested(s, 0)
    else Some(AfterScalar(s))
  }

  /** One turn of the member loop: it returns the flag, or goes on with an unread suffix. */
  datatype Turn = Return(flag: bool) | Continue(rest: Bytes, flag: bool)

  function MemberTurn(unread: Bytes, stream: bool): (r: Turn)
    ensures r.Continue? ==> |r.rest| < |unread|
  {
    var s := AfterSpace(unread);
    if s == [] then Return(stream)
    else if s[0] == ',' then Continue(s[1..], stream)
    else if s[0] != '\"' then Return(stream)
    else MemberKeyTurn(s[1..], stream)
  }

  /** The rest of the turn, from just past the key's opening quote. */
  function MemberKeyTurn(s: Bytes, stream: bool): (r: Turn)
    ensures r.Continue? ==> |r.rest| < |s|
  {
    var rest := AfterString(s);
    if rest.None? then Return(stream)
    else MemberValueTurn(s[..|s| - |rest.value| - 1], rest.value, stream)
  }

  /** The rest of the turn, from just past the key. */
  function MemberValueTurn(key: Bytes, afterKey: Bytes, stream: bool): (r: Turn)
    ensures r.Continue? ==> |r.rest| < |afterKey|
  {
    var t := AfterSpace(afterKey);
    if t == [] || t[0] != ':' then Return(stream)
    else
      var s := AfterSpace(t[1..]);
      var flag := if key == "stream" then "true" <= s else stream;
      var next := AfterValue(s);
      if next.None? then Return(flag) else Continue(next.value, flag)
  }

  /** The member loop, entered with the unread suffix and the flag's current value. */
  predicate ScanMembers(unread: Bytes, stream: bool)
    decreases |unread|
  {
    match MemberTurn(unread, stream)
    case Return(flag) => flag
    case Continue(rest, flag) => ScanMembers(rest, flag)
  }

  predicate ScanBody(s: Bytes) {
    var t := AfterSpace(s);
    t != [] && t[0] == '{' && ScanMembers(t[1..], false)
  }

  // ----- The scanner as written: index walking on arbitrary bytes -----

  method SkipJSONSpace(b: Bytes, start: nat) returns (i: nat)
    requires start <= |b|
    ensures start <= i <= |b|
    ensures b[i..] == AfterSpace(b[start..])
  {
    i := start;
    while i < |b| && IsSpace(b[i])
      invariant start <= i <= |b|
      invariant AfterSpace(b[i..]) == AfterSpace(b[start..])
    {
      assert b[i..][1..] == b[i + 1..];
      i := i + 1;
    }
  }

  method ScanJSONString(b: Bytes, start: nat) returns (end: int)
    requires start < |b|
    ensures end == -1 || start + 1 < end <= |b|
    ensures end == -1 <==> AfterString(b[start + 1..]) == None
    ensures end != -1 ==> AfterString(b[start + 1..]) == Some(b[end..])
  {
    var i := start + 1;
    while i < |b|
      invariant start + 1 <= i
      invariant i <= |b| ==> AfterString(b[i..]) == AfterString(b[start + 1..])
      invariant i > |b| ==> AfterString(b[start + 1..]) == None
    {
      if b[i] == '\\' {
        assert i + 1 < |b| ==> b[i..][2..] == b[i + 2..];
        i := i + 2;
      } else if b[i] == '\"' {
        assert b[i..][1..] == b[i + 1..];
        return i + 1;
      } else {
        assert b[i..][1..] == b[i + 1..];
        i := i + 1;
      }
    }
    return -1;
  }

  method SkipJSONValue(b: Bytes, start: nat) returns (end: int)
    requires start <= |b|
    ensures end == -1 || start <= end <= |b|
    ensures end == -1 <==> AfterValue(b[start..]) == None
    ensures end != -1 ==> AfterValue(b[start..]) == Some(b[end..])
  {
    if start >= |b| {
      return -1;
    }
    if b[start] == '\"' {
      assert b[start..][1..] == b[start + 1..];
      end := ScanJSONString(b, start);
    } else if IsOpen(b[start]) {
      end := SkipNested(b, start);
    } else {
      end := SkipScalar(b, start);
    }
  }

  /** The bracket-depth loop of skipJSONValue. */
  method SkipNested(b: Bytes, start: nat) returns (end: int)
    requires start <= |b|
    ensures end == -1 || start < end <= |b|
    ensures end == -1 <==> AfterNested(b[start..], 0) == None
    ensures end != -1 ==> AfterNested(b[start..], 0) == Some(b[end..])
  {
    var i, depth := start, 0;
    while i < |b|
      invariant start <= i <= |b|
      invariant AfterNested(b[i..], depth) == AfterNested(b[start..], 0)
    {
      assert b[i..][1..] == b[i + 1..];
      if b[i] == '\"' {
        var e := ScanJSONString(b, i);
        if e < 0 {
          return -1;
        }
        i := e;
        continue;
      } else if IsOpen(b[i]) {
        depth := depth + 1;
      } else if IsClose(b[i]) {
        depth := depth - 1;
        if depth == 0 {
          return i + 1;
        }
      }
      i := i + 1;
    }
    return -1;
  }

  /** The run to the next delimiter in skipJSONValue. */
  method SkipScalar(b: Bytes, start: nat) returns (i: nat)
    requires start <= |b|
    ensures start <= i <= |b|
    ensures b[i..] == AfterScalar(b[start..])
  {
    i := start;
    while i < |b| && !IsDelimiter(b[i])
      invariant start <= i <= |b|
      invariant AfterScalar(b[i..]) == AfterScalar(b[start..])
    {
      assert b[i..][1..] == b[i + 1..];
      i := i + 1;
    }
  }

  /** The body of the member loop; next is -1 when the loop returns. */
  method ScanMember(body: Bytes, start: nat, before: bool) returns (next: int, stream: bool)
    requires start <= |body|
    ensures next == -1 || start < next <= |body|
    ensures next == -1 ==> MemberTurn(body[start..], before) == Return(stream)
    ensures next != -1 ==> MemberTurn(body[start..], before) == Continue(body[next..], stream)
  {
    var i := SkipJSONSpace(body, start);
    if i >= |body| {
      return -1, before;
    }
    assert body[i..][1..] == body[i + 1..];
    if body[i] == ',' {
      return i + 1, before;
    }
    if body[i] != '\"' {
      return -1, before;
    }
    next, stream := ScanMemberKey(body, i, before);
  }

  method ScanMemberKey(body: Bytes, quote: nat, before: bool) returns (next: int, stream: bool)
    requires quote < |body|
    ensures next == -1 || quote < next <= |body|
    ensures next == -1 ==> MemberKeyTurn(body[quote + 1..], before) == Return(stream)
    ensures next != -1 ==> MemberKeyTurn(body[quote + 1..], before) == Continue(body[next..], stream)
  {
    var keyEnd := ScanJSONString(body, quote);
    if keyEnd < 0 {
      return -1, before;
    }
    var key := body[quote + 1..keyEnd - 1];
    assert key == body[quote + 1..][..keyEnd - quote - 2];
    next, stream := ScanMemberValue(body, key, keyEnd, before);
  }

  method ScanMemberValue(body: Bytes, key: Bytes, keyEnd: nat, before: bool) returns (next: int, stream: bool)
    requires keyEnd <= |body|
    ensures next == -1 || keyEnd < next <= |body|
    ensures next == -1 ==> MemberValueTurn(key, body[keyEnd..], before) == Return(stream)
    ensures next != -1 ==> MemberValueTurn(key, body[keyEnd..], before) == Continue(body[next..], stream)
  {
    stream := before;
    var i := SkipJSONSpace(body, keyEnd);
    if i >= |body| || body[i] != ':' {
      return -1, stream;
    }
    assert body[i..][1..] == body[i + 1..];
    i := SkipJSONSpace(body, i + 1);
    if key == "stream" {
      stream := "true" <= body[i..];
    }
    next := SkipJSONValue(body, i);
  }

  /** Total on arbitrary bytes: every index is in range and the loop terminates. */
  method IsStreamRequest(body: Bytes) returns (stream: bool)
    ensures stream == ScanBody(body)
  {
    stream := false;
    assert body[0..] == body;
    var i: int := SkipJSONSpace(body, 0);
    if i >= |body| || body[i] != '{' {
      return false;
    }
    assert body[i..][1..] == body[i + 1..];
    i := i + 1;
    while i >= 0
      invariant -1 <= i <= |body|
      invariant i >= 0 ==> ScanMembers(body[i..], stream) == ScanBody(body)
      invariant i < 0 ==> stream == ScanBody(body)
      decreases if i < 0 then 0 else |body| - i + 1
    {
      i, stream := ScanMember(body, i, stream);
    }
  }

  // ----- What the scanner does on the texts of the grammar -----

  /** s can follow a complete value: it is at its end or at a delimiter. */
  predicate Follows(s: Bytes) {
    s == [] || IsDelimiter(s[0])
  }

  lemma {:induction false} SkipsSpace(gap: Bytes, s: Bytes)
    requires AllSpace(gap) && (s == [] || !IsSpace(s[0]))
    ensures AfterSpace(gap + s) == s
  {
    if gap == [] {
      assert gap + s == s;
    } else {
      assert (gap + s)[1..] == gap[1..] + s;
      SkipsSpace(gap[1..], s);
    }
  }

  lemma {:induction false} SkipsString(cs: seq<StringChar>, s: Bytes)
    requires ValidChars(cs)
    ensures AfterString(RawChars(cs) + "\"" + s) == Some(s)
  {
    var t := RawChars(cs) + "\"" + s;
    if cs == [] {
      assert t[0] == '\"' && t[1..] == s;
    } else {
      var rest := RawChars(cs[1..]) + "\"" + s;
      assert t == cs[0].Text() + rest;
      SkipsString(cs[1..], s);
      SkipsChar(cs[0], rest);
    }
  }

  lemma SkipsChar(c: StringChar, rest: Bytes)
    requires c.Valid()
    ensures AfterString(c.Text() + rest) == AfterString(rest)
  {
    var t := c.Text() + rest;
    match c
    case Plain(_) =>
      assert t[1..] == rest;
    case Escape(_) =>
      assert t[2..] == rest;
    case Unicode(h0, h1, h2, h3) =>
      assert t[2..] == [h0, h1, h2, h3] + rest;
      assert ([h0, h1, h2, h3] + rest)[1..] == [h1, h2, h3] + rest;
      assert ([h1, h2, h3] + rest)[1..] == [h2, h3] + rest;
      assert ([h2, h3] + rest)[1..] == [h3] + rest;
      assert ([h3] + rest)[1..] == rest;
      assert AfterString([h3] + rest) == AfterString(rest);
      assert AfterString([h2, h3] + rest) == AfterString([h3] + rest);
      assert AfterString([h1, h2, h3] + rest) == AfterString([h2, h3] + rest);
      assert AfterString([h0, h1, h2, h3] + rest) == AfterString([h1, h2, h3] + rest);
  }

  /** Bytes of numbers and literal names: no quote, bracket or delimiter among them. */
  predicate IsScalarByte(c: char) {
    c != '\"' && !IsOpen(c) && !IsClose(c) && !IsDelimiter(c)
  }

  predicate IsScalarText(s: Bytes) {
    s != [] && forall i :: 0 <= i < |s| ==> IsScalarByte(s[i])
  }

  lemma NumberIsScalar(n: Number)
    requires n.Valid()
    ensures IsScalarText(n.Text()) && n.Text()[0] != 't'
  {
    assert forall i :: 0 <= i < |n.frac| ==> IsScalarByte(n.frac[i]) by {
      forall i | 0 <= i < |n.frac| ensures IsScalarByte(n.frac[i]) {
        if i > 0 { assert n.frac[i] == n.frac[1..][i - 1]; }
      }
    }
    assert forall i :: 0 <= i < |n.exp| ==> IsScalarByte(n.exp[i]) by {
      forall i | 0 <= i < |n.exp| ensures IsScalarByte(n.exp[i]) {
        if i == 1 {
          if n.exp[1] != '+' && n.exp[1] != '-' { assert n.exp[1] == n.exp[1..][0]; }
        } else if i > 1 {
          if n.exp[1] == '+' || n.exp[1] == '-' {
            assert n.exp[i] == n.exp[2..][i - 2];
          } else {
            assert n.exp[i] == n.exp[1..][i - 1];
          }
        }
      }
    }
  }

  lemma {:induction false} SkipsScalar(t: Bytes, s: Bytes)
    requires forall i :: 0 <= i < |t| ==> IsScalarByte(t[i])
    requires Follows(s)
    ensures AfterScalar(t + s) == s
  {
    if t == [] {
      assert t + s == s;
    } else {
      assert (t + s)[1..] == t[1..] + s;
      SkipsScalar(t[1..], s);
    }
  }

  /** Inside brackets, bytes that are neither quotes nor brackets leave the depth alone. */
  lemma {:induction false} NestedSkipsInert(t: Bytes, s: Bytes, depth: int)
    requires forall i :: 0 <= i < |t| ==> t[i] != '\"' && !IsOpen(t[i]) && !IsClose(t[i])
    ensures AfterNested(t + s, depth) == AfterNested(s, depth)
  {
    if t == [] {
      assert t + s == s;
    } else {
      assert (t + s)[1..] == t[1..] + s;
      NestedSkipsInert(t[1..], s, depth);
    }
  }

  lemma NestedSkipsString(cs: seq<StringChar>, s: Bytes, depth: int)
    requires ValidChars(cs)
    ensures AfterNested(StringText(cs) + s, depth) == AfterNested(s, depth)
  {
    SkipsString(cs, s);
    assert (StringText(cs) + s)[1..] == RawChars(cs) + "\"" + s;
  }

  /** Inside brackets, a whole value leaves the depth where it was. */
  lemma {:induction false} NestedSkipsValue(v: Value, s: Bytes, depth: int)
    requires ValidValue(v) && depth >= 1
    ensures AfterNested(Text(v) + s, depth) == AfterNested(s, depth)
    decreases v, 1
  {
    match v
    case Literal(name) =>
      NestedSkipsInert(name, s, depth);
    case Num(n) =>
      NumberIsScalar(n);
      NestedSkipsInert(n.Text(), s, depth);
    case Str(cs) =>
      NestedSkipsString(cs, s, depth);
    case EmptyArray(_) =>
      NestedSkipsBrackets(v, s, depth);
    case Array(_) =>
      NestedSkipsBrackets(v, s, depth);
    case EmptyObject(_) =>
      NestedSkipsBrackets(v, s, depth);
    case Object(_) =>
      NestedSkipsBrackets(v, s, depth);
  }

  ghost function Inner(v: Value): Bytes {
    match v
    case EmptyArray(gap) => gap
    case Array(es) => ElementsText(es)
    case EmptyObject(gap) => gap
    case Object(ms) => MembersText(ms)
    case _ => []
  }

  predicate Bracketed(v: Value) {
    v.EmptyArray? || v.Array? || v.EmptyObject? || v.Object?
  }

  /** A bracketed value opens and closes one level; at depth 0 it ends the scan. */
  lemma {:induction false} NestedSkipsBrackets(v: Value, s: Bytes, depth: nat)
    requires ValidValue(v) && Bracketed(v)
    ensures depth >= 1 ==> AfterNested(Text(v) + s, depth) == AfterNested(s, depth)
    ensures depth == 0 ==> AfterNested(Text(v) + s, depth) == Some(s)
    decreases v, 0
  {
    var close := if v.EmptyArray? || v.Array? then "]" else "}";
    var t := close + s;
    assert t[1..] == s;
    assert (Text(v) + s)[1..] == Inner(v) + t;
    match v
    case EmptyArray(gap) =>
      NestedSkipsInert(gap, t, depth + 1);
    case EmptyObject(gap) =>
      NestedSkipsInert(gap, t, depth + 1);
    case Array(es) =>
      NestedSkipsElements(es, t, depth + 1);
    case Object(ms) =>
      NestedSkipsMembers(ms, t, depth + 1);
  }

  lemma {:induction false} NestedSkipsElements(es: Elements, s: Bytes, depth: int)
    requires ValidElements(es) && depth >= 1
    ensures AfterNested(ElementsText(es) + s, depth) == AfterNested(s, depth)
    decreases es
  {
    var tail := if es.MoreElements? then "," + ElementsText(es.rest) + s else s;
    var afterValue := es.post + tail;
    assert ElementsText(es) + s == es.pre + (Text(es.v) + afterValue);
    NestedSkipsInert(es.pre, Text(es.v) + afterValue, depth);
    NestedSkipsValue(es.v, afterValue, depth);
    NestedSkipsInert(es.post, tail, depth);
    if es.MoreElements? {
      NestedSkipsElements(es.rest, s, depth);
      assert tail == "," + (ElementsText(es.rest) + s);
      NestedSkipsInert(",", ElementsText(es.rest) + s, depth);
    }
  }

  lemma {:induction false} NestedSkipsMembers(ms: Members, s: Bytes, depth: int)
    requires ValidMembers(ms) && depth >= 1
    ensures AfterNested(MembersText(ms) + s, depth) == AfterNested(s, depth)
    decreases ms
  {
    var tail := if ms.MoreMembers? then "," + (MembersText(ms.rest) + s) else s;
    assert MembersText(ms) + s == MemberText(ms.m) + tail;
    NestedSkipsMember(ms.m, tail, depth);
    if ms.MoreMembers? {
      NestedSkipsMembers(ms.rest, s, depth);
      NestedSkipsInert(",", MembersText(ms.rest) + s, depth);
    }
  }

  lemma {:induction false} NestedSkipsMember(m: Member, tail: Bytes, depth: int)
    requires ValidMember(m) && depth >= 1
    ensures AfterNested(MemberText(m) + tail, depth) == AfterNested(tail, depth)
    decreases m
  {
    var b := Text(m.v) + (m.post + tail);
    var a := ":" + (m.afterColon + b);
    MemberTextParts(m, tail);
    NestedSkipsInert(m.pre, StringText(m.key) + (m.beforeColon + a), depth);
    NestedSkipsString(m.key, m.beforeColon + a, depth);
    NestedSkipsInert(m.beforeColon, a, depth);
    NestedSkipsInert(":", m.afterColon + b, depth);
    NestedSkipsInert(m.afterColon, b, depth);
    NestedSkipsValue(m.v, m.post + tail, depth);
    NestedSkipsInert(m.post, tail, depth);
  }

  lemma MemberTextParts(m: Member, tail: Bytes)
    ensures MemberText(m) + tail
         == m.pre + (StringText(m.key) + (m.beforeColon + (":" + (m.afterColon + (Text(m.v) + (m.post + tail))))))
  {
    var b := Text(m.v) + (m.post + tail);
    var head := m.pre + StringText(m.key) + m.beforeColon + ":" + m.afterColon;
    assert MemberText(m) + tail == head + Text(m.v) + (m.post + tail);
    assert head + Text(m.v) + (m.post + tail) == head + b;
    assert head + b == m.pre + (StringText(m.key) + (m.beforeColon + (":" + (m.afterColon + b))));
  }

  predicate IsScalar(v: Value) {
    v.Literal? || v.Num?
  }

  lemma ScalarText(v: Value)
    requires ValidValue(v) && IsScalar(v)
    ensures IsScalarText(Text(v))
    ensures Text(v)[0] == 't' <==> v == Literal("true")
  {
    if v.Num? { NumberIsScalar(v.n); }
  }

  /** The first byte of a value tells which kind it is. */
  lemma FirstByte(v: Value)
    requires ValidValue(v)
    ensures Text(v) != [] && !IsSpace(Text(v)[0])
    ensures Text(v)[0] == '\"' <==> v.Str?
    ensures IsOpen(Text(v)[0]) <==> Bracketed(v)
    ensures Text(v)[0] == 't' <==> v == Literal("true")
    ensures Text(v)[0] == '{' <==> v.Object? || v.EmptyObject?
  {
    if IsScalar(v) { ScalarText(v); }
  }

  lemma TruePrefix(v: Value, s: Bytes)
    requires ValidValue(v)
    ensures "true" <= Text(v) + s <==> v == Literal("true")
  {
    FirstByte(v);
    var t := Text(v) + s;
    assert t[0] == Text(v)[0];
    if v == Literal("true") { assert t[..4] == "true"; }
  }

  /** skipJSONValue skips exactly one value. */
  lemma SkipsValue(v: Value, s: Bytes)
    requires ValidValue(v) && Follows(s)
    ensures AfterValue(Text(v) + s) == Some(s)
  {
    var t := Text(v) + s;
    FirstByte(v);
    assert t[0] == Text(v)[0];
    if Bracketed(v) {
      NestedSkipsBrackets(v, s, 0);
    } else if v.Str? {
      SkipsString(v.chars, s);
      assert t[1..] == RawChars(v.chars) + "\"" + s;
    } else {
      ScalarText(v);
      SkipsScalar(Text(v), s);
    }
  }

  /** What the flag is after the members of a list, given what it was before. */
  ghost predicate FlagAfter(members: seq<(Bytes, Value)>, before: bool) {
    if members == [] then before
    else FlagAfter(members[1..], if members[0].0 == "stream" then members[0].1 == Literal("true") else before)
  }

  lemma {:induction false} ScansMembers(ms: Members, trail: Bytes, before: bool)
    requires ValidMembers(ms)
    ensures ScanMembers(MembersText(ms) + "}" + trail, before) == FlagAfter(MemberList(ms), before)
  {
    var tail := if ms.MoreMembers? then "," + (MembersText(ms.rest) + "}" + trail) else "}" + trail;
    assert MembersText(ms) + "}" + trail == MemberText(ms.m) + tail;
    var flag := if RawChars(ms.m.key) == "stream" then ms.m.v == Literal("true") else before;
    TurnsOnMember(ms.m, tail, before);
    SkipsSpace(ms.m.post, tail);
    if ms.MoreMembers? {
      var rest := MembersText(ms.rest) + "}" + trail;
      ScansMembers(ms.rest, trail, flag);
      assert tail[1..] == rest;
      assert MemberTurn(ms.m.post + tail, flag) == Continue(rest, flag);
      assert MemberList(ms)[1..] == MemberList(ms.rest);
    } else {
      assert MemberTurn(ms.m.post + tail, flag) == Return(flag);
      assert MemberList(ms)[1..] == [];
    }
  }

  /** One member: the key is read raw, the flag is updated, the value is skipped. */
  lemma TurnsOnMember(m: Member, tail: Bytes, before: bool)
    requires ValidMember(m) && tail != [] && IsDelimiter(tail[0])
    ensures MemberTurn(MemberText(m) + tail, before)
         == Continue(m.post + tail, if RawChars(m.key) == "stream" then m.v == Literal("true") else before)
  {
    var rest := m.beforeColon + (":" + (m.afterColon + (Text(m.v) + (m.post + tail))));
    MemberTextParts(m, tail);
    TurnsOnKey(m.pre, m.key, rest, before);
    TurnsOnMemberKey(m, rest, before);
    TurnsOnMemberValue(m, tail, before);
  }

  lemma TurnsOnKey(pre: Bytes, key: seq<StringChar>, rest: Bytes, before: bool)
    requires AllSpace(pre)
    ensures MemberTurn(pre + (StringText(key) + rest), before) == MemberKeyTurn(RawChars(key) + "\"" + rest, before)
  {
    var s := StringText(key) + rest;
    assert s[0] == '\"' && s[1..] == RawChars(key) + "\"" + rest;
    SkipsSpace(pre, s);
  }

  lemma TurnsOnMemberKey(m: Member, rest: Bytes, before: bool)
    requires ValidMember(m)
    ensures MemberKeyTurn(RawChars(m.key) + "\"" + rest, before) == MemberValueTurn(RawChars(m.key), rest, before)
  {
    var k := RawChars(m.key) + "\"" + rest;
    SkipsString(m.key, rest);
    assert k[..|k| - |rest| - 1] == RawChars(m.key);
  }

  lemma TurnsOnMemberValue(m: Member, tail: Bytes, before: bool)
    requires ValidMember(m) && tail != [] && IsDelimiter(tail[0])
    ensures MemberValueTurn(RawChars(m.key),
                            m.beforeColon + (":" + (m.afterColon + (Text(m.v) + (m.post + tail)))), before)
         == Continue(m.post + tail, if RawChars(m.key) == "stream" then m.v == Literal("true") else before)
  {
    var c := m.post + tail;
    var b := Text(m.v) + c;
    var a := ":" + (m.afterColon + b);
    SkipsSpace(m.beforeColon, a);
    assert a[1..] == m.afterColon + b;
    FirstByte(m.v);
    SkipsSpace(m.afterColon, b);
    SkipsValue(m.v, c);
    TruePrefix(m.v, c);
  }

  /** The last member whose raw key bytes are `stream` exists and its value is the literal true. */
  ghost predicate LastStreamIsTrue(members: seq<(Bytes, Value)>) {
    exists j :: 0 <= j < |members| && members[j] == ("stream", Literal("true"))
             && forall k :: j < k < |members| ==> members[k].0 != "stream"
  }

  ghost predicate NoStream(members: seq<(Bytes, Value)>) {
    forall k :: 0 <= k < |members| ==> members[k].0 != "stream"
  }

  lemma {:induction false} FlagIsLast(members: seq<(Bytes, Value)>, before: bool)
    ensures FlagAfter(members, before) <==> LastStreamIsTrue(members) || (before && NoStream(members))
  {
    if members != [] {
      var rest := members[1..];
      var flag := if members[0].0 == "stream" then members[0].1 == Literal("true") else before;
      FlagIsLast(rest, flag);
      assert NoStream(members) <==> members[0].0 != "stream" && NoStream(rest) by {
        assert forall k :: 0 <= k < |rest| ==> rest[k] == members[k + 1];
        assert forall k :: 1 <= k < |members| ==> members[k] == rest[k - 1];
      }
      LastInTail(members);
    }
  }

  lemma LastInTail(members: seq<(Bytes, Value)>)
    requires members != []
    ensures LastStreamIsTrue(members)
       <==> LastStreamIsTrue(members[1..]) || (members[0] == ("stream", Literal("true")) && NoStream(members[1..]))
  {
    var rest := members[1..];
    if LastStreamIsTrue(rest) {
      var j :| 0 <= j < |rest| && rest[j] == ("stream", Literal("true"))
        && forall k :: j < k < |rest| ==> rest[k].0 != "stream";
      assert members[j + 1] == rest[j];
      assert forall k :: j + 1 < k < |members| ==> members[k] == rest[k - 1];
    }
    if members[0] == ("stream", Literal("true")) && NoStream(rest) {
      assert forall k :: 0 < k < |members| ==> members[k] == rest[k - 1];
    }
    if LastStreamIsTrue(members) {
      var j :| 0 <= j < |members| && members[j] == ("stream", Literal("true"))
        && forall k :: j < k < |members| ==> members[k].0 != "stream";
      assert forall k :: 0 <= k < |rest| ==> rest[k] == members[k + 1];
      if j > 0 { assert rest[j - 1] == members[j]; }
    }
  }

  /**
   The scanner's answer on every JSON text, with any whitespace, nesting and escapes: true
   exactly when the text is an object whose last `stream` member has the literal value true.
   */
  lemma StreamDetection(lead: Bytes, v: Value, trail: Bytes)
    requires AllSpace(lead) && ValidValue(v) && AllSpace(trail)
    ensures ScanBody(lead + Text(v) + trail) <==> LastStreamIsTrue(TopLevelMembers(v))
  {
    var body := Text(v) + trail;
    assert lead + Text(v) + trail == lead + body;
    FirstByte(v);
    assert body[0] == Text(v)[0];
    SkipsSpace(lead, body);
    if v.Object? {
      assert body[1..] == MembersText(v.members) + "}" + trail;
      ScansMembers(v.members, trail, false);
      FlagIsLast(MemberList(v.members), false);
    } else if v.EmptyObject? {
      assert body[1..] == v.gap + ("}" + trail);
      ScansNoMembers(v.gap, trail);
    }
  }

  lemma ScansNoMembers(gap: Bytes, trail: Bytes)
    requires AllSpace(gap)
    ensures !ScanMembers(gap + ("}" + trail), false)
  {
    SkipsSpace(gap, "}" + trail);
    assert MemberTurn(gap + ("}" + trail), false) == Return(false);
  }
}
