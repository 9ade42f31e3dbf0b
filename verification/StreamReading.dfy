/**
 What encoding/json reads as the "stream" field of a request, against the raw-byte scan of
 internal/transport/stream_detect.go: where the two agree, exactly. A char is a code point here;
 the scan treats the bytes of one outside ASCII alike.
 */
module StreamReading {
  import opened Common
  import opened JsonText
  import opened StreamDetect

  // ----- Decoded keys -----

  function HexDigit(c: char): (n: nat)
    requires IsHex(c)
    ensures n < 16
  {
    if IsDigit(c) then c as int - '0' as int
    else if 'a' <= c then c as int - 'a' as int + 10
    else c as int - 'A' as int + 10
  }

  function CodeUnit(c: StringChar): (n: nat)
    requires c.Unicode? && c.Valid()
    ensures n < 0x10000
  {
    HexDigit(c.h0) * 0x1000 + HexDigit(c.h1) * 0x100 + HexDigit(c.h2) * 0x10 + HexDigit(c.h3)
  }

  predicate IsHigh(c: StringChar) {
    c.Unicode? && c.Valid() && 0xD800 <= CodeUnit(c) < 0xDC00
  }

  predicate IsLow(c: StringChar) {
    c.Unicode? && c.Valid() && 0xDC00 <= CodeUnit(c) < 0xE000
  }

  const REPLACEMENT: char := '\U{FFFD}'

  /** One character of a string on its own; half of a surrogate pair is replaced. */
  function DecodedChar(c: StringChar): char
    requires c.Valid()
  {
    match c
    case Plain(p) => p
    case Escape(e) =>
      (match e
       case 'b' => '\U{8}'
       case 'f' => '\U{C}'
       case 'n' => '\n'
       case 'r' => '\r'
       case 't' => '\t'
       case _ => e)
    case Unicode(_, _, _, _) => if IsHigh(c) || IsLow(c) then REPLACEMENT else CodeUnit(c) as char
  }

  /** Section 7 of RFC 8259: the text a string stands for, surrogate pairs joined. */
  function Decoded(cs: seq<StringChar>): string
    requires ValidChars(cs)
  {
    if cs == [] then ""
    else if |cs| >= 2 && IsHigh(cs[0]) && IsLow(cs[1]) then
      [(0x10000 + (CodeUnit(cs[0]) - 0xD800) * 0x400 + (CodeUnit(cs[1]) - 0xDC00)) as char] + Decoded(cs[2..])
    else [DecodedChar(cs[0])] + Decoded(cs[1..])
  }

  /** encoding/json compares field names up to simple case folding; only these fold to an ASCII capital. */
  function Folded(c: char): char {
    if 'a' <= c <= 'z' then (c as int - 32) as char
    else if c == '\U{17F}' then 'S'
    else if c == '\U{212A}' then 'K'
    else c
  }

  function FoldedAll(s: string): string {
    seq(|s|, i requires 0 <= i < |s| => Folded(s[i]))
  }

  // ----- The reading -----

  datatype Entry = Entry(key: seq<StringChar>, v: Value)

  function Entries(ms: Members): (r: seq<Entry>)
    ensures |r| == |MemberList(ms)| && forall i :: 0 <= i < |r| ==> MemberList(ms)[i] == (RawChars(r[i].key), r[i].v)
  {
    [Entry(ms.m.key, ms.m.v)] + if ms.MoreMembers? then Entries(ms.rest) else []
  }

  predicate ValidEntries(es: seq<Entry>) {
    forall i :: 0 <= i < |es| ==> ValidChars(es[i].key)
  }

  const TRUE := Literal("true")
  const FALSE := Literal("false")
  const NULL := Literal("null")

  /** The member is decoded into the field. */
  predicate Named(e: Entry)
    requires ValidChars(e.key)
  {
    FoldedAll(Decoded(e.key)) == "STREAM"
  }

  /** Decoding the members in turn into a bool field: null leaves it alone, any other type is an error. */
  ghost function Read(es: seq<Entry>, flag: bool): Option<bool>
    requires ValidEntries(es)
    decreases |es|
  {
    if es == [] then Some(flag)
    else if !Named(es[0]) || es[0].v == NULL then Read(es[1..], flag)
    else if es[0].v == TRUE || es[0].v == FALSE then Read(es[1..], es[0].v == TRUE)
    else None
  }

  // ----- What decides a reading -----

  /** The member sets the field. */
  predicate Decides(e: Entry)
    requires ValidChars(e.key)
  {
    Named(e) && e.v != NULL
  }

  predicate Plainly(e: Entry) {
    RawChars(e.key) == "stream"
  }

  ghost predicate LastDecider(es: seq<Entry>, j: int)
    requires ValidEntries(es)
  {
    0 <= j < |es| && Decides(es[j]) && forall k :: j < k < |es| ==> !Decides(es[k])
  }

  ghost predicate NoDecider(es: seq<Entry>)
    requires ValidEntries(es)
  {
    forall k :: 0 <= k < |es| ==> !Decides(es[k])
  }

  /** Every value that sets the field is a boolean. */
  ghost predicate Typed(es: seq<Entry>)
    requires ValidEntries(es)
  {
    forall k :: 0 <= k < |es| && Decides(es[k]) ==> es[k].v == TRUE || es[k].v == FALSE
  }

  lemma TailFacts(es: seq<Entry>)
    requires es != [] && ValidEntries(es)
    ensures ValidEntries(es[1..])
    ensures Typed(es) <==> (Decides(es[0]) ==> es[0].v == TRUE || es[0].v == FALSE) && Typed(es[1..])
    ensures NoDecider(es) <==> !Decides(es[0]) && NoDecider(es[1..])
    ensures forall j :: LastDecider(es, j) && j > 0 ==> LastDecider(es[1..], j - 1)
  {
    var rest := es[1..];
    assert forall k :: 0 <= k < |rest| ==> rest[k] == es[k + 1];
    assert forall k :: 1 <= k < |es| ==> es[k] == rest[k - 1];
  }

  /** The reading is the value of the last member that sets the field. */
  lemma {:induction false} ReadIsLast(es: seq<Entry>, flag: bool)
    requires ValidEntries(es)
    ensures Read(es, flag).None? <==> !Typed(es)
    ensures Typed(es) && NoDecider(es) ==> Read(es, flag) == Some(flag)
    ensures forall j :: Typed(es) && LastDecider(es, j) ==> Read(es, flag) == Some(es[j].v == TRUE)
    decreases |es|
  {
    if es != [] {
      TailFacts(es);
      ReadIsLast(es[1..], if Decides(es[0]) then es[0].v == TRUE else flag);
    }
  }

  // ----- What the scan sees -----

  ghost predicate LastPlainTrue(es: seq<Entry>) {
    exists j :: 0 <= j < |es| && Plainly(es[j]) && es[j].v == TRUE && NoPlainAfter(es, j)
  }

  ghost predicate NoPlainAfter(es: seq<Entry>, j: int) {
    forall k :: 0 <= k < |es| && k > j ==> !Plainly(es[k])
  }

  /** Text with no escape is its own decoding. */
  lemma {:induction false} RawIsDecoded(cs: seq<StringChar>)
    requires ValidChars(cs) && forall i :: 0 <= i < |RawChars(cs)| ==> RawChars(cs)[i] != '\\'
    ensures Decoded(cs) == RawChars(cs)
    decreases |cs|
  {
    if cs != [] {
      var raw, rest := RawChars(cs), RawChars(cs[1..]);
      assert raw == cs[0].Text() + rest;
      assert raw[0] == cs[0].Text()[0];
      assert cs[0].Plain?;
      assert forall i :: 0 <= i < |rest| ==> rest[i] == raw[i + 1];
      RawIsDecoded(cs[1..]);
    }
  }

  lemma PlainIsNamed(e: Entry)
    requires ValidChars(e.key) && Plainly(e)
    ensures Named(e)
  {
    RawIsDecoded(e.key);
    assert FoldedAll("stream") == "STREAM";
  }

  lemma {:induction false} EntriesValid(ms: Members)
    requires ValidMembers(ms)
    ensures ValidEntries(Entries(ms))
  {
    if ms.MoreMembers? { EntriesValid(ms.rest); }
  }

  function EntriesOf(v: Value): seq<Entry> {
    if v.Object? then Entries(v.members) else []
  }

  predicate IsObject(v: Value) {
    v.Object? || v.EmptyObject?
  }

  lemma ScanSeesPlain(lead: Bytes, v: Value, trail: Bytes)
    requires AllSpace(lead) && ValidValue(v) && AllSpace(trail) && IsObject(v)
    ensures ScanBody(lead + Text(v) + trail) <==> LastPlainTrue(EntriesOf(v))
  {
    StreamDetection(lead, v, trail);
    var es, members := EntriesOf(v), TopLevelMembers(v);
    assert |es| == |members| && forall i :: 0 <= i < |es| ==> members[i] == (RawChars(es[i].key), es[i].v);
    if LastStreamIsTrue(members) {
      var j :| 0 <= j < |members| && members[j] == ("stream", TRUE)
        && forall k :: j < k < |members| ==> members[k].0 != "stream";
      assert Plainly(es[j]) && NoPlainAfter(es, j);
    }
    if LastPlainTrue(es) {
      var j :| 0 <= j < |es| && Plainly(es[j]) && es[j].v == TRUE && NoPlainAfter(es, j);
      assert members[j] == ("stream", TRUE);
      forall k | j < k < |members| ensures members[k].0 != "stream" { assert !Plainly(es[k]); }
    }
  }

  // ----- Where scan and reading agree -----

  /**
   Only booleans are decoded into the field, and the member that decides it is spelled plainly and,
   if true, not followed by a plain null; or else its value is that of the last plainly spelled one.
   */
  ghost predicate Agreeable(es: seq<Entry>)
    requires ValidEntries(es)
  {
    Typed(es) && forall j :: LastDecider(es, j) ==>
      if Plainly(es[j]) then es[j].v == FALSE || NoPlainAfter(es, j) else (es[j].v == TRUE <==> LastPlainTrue(es))
  }

  /** A plain member is a decider unless it is null, so one behind the last decider is null. */
  lemma PlainDecides(es: seq<Entry>, k: int)
    requires ValidEntries(es) && 0 <= k < |es| && Plainly(es[k])
    ensures Decides(es[k]) <==> es[k].v != NULL
  {
    PlainIsNamed(es[k]);
  }

  lemma PlainDecider(es: seq<Entry>, j: int)
    requires ValidEntries(es) && Typed(es) && LastDecider(es, j) && Plainly(es[j])
    ensures LastPlainTrue(es) <==> es[j].v == TRUE && NoPlainAfter(es, j)
  {
    if LastPlainTrue(es) {
      var i :| 0 <= i < |es| && Plainly(es[i]) && es[i].v == TRUE && NoPlainAfter(es, i);
      PlainDecides(es, i);
      assert i == j;
    }
  }

  lemma DeciderFirst(es: seq<Entry>)
    requires es != [] && ValidEntries(es) && Decides(es[0]) && NoDecider(es[1..])
    ensures LastDecider(es, 0)
  {
    forall k | 0 < k < |es| ensures !Decides(es[k]) { assert es[k] == es[1..][k - 1]; }
  }

  lemma DeciderBehind(es: seq<Entry>, i: int)
    requires es != [] && ValidEntries(es) && LastDecider(es[1..], i)
    ensures LastDecider(es, i + 1)
  {
    forall k | i + 1 < k < |es| ensures !Decides(es[k]) { assert es[k] == es[1..][k - 1]; }
  }

  lemma {:induction false} SomeDecider(es: seq<Entry>) returns (j: int)
    requires ValidEntries(es) && !NoDecider(es)
    ensures LastDecider(es, j)
    decreases |es|
  {
    var rest := es[1..];
    if NoDecider(rest) {
      TailFacts(es);
      j := 0;
      DeciderFirst(es);
    } else {
      var i := SomeDecider(rest);
      j := i + 1;
      DeciderBehind(es, i);
    }
  }

  lemma AgreesOnEntries(es: seq<Entry>)
    requires ValidEntries(es)
    ensures Read(es, false) == Some(LastPlainTrue(es)) <==> Agreeable(es)
  {
    ReadIsLast(es, false);
    if NoDecider(es) {
      if LastPlainTrue(es) {
        var i :| 0 <= i < |es| && Plainly(es[i]) && es[i].v == TRUE && NoPlainAfter(es, i);
        PlainDecides(es, i);
      }
    } else {
      var j := SomeDecider(es);
      assert forall i :: LastDecider(es, i) ==> i == j;
      if Typed(es) && Plainly(es[j]) { PlainDecider(es, j); }
    }
  }

  /** For every object text: the scan is what encoding/json reads if and only if the members are agreeable. */
  lemma ScanReadsExactlyWhen(lead: Bytes, v: Value, trail: Bytes)
    requires AllSpace(lead) && ValidValue(v) && AllSpace(trail) && IsObject(v)
    ensures ValidEntries(EntriesOf(v))
    ensures Read(EntriesOf(v), false) == Some(ScanBody(lead + Text(v) + trail)) <==> Agreeable(EntriesOf(v))
  {
    if v.Object? { EntriesValid(v.members); }
    ScanSeesPlain(lead, v, trail);
    AgreesOnEntries(EntriesOf(v));
  }

  /** Every member decoded into the field is spelled plainly and is a boolean. */
  ghost predicate PlainOnly(es: seq<Entry>)
    requires ValidEntries(es)
  {
    forall i :: 0 <= i < |es| && Named(es[i]) ==> Plainly(es[i]) && (es[i].v == TRUE || es[i].v == FALSE)
  }

  lemma PlainOnlyIsAgreeable(es: seq<Entry>)
    requires ValidEntries(es) && PlainOnly(es)
    ensures Agreeable(es)
  {
    forall j | LastDecider(es, j) ensures NoPlainAfter(es, j) {
      forall k | 0 <= k < |es| && k > j ensures !Plainly(es[k]) {
        if Plainly(es[k]) { PlainIsNamed(es[k]); }
      }
    }
  }

  /** In particular they agree on every object whose stream members are spelled plainly and are booleans. */
  lemma PlainRequestsAgree(lead: Bytes, v: Value, trail: Bytes)
    requires AllSpace(lead) && ValidValue(v) && AllSpace(trail) && IsObject(v)
    requires ValidEntries(EntriesOf(v)) && PlainOnly(EntriesOf(v))
    ensures Read(EntriesOf(v), false) == Some(ScanBody(lead + Text(v) + trail))
  {
    PlainOnlyIsAgreeable(EntriesOf(v));
    ScanReadsExactlyWhen(lead, v, trail);
  }

  // ----- Where they do not -----

  function Sole(key: seq<StringChar>, v: Value): Value {
    Object(LastMember(Member("", key, "", "", v, "")))
  }

  /** Any other spelling of the name is missed by the scan and read by encoding/json. */
  lemma OtherSpellingIsMissed(key: seq<StringChar>)
    requires ValidChars(key) && Named(Entry(key, TRUE)) && RawChars(key) != "stream"
    ensures !ScanBody(Text(Sole(key, TRUE))) && Read(EntriesOf(Sole(key, TRUE)), false) == Some(true)
  {
    var o := Sole(key, TRUE);
    assert ValidMember(o.members.m);
    ScanSeesPlain("", o, "");
    assert "" + Text(o) + "" == Text(o);
    assert EntriesOf(o) == [Entry(key, TRUE)];
    assert EntriesOf(o)[1..] == [];
  }

  /** A key that is not spelled plainly never counts, whatever it decodes to. */
  lemma OnlyPlainIsSeen(key: seq<StringChar>, v: Value)
    requires ValidChars(key) && RawChars(key) != "stream" && ValidValue(v)
    ensures !ScanBody(Text(Sole(key, v)))
  {
    var o := Sole(key, v);
    assert ValidMember(o.members.m);
    ScanSeesPlain("", o, "");
    assert "" + Text(o) + "" == Text(o);
    assert EntriesOf(o) == [Entry(key, v)];
  }

  function PlainChars(s: string): seq<StringChar> {
    if s == "" then [] else [Plain(s[0])] + PlainChars(s[1..])
  }

  lemma {:induction false} PlainCharsStand(s: string)
    requires forall i :: 0 <= i < |s| ==> Plain(s[i]).Valid()
    ensures ValidChars(PlainChars(s)) && RawChars(PlainChars(s)) == s && Decoded(PlainChars(s)) == s
    decreases |s|
  {
    if s != "" {
      PlainCharsStand(s[1..]);
      var cs := PlainChars(s);
      assert cs[1..] == PlainChars(s[1..]);
      assert s == [s[0]] + s[1..];
    }
  }

  /** A member with no whitespace around it. */
  lemma BareMember(key: seq<StringChar>, v: Value)
    ensures MemberText(Member("", key, "", "", v, "")) == StringText(key) + ":" + Text(v)
  {
    assert "" + StringText(key) + "" + ":" + "" + Text(v) + "" == StringText(key) + ":" + Text(v);
  }

  lemma SoleText(key: seq<StringChar>, v: Value)
    ensures Text(Sole(key, v)) == "{" + (StringText(key) + ":" + Text(v)) + "}"
  {
    BareMember(key, v);
    var m := Member("", key, "", "", v, "");
    assert MembersText(LastMember(m)) == MemberText(m) + "";
    assert MemberText(m) + "" == MemberText(m);
  }

  lemma EscapedLetter(first: StringChar, rest: seq<StringChar>)
    requires first == Unicode('0', '0', '7', '3') && ValidChars(rest)
    ensures ValidChars([first] + rest)
    ensures RawChars([first] + rest) == "\\u0073" + RawChars(rest) && Decoded([first] + rest) == "s" + Decoded(rest)
  {
    var key := [first] + rest;
    assert key[1..] == rest;
    assert first.Text() == "\\u0073" && CodeUnit(first) == 0x73 && DecodedChar(first) == 's';
  }

  /** A name whose first letter is an escaped s. */
  lemma EscapedBefore(tail: string) returns (key: seq<StringChar>)
    requires forall i :: 0 <= i < |tail| ==> Plain(tail[i]).Valid()
    ensures ValidChars(key) && RawChars(key) == "\\u0073" + tail && Decoded(key) == "s" + tail
  {
    PlainCharsStand(tail);
    EscapedLetter(Unicode('0', '0', '7', '3'), PlainChars(tail));
    key := [Unicode('0', '0', '7', '3')] + PlainChars(tail);
  }

  lemma EscapedName() returns (key: seq<StringChar>)
    ensures ValidChars(key) && StringText(key) == "\"" + ("\\u0073" + "tream") + "\"" && Named(Entry(key, TRUE))
      && RawChars(key) != "stream"
  {
    key := EscapedBefore("tream");
    assert RawChars(key)[0] == '\\';
    FoldedName("s" + "tream");
  }

  /** Either case of the first letter folds to the same name. */
  lemma FoldedName(name: string)
    requires name == "stream" || name == "Stream"
    ensures FoldedAll(name) == "STREAM"
  {
  }

  lemma CapitalName() returns (key: seq<StringChar>)
    ensures ValidChars(key) && StringText(key) == "\"" + "Stream" + "\"" && Named(Entry(key, TRUE))
      && RawChars(key) != "stream"
  {
    key := PlainChars("Stream");
    PlainCharsStand("Stream");
    FoldedName("Stream");
    assert RawChars(key)[0] == 'S';
  }

  /** Two texts on which the scan says no and encoding/json yes: an escaped letter in the name, and a capital. */
  lemma OtherSpellingsDiffer() returns (escaped: Value, capital: Value)
    ensures Text(escaped) == "{" + ("\"" + ("\\u0073" + "tream") + "\"" + ":" + "true") + "}"
    ensures ValidEntries(EntriesOf(escaped)) && !ScanBody(Text(escaped))
      && Read(EntriesOf(escaped), false) == Some(true)
    ensures Text(capital) == "{" + ("\"" + "Stream" + "\"" + ":" + "true") + "}"
    ensures ValidEntries(EntriesOf(capital)) && !ScanBody(Text(capital))
      && Read(EntriesOf(capital), false) == Some(true)
  {
    var key := EscapedName();
    SoleText(key, TRUE);
    OtherSpellingIsMissed(key);
    var name := CapitalName();
    SoleText(name, TRUE);
    OtherSpellingIsMissed(name);
    escaped, capital := Sole(key, TRUE), Sole(name, TRUE);
  }

  function ThenNull(key: seq<StringChar>): Value {
    Object(MoreMembers(Member("", key, "", "", TRUE, ""), LastMember(Member("", key, "", "", NULL, ""))))
  }

  lemma ThenNullText(key: seq<StringChar>)
    ensures Text(ThenNull(key))
      == "{" + ((StringText(key) + ":" + "true") + ("," + (StringText(key) + ":" + "null"))) + "}"
  {
    BareMember(key, TRUE);
    BareMember(key, NULL);
    var m, n := Member("", key, "", "", TRUE, ""), Member("", key, "", "", NULL, "");
    assert MembersText(LastMember(n)) == MemberText(n) + "";
    assert MemberText(n) + "" == MemberText(n);
    assert MembersText(MoreMembers(m, LastMember(n))) == MemberText(m) + ("," + MembersText(LastMember(n)));
  }

  lemma ThenNullEntries(key: seq<StringChar>)
    ensures EntriesOf(ThenNull(key)) == [Entry(key, TRUE), Entry(key, NULL)]
  {
    var ms := ThenNull(key).members;
    assert Entries(ms.rest) == [Entry(key, NULL)] + [];
    assert Entries(ms) == [Entry(key, TRUE)] + Entries(ms.rest);
  }

  lemma NullLeavesFlag(es: seq<Entry>)
    requires |es| == 2 && ValidEntries(es) && Plainly(es[0]) && Plainly(es[1]) && es[0].v == TRUE && es[1].v == NULL
    ensures Read(es, false) == Some(true) && !LastPlainTrue(es)
  {
    PlainIsNamed(es[0]);
    PlainIsNamed(es[1]);
    var rest := es[1..];
    assert rest[0] == es[1] && rest[1..] == [];
    assert Read(rest, true) == Some(true);
    assert "true"[0] != "null"[0];
  }

  lemma ThenNullDiffers(key: seq<StringChar>)
    requires ValidChars(key) && RawChars(key) == "stream"
    ensures ValidEntries(EntriesOf(ThenNull(key)))
    ensures !ScanBody(Text(ThenNull(key))) && Read(EntriesOf(ThenNull(key)), false) == Some(true)
  {
    var v := ThenNull(key);
    assert ValidMember(v.members.m) && ValidMember(v.members.rest.m);
    ThenNullEntries(key);
    NullLeavesFlag(EntriesOf(v));
    ScanSeesPlain("", v, "");
    assert "" + Text(v) + "" == Text(v);
  }

  /** And a null behind, with every name spelled plainly. */
  lemma NullBehindDiffers() returns (v: Value)
    ensures var name := "\"" + "stream" + "\"";
      Text(v) == "{" + ((name + ":" + "true") + ("," + (name + ":" + "null"))) + "}"
    ensures ValidEntries(EntriesOf(v)) && !ScanBody(Text(v)) && Read(EntriesOf(v), false) == Some(true)
  {
    var key := PlainChars("stream");
    PlainCharsStand("stream");
    v := ThenNull(key);
    ThenNullText(key);
    ThenNullDiffers(key);
  }
}
