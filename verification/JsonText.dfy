/**
 The JSON grammar of RFC 8259 (sections 2 to 7) as derivation trees with every byte of
 insignificant whitespace kept, and the text each tree derives. A byte is carried by a
 char; the claims below quantify over all chars, so they include all byte values.
 */
module JsonText {

  type Bytes = seq<char>

  predicate IsSpace(c: char) {
    c == ' ' || c == '\t' || c == '\n' || c == '\r'
  }

  predicate AllSpace(s: Bytes) {
    forall i :: 0 <= i < |s| ==> IsSpace(s[i])
  }

  predicate IsDigit(c: char) {
    '0' <= c <= '9'
  }

  predicate IsHex(c: char) {
    IsDigit(c) || 'a' <= c <= 'f' || 'A' <= c <= 'F'
  }

  predicate AllDigits(s: Bytes) {
    forall i :: 0 <= i < |s| ==> IsDigit(s[i])
  }

  /** Section 7: unescaped / escape char / escape "u" 4HEXDIG. */
  datatype StringChar =
    | Plain(c: char)
    | Escape(c: char)
    | Unicode(h0: char, h1: char, h2: char, h3: char)
  {
    predicate Valid() {
      match this
      case Plain(c) => c != '\"' && c != '\\' && 0x20 <= c as int
      case Escape(c) => c in "\"\\/bfnrt"
      case Unicode(a, b, c, d) => IsHex(a) && IsHex(b) && IsHex(c) && IsHex(d)
    }

    function Text(): Bytes {
      match this
      case Plain(c) => [c]
      case Escape(c) => ['\\', c]
      case Unicode(a, b, c, d) => ['\\', 'u', a, b, c, d]
    }
  }

  predicate ValidChars(cs: seq<StringChar>) {
    forall i :: 0 <= i < |cs| ==> cs[i].Valid()
  }

  /** The raw bytes between the quotes. */
  function RawChars(cs: seq<StringChar>): Bytes {
    if cs == [] then [] else cs[0].Text() + RawChars(cs[1..])
  }

  function StringText(cs: seq<StringChar>): Bytes {
    "\"" + RawChars(cs) + "\""
  }

  /** Section 6: [ minus ] int [ frac ] [ exp ]. */
  datatype Number = Number(minus: bool, whole: Bytes, frac: Bytes, exp: Bytes) {
    predicate Valid() {
      && whole != [] && AllDigits(whole) && (whole[0] == '0' ==> |whole| == 1)
      && (frac == [] || (|frac| >= 2 && frac[0] == '.' && AllDigits(frac[1..])))
      && (exp == [] || ValidExp(exp))
    }

    static predicate ValidExp(e: Bytes) {
      && |e| >= 2 && (e[0] == 'e' || e[0] == 'E')
      && (if e[1] == '+' || e[1] == '-' then |e| >= 3 && AllDigits(e[2..]) else AllDigits(e[1..]))
    }

    function Text(): Bytes {
      (if minus then "-" else "") + whole + frac + exp
    }
  }

  /** Section 3: the values; Literal is one of the three literal names. */
  datatype Value =
    | Literal(name: Bytes)
    | Num(n: Number)
    | Str(chars: seq<StringChar>)
    | EmptyArray(gap: Bytes)
    | Array(elements: Elements)
    | EmptyObject(gap: Bytes)
    | Object(members: Members)

  /** Section 5: a nonempty comma-separated list of values. */
  datatype Elements =
    | LastElement(pre: Bytes, v: Value, post: Bytes)
    | MoreElements(pre: Bytes, v: Value, post: Bytes, rest: Elements)

  /** Section 4: a nonempty comma-separated list of members. */
  datatype Members =
    | LastMember(m: Member)
    | MoreMembers(m: Member, rest: Members)

  datatype Member = Member(pre: Bytes, key: seq<StringChar>, beforeColon: Bytes, afterColon: Bytes, v: Value,
                           post: Bytes)

  predicate ValidValue(v: Value) {
    match v
    case Literal(name) => name == "true" || name == "false" || name == "null"
    case Num(n) => n.Valid()
    case Str(cs) => ValidChars(cs)
    case EmptyArray(gap) => AllSpace(gap)
    case Array(es) => ValidElements(es)
    case EmptyObject(gap) => AllSpace(gap)
    case Object(ms) => ValidMembers(ms)
  }

  predicate ValidElements(es: Elements) {
    AllSpace(es.pre) && ValidValue(es.v) && AllSpace(es.post) && (es.MoreElements? ==> ValidElements(es.rest))
  }

  predicate ValidMembers(ms: Members) {
    ValidMember(ms.m) && (ms.MoreMembers? ==> ValidMembers(ms.rest))
  }

  predicate ValidMember(m: Member) {
    && AllSpace(m.pre) && ValidChars(m.key) && AllSpace(m.beforeColon) && AllSpace(m.afterColon)
    && ValidValue(m.v) && AllSpace(m.post)
  }

  function Text(v: Value): Bytes {
    match v
    case Literal(name) => name
    case Num(n) => n.Text()
    case Str(cs) => StringText(cs)
    case EmptyArray(gap) => "[" + gap + "]"
    case Array(es) => "[" + ElementsText(es) + "]"
    case EmptyObject(gap) => "{" + gap + "}"
    case Object(ms) => "{" + MembersText(ms) + "}"
  }

  function ElementsText(es: Elements): Bytes {
    es.pre + Text(es.v) + es.post + (if es.MoreElements? then "," + ElementsText(es.rest) else "")
  }

  function MembersText(ms: Members): Bytes {
    MemberText(ms.m) + (if ms.MoreMembers? then "," + MembersText(ms.rest) else "")
  }

  function MemberText(m: Member): Bytes {
    m.pre + StringText(m.key) + m.beforeColon + ":" + m.afterColon + Text(m.v) + m.post
  }

  /** The members of an object in order, as pairs of raw key bytes and value. */
  function MemberList(ms: Members): (r: seq<(Bytes, Value)>)
    ensures r != []
  {
    [(RawChars(ms.m.key), ms.m.v)] + (if ms.MoreMembers? then MemberList(ms.rest) else [])
  }

  function TopLevelMembers(v: Value): seq<(Bytes, Value)> {
    if v.Object? then MemberList(v.members) else []
  }
}
