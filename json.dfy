/**
 * The JSON the kernel puts on the wire and reads back: `JSON.stringify` of
 * a string (QuoteJSONString, ECMA-262 section 25.5.2.3), of the three
 * object shapes the handlers write (`{text, done}`, `{content}`,
 * `{error}`), and `JSON.parse` of any text into a JSON value (RFC 8259),
 * with the property reads and truthiness tests the page applies to it.
 */
module Json {
  import opened Wrappers
  import opened Strings

  function HexDigit(d: nat): char
    requires d < 16
  {
    if d < 10 then ('0' as int + d) as char else ('a' as int + d - 10) as char
  }

  function HexValue(c: char): (r: Option<nat>)
    ensures r.Some? ==> r.value < 16
  {
    if '0' <= c <= '9' then Some(c as int - '0' as int)
    else if 'a' <= c <= 'f' then Some(c as int - 'a' as int + 10)
    else if 'A' <= c <= 'F' then Some(c as int - 'A' as int + 10)
    else None
  }

  /** The code unit denoted by four hexadecimal digits. */
  function Hex4(t: string): (r: Option<nat>)
    requires |t| == 4
    ensures r.Some? ==> r.value < 0x1_0000
  {
    match (HexValue(t[0]), HexValue(t[1]), HexValue(t[2]), HexValue(t[3]))
    case (Some(a), Some(b), Some(c), Some(d)) => Some(a * 0x1000 + b * 0x100 + c * 0x10 + d)
    case _ => None
  }

  /** How `JSON.stringify` writes one character inside a string literal. */
  function EscapeChar(c: char): string {
    if c == '"' then ['\\', '"']
    else if c == '\\' then ['\\', '\\']
    else if c as int == 0x08 then ['\\', 'b']
    else if c == '\t' then ['\\', 't']
    else if c == '\n' then ['\\', 'n']
    else if c as int == 0x0C then ['\\', 'f']
    else if c == '\r' then ['\\', 'r']
    else if c as int < 0x20 then ['\\', 'u', '0', '0', HexDigit(c as int / 0x10), HexDigit(c as int % 0x10)]
    else [c]
  }

  /** The body of the string literal; it never holds a control character. */
  function Escape(s: string): (r: string)
    ensures forall k :: 0 <= k < |r| ==> r[k] as int >= 0x20
    decreases |s|
  {
    if s == [] then [] else EscapeChar(s[0]) + Escape(s[1..])
  }

  /** `JSON.stringify(s)` for a string `s`. */
  function Quote(s: string): string {
    "\"" + Escape(s) + "\""
  }

  /** A decoded string literal and the text that follows its closing quote. */
  datatype Scan = Scan(value: string, rest: string)

  function Cons(c: char, r: Option<Scan>): Option<Scan> {
    match r
    case None => None
    case Some(sc) => Some(Scan([c] + sc.value, sc.rest))
  }

  /** The character a two-character escape sequence `\c` stands for. */
  function Unescape(c: char): Option<char> {
    if c == '"' then Some('"')
    else if c == '\\' then Some('\\')
    else if c == '/' then Some('/')
    else if c == 'b' then Some(0x08 as char)
    else if c == 'f' then Some(0x0C as char)
    else if c == 'n' then Some('\n')
    else if c == 'r' then Some('\r')
    else if c == 't' then Some('\t')
    else None
  }

  /**
   * `JSON.parse` reading the inside of a string literal, from just after
   * the opening quote up to and including the closing quote. Raw control
   * characters and unknown escapes are syntax errors.
   */
  function ScanChars(t: string): (r: Option<Scan>)
    ensures r.Some? ==> |r.value.rest| < |t|
    decreases |t|
  {
    if t == [] then None
    else if t[0] == '"' then Some(Scan([], t[1..]))
    else if t[0] == '\\' then
      if |t| < 2 then None
      else if t[1] == 'u' then
        if |t| < 6 then None
        else match Hex4(t[2..6])
          case None => None
          case Some(v) =>
            if v < 0xD800 || 0xE000 <= v then Cons(v as char, ScanChars(t[6..])) else None
      else match Unescape(t[1])
        case None => None
        case Some(c) => Cons(c, ScanChars(t[2..]))
    else if t[0] as int < 0x20 then None
    else Cons(t[0], ScanChars(t[1..]))
  }

  /** `JSON.parse` reading a string literal at the start of `t`. */
  function ParseString(t: string): (r: Option<Scan>)
    ensures r.Some? ==> |r.value.rest| < |t|
  {
    if |t| > 0 && t[0] == '"' then ScanChars(t[1..]) else None
  }

  lemma ScanEscapedChar(c: char, t: string)
    ensures ScanChars(EscapeChar(c) + t) == Cons(c, ScanChars(t))
  {
    var u := EscapeChar(c) + t;
    var n := c as int;
    if c == '"' || c == '\\' || n == 0x08 || c == '\t' || c == '\n' || n == 0x0C || c == '\r' {
      assert u[2..] == t;
    } else if n < 0x20 {
      assert u[2..6] == ['0', '0', HexDigit(n / 0x10), HexDigit(n % 0x10)];
      assert u[6..] == t;
      assert (n as char) == c;
    } else {
      assert u[1..] == t;
    }
  }

  lemma {:induction false} ScanEscaped(s: string, rest: string)
    ensures ScanChars(Escape(s) + "\"" + rest) == Some(Scan(s, rest))
    decreases |s|
  {
    if s == [] {
      assert Escape(s) + "\"" + rest == ['"'] + rest;
    } else {
      assert Escape(s) + "\"" + rest == EscapeChar(s[0]) + (Escape(s[1..]) + "\"" + rest);
      ScanEscapedChar(s[0], Escape(s[1..]) + "\"" + rest);
      ScanEscaped(s[1..], rest);
      assert [s[0]] + s[1..] == s;
    }
  }

  /** Parsing what `JSON.stringify` wrote gives back the string and leaves what followed. */
  lemma QuoteRoundTrip(s: string, rest: string)
    ensures ParseString(Quote(s) + rest) == Some(Scan(s, rest))
  {
    assert (Quote(s) + rest)[1..] == Escape(s) + "\"" + rest;
    ScanEscaped(s, rest);
  }

  const TextKey := "{\"text\":"
  const DoneTrue := ",\"done\":true}"
  const DoneFalse := ",\"done\":false}"
  const ContentKey := "{\"content\":"
  const ErrorKey := "{\"error\":"

  /** The JSON objects the handlers serialise. */
  datatype Payload =
    | TextPayload(text: string, done: bool)
    | ContentPayload(content: string)
    | ErrorPayload(error: string)

  /** `JSON.stringify` of the payload object, with keys in insertion order. */
  function Stringify(p: Payload): string {
    match p
    case TextPayload(t, d) => TextKey + Quote(t) + (if d then DoneTrue else DoneFalse)
    case ContentPayload(c) => ContentKey + Quote(c) + "}"
    case ErrorPayload(e) => ErrorKey + Quote(e) + "}"
  }

  /** A value as `JSON.parse` builds it (RFC 8259 section 3); a number keeps its literal. */
  datatype Value =
    | Null
    | Bool(b: bool)
    | Number(literal: string)
    | Str(s: string)
    | Arr(items: seq<Value>)
    | Obj(members: seq<Member>)

  /** One name/value pair of an object, in the order written. */
  datatype Member = Member(key: string, value: Value)

  /** A value read from the front of a text, and the text after it. */
  datatype Read = Read(value: Value, rest: string)

  /** The four insignificant whitespace characters of RFC 8259 section 2. */
  predicate IsWs(c: char) {
    c == ' ' || c == '\t' || c == '\n' || c == '\r'
  }

  function SkipWs(s: string): (r: string)
    ensures |r| <= |s|
    ensures r == [] || !IsWs(r[0])
    ensures (s == [] || !IsWs(s[0])) ==> r == s
    decreases |s|
  {
    if s != [] && IsWs(s[0]) then SkipWs(s[1..]) else s
  }

  predicate IsDigit(c: char) {
    '0' <= c <= '9'
  }

  /** The number of digits at the front of `s`. */
  function DigitRun(s: string): (n: nat)
    ensures n <= |s|
    ensures forall k :: 0 <= k < n ==> IsDigit(s[k])
    ensures n == |s| || !IsDigit(s[n])
    decreases |s|
  {
    if s != [] && IsDigit(s[0]) then 1 + DigitRun(s[1..]) else 0
  }

  /**
   * The length of the number literal at the front of `s` (RFC 8259
   * section 6): an optional minus, an integer part without a leading zero,
   * an optional fraction and an optional exponent.
   */
  function NumberLength(s: string): (r: Option<nat>)
    ensures r.Some? ==> 0 < r.value <= |s|
  {
    var a := if s != [] && s[0] == '-' then 1 else 0;
    var n := DigitRun(s[a..]);
    if n == 0 || (s[a] == '0' && n > 1) then None
    else
      var i := a + n;
      var dot := i < |s| && s[i] == '.';
      var f := if dot then DigitRun(s[i + 1..]) else 0;
      if dot && f == 0 then None
      else
        var j := if dot then i + 1 + f else i;
        if j < |s| && (s[j] == 'e' || s[j] == 'E') then
          var b := if j + 1 < |s| && (s[j + 1] == '+' || s[j + 1] == '-') then j + 2 else j + 1;
          var e := DigitRun(s[b..]);
          if e == 0 then None else Some(b + e)
        else Some(j)
  }

  /** A value at the very front of `s`. */
  function ParseValue(s: string): (r: Option<Read>)
    ensures r.Some? ==> |r.value.rest| < |s|
    decreases |s|, 0
  {
    if s == [] then None
    else if s[0] == '{' then ParseObject(s[1..])
    else if s[0] == '[' then ParseArray(s[1..])
    else if s[0] == '"' then
      match ParseString(s)
      case None => None
      case Some(sc) => Some(Read(Str(sc.value), sc.rest))
    else if StartsWith(s, "true") then Some(Read(Bool(true), s[4..]))
    else if StartsWith(s, "false") then Some(Read(Bool(false), s[5..]))
    else if StartsWith(s, "null") then Some(Read(Null, s[4..]))
    else
      match NumberLength(s)
      case None => None
      case Some(n) => Some(Read(Number(s[..n]), s[n..]))
  }

  /** A value with the whitespace around it; the rest starts with no whitespace. */
  function ParseElement(s: string): (r: Option<Read>)
    ensures r.Some? ==> |r.value.rest| < |s|
    ensures r.Some? ==> r.value.rest == [] || !IsWs(r.value.rest[0])
    decreases |s|, 1
  {
    match ParseValue(SkipWs(s))
    case None => None
    case Some(p) => Some(Read(p.value, SkipWs(p.rest)))
  }

  /** The elements of a non-empty array and its closing bracket. */
  function ParseItems(s: string): (r: Option<Read>)
    ensures r.Some? ==> |r.value.rest| < |s| && r.value.value.Arr?
    decreases |s|, 2
  {
    match ParseElement(s)
    case None => None
    case Some(p) =>
      if p.rest != [] && p.rest[0] == ',' then
        match ParseItems(p.rest[1..])
        case None => None
        case Some(q) => Some(Read(Arr([p.value] + q.value.items), q.rest))
      else if p.rest != [] && p.rest[0] == ']' then Some(Read(Arr([p.value]), p.rest[1..]))
      else None
  }

  /** An array after its opening bracket. */
  function ParseArray(s: string): (r: Option<Read>)
    ensures r.Some? ==> |r.value.rest| < |s| && r.value.value.Arr?
    decreases |s|, 3
  {
    var t := SkipWs(s);
    if t != [] && t[0] == ']' then Some(Read(Arr([]), t[1..])) else ParseItems(t)
  }

  /** The members of a non-empty object and its closing brace. */
  function ParseMembers(s: string): (r: Option<Read>)
    ensures r.Some? ==> |r.value.rest| < |s| && r.value.value.Obj?
    decreases |s|, 2
  {
    match ParseString(SkipWs(s))
    case None => None
    case Some(k) =>
      var t := SkipWs(k.rest);
      if t == [] || t[0] != ':' then None
      else
        match ParseElement(t[1..])
        case None => None
        case Some(p) =>
          if p.rest != [] && p.rest[0] == ',' then
            match ParseMembers(p.rest[1..])
            case None => None
            case Some(q) => Some(Read(Obj([Member(k.value, p.value)] + q.value.members), q.rest))
          else if p.rest != [] && p.rest[0] == '}' then Some(Read(Obj([Member(k.value, p.value)]), p.rest[1..]))
          else None
  }

  /** An object after its opening brace. */
  function ParseObject(s: string): (r: Option<Read>)
    ensures r.Some? ==> |r.value.rest| < |s| && r.value.value.Obj?
    decreases |s|, 3
  {
    var t := SkipWs(s);
    if t != [] && t[0] == '}' then Some(Read(Obj([]), t[1..])) else ParseMembers(t)
  }

  /** `JSON.parse(s)`: None is the `SyntaxError` it throws. */
  function Parse(s: string): Option<Value> {
    match ParseElement(s)
    case None => None
    case Some(p) => if p.rest == [] then Some(p.value) else None
  }

  /** No member after position `k` carries `key`. */
  predicate LastWith(ms: seq<Member>, key: string, k: nat) {
    forall j :: k < j < |ms| ==> ms[j].key != key
  }

  /** The value of `key` among an object's members: a repeated key keeps its last value. */
  function Lookup(ms: seq<Member>, key: string): (r: Option<Value>)
    ensures r.Some? <==> exists k :: 0 <= k < |ms| && ms[k].key == key
    ensures r.Some? ==> exists k :: 0 <= k < |ms| && ms[k] == Member(key, r.value) && LastWith(ms, key, k)
    decreases |ms|
  {
    if ms == [] then None
    else if ms[|ms| - 1].key == key then Some(ms[|ms| - 1].value)
    else Lookup(ms[..|ms| - 1], key)
  }

  /**
   * `v.key` for a key no array, string, number or boolean carries (such as
   * `text` or `error`): the member of an object, and undefined (None)
   * otherwise. Reading it from `null` throws; callers handle that case.
   */
  function Property(v: Value, key: string): Option<Value> {
    if v.Obj? then Lookup(v.members, key) else None
  }

  /** The digits and signs before the exponent of a number literal. */
  function Mantissa(lit: string): string
    decreases |lit|
  {
    if lit == [] || lit[0] == 'e' || lit[0] == 'E' then [] else [lit[0]] + Mantissa(lit[1..])
  }

  /** JavaScript truthiness of a parsed value; a number is falsy when all its digits are zero. */
  predicate Truthy(v: Value) {
    match v
    case Null => false
    case Bool(b) => b
    case Number(lit) => exists c :: c in Mantissa(lit) && '1' <= c <= '9'
    case Str(s) => s != []
    case Arr(_) => true
    case Obj(_) => true
  }

  /** The object `JSON.parse` builds from a serialised payload. */
  function ToValue(p: Payload): Value {
    match p
    case TextPayload(t, d) => Obj([Member("text", Str(t)), Member("done", Bool(d))])
    case ContentPayload(c) => Obj([Member("content", Str(c))])
    case ErrorPayload(e) => Obj([Member("error", Str(e))])
  }

  /** An element that starts with no whitespace is the value at its front. */
  lemma ElementAt(s: string)
    requires s == [] || !IsWs(s[0])
    ensures ParseElement(s) == match ParseValue(s)
      case None => None
      case Some(p) => Some(Read(p.value, SkipWs(p.rest)))
  {
  }

  /** A string literal followed by text not starting with whitespace. */
  lemma ElementString(x: string, rest: string)
    requires rest == [] || !IsWs(rest[0])
    ensures ParseElement(Quote(x) + rest) == Some(Read(Str(x), rest))
  {
    var s := Quote(x) + rest;
    assert s[0] == '"';
    QuoteRoundTrip(x, rest);
    ElementAt(s);
  }

  /** A member whose key reads as `key` up to the colon, then the closing brace. */
  lemma MembersLastStep(s: string, key: string, after: string, v: Value, tail: string)
    requires s != [] && s[0] == '"' && ParseString(s) == Some(Scan(key, after))
    requires after != [] && after[0] == ':'
    requires ParseElement(after[1..]) == Some(Read(v, "}" + tail))
    ensures ParseMembers(s) == Some(Read(Obj([Member(key, v)]), tail))
  {
    assert ("}" + tail)[1..] == tail;
  }

  /** A member whose key reads as `key` up to the colon, then a comma and further members. */
  lemma MembersConsStep(s: string, key: string, after: string, v: Value, more: string, q: Read)
    requires s != [] && s[0] == '"' && ParseString(s) == Some(Scan(key, after))
    requires after != [] && after[0] == ':'
    requires ParseElement(after[1..]) == Some(Read(v, "," + more))
    requires ParseMembers(more) == Some(q)
    ensures q.value.Obj?
    ensures ParseMembers(s) == Some(Read(Obj([Member(key, v)] + q.value.members), q.rest))
  {
    assert ("," + more)[1..] == more;
  }

  /** The last member of an object: `key`, a colon, then an element followed by the closing brace. */
  lemma MembersLast(key: string, v: Value, e: string, tail: string)
    requires ParseElement(e) == Some(Read(v, "}" + tail))
    ensures ParseMembers(Quote(key) + ":" + e) == Some(Read(Obj([Member(key, v)]), tail))
  {
    var after := ":" + e;
    var s := Quote(key) + after;
    assert s == Quote(key) + ":" + e;
    QuoteRoundTrip(key, after);
    assert after[1..] == e;
    assert s[0] == '"';
    MembersLastStep(s, key, after, v, tail);
  }

  /** A member followed by a comma and further members. */
  lemma MembersCons(key: string, v: Value, e: string, more: string, q: Read)
    requires ParseElement(e) == Some(Read(v, "," + more))
    requires ParseMembers(more) == Some(q)
    ensures q.value.Obj?
    ensures ParseMembers(Quote(key) + ":" + e) == Some(Read(Obj([Member(key, v)] + q.value.members), q.rest))
  {
    var after := ":" + e;
    var s := Quote(key) + after;
    assert s == Quote(key) + ":" + e;
    QuoteRoundTrip(key, after);
    assert after[1..] == e;
    assert s[0] == '"';
    MembersConsStep(s, key, after, v, more, q);
  }

  /** A string of characters `JSON.stringify` writes as they are. */
  predicate Plain(s: string) {
    forall k :: 0 <= k < |s| ==> s[k] as int >= 0x20 && s[k] != '"' && s[k] != '\\'
  }

  lemma {:induction false} PlainEscape(s: string)
    requires Plain(s)
    ensures Escape(s) == s
    decreases |s|
  {
    if s != [] {
      PlainEscape(s[1..]);
      assert [s[0]] + s[1..] == s;
    }
  }

  lemma PlainQuote(k: string)
    requires Plain(k)
    ensures Quote(k) == "\"" + k + "\""
  {
    PlainEscape(k);
  }

  /** A key of plain characters, given with its quoted form written out. */
  lemma QuotedKey(key: string, qk: string)
    requires Plain(key) && qk == "\"" + key + "\""
    ensures Quote(key) == qk
  {
    PlainQuote(key);
  }

  /** The serialised `{text, done}` object, member by member. */
  lemma TextShape(t: string, d: bool)
    ensures Stringify(TextPayload(t, d)) == "{" + "\"text\"" + ":"
      + (Quote(t) + ("," + ("\"done\"" + ":" + ((if d then "true" else "false") + ("}" + "")))))
  {
    DoneWith("\"done\"", d);
    Regroup(TextKey, Quote(t), if d then DoneTrue else DoneFalse, "{" + "\"text\"" + ":",
      "," + ("\"done\"" + ":" + ((if d then "true" else "false") + ("}" + ""))));
  }

  lemma DoneWith(qd: string, d: bool)
    requires qd == "\"done\""
    ensures (if d then DoneTrue else DoneFalse) == "," + (qd + ":" + ((if d then "true" else "false") + ("}" + "")))
  {
  }

  lemma Regroup(key: string, q: string, tail: string, key': string, tail': string)
    requires key == key' && tail == tail'
    ensures key + q + tail == key' + (q + tail')
  {
  }

  /** The serialised one-member objects. */
  lemma OneMemberShape(p: Payload)
    requires !p.TextPayload?
    ensures p.ContentPayload? ==> Stringify(p) == "{" + "\"content\"" + ":" + (Quote(p.content) + ("}" + ""))
    ensures p.ErrorPayload? ==> Stringify(p) == "{" + "\"error\"" + ":" + (Quote(p.error) + ("}" + ""))
  {
    if p.ContentPayload? {
      RegroupOne(ContentKey, Quote(p.content), "{" + "\"content\"" + ":");
    } else {
      RegroupOne(ErrorKey, Quote(p.error), "{" + "\"error\"" + ":");
    }
  }

  lemma RegroupOne(key: string, q: string, key': string)
    requires key == key'
    ensures key + q + "}" == key' + (q + ("}" + ""))
  {
  }

  /** An object: its opening brace, then members starting with a key. */
  lemma ObjectAt(body: string, v: Value)
    requires body != [] && body[0] == '"'
    requires ParseMembers(body) == Some(Read(v, ""))
    ensures Parse("{" + body) == Some(v)
  {
    var s := "{" + body;
    assert s[1..] == body;
    ElementAt(s);
  }

  /** An object written with one member, then nothing. */
  lemma OneMemberObject(key: string, x: string)
    ensures Parse("{" + Quote(key) + ":" + (Quote(x) + ("}" + ""))) == Some(Obj([Member(key, Str(x))]))
  {
    var e := Quote(x) + ("}" + "");
    var body := Quote(key) + ":" + e;
    ElementString(x, "}" + "");
    MembersLast(key, Str(x), e, "");
    assert body[0] == '"';
    ObjectAt(body, Obj([Member(key, Str(x))]));
    assert "{" + Quote(key) + ":" + e == "{" + body;
  }

  /** A value that starts with no whitespace and leaves a rest that starts with none. */
  lemma ValueElement(s: string, v: Value, rest: string)
    requires s != [] && !IsWs(s[0]) && (rest == [] || !IsWs(rest[0]))
    requires ParseValue(s) == Some(Read(v, rest))
    ensures ParseElement(s) == Some(Read(v, rest))
  {
    ElementAt(s);
  }

  lemma BoolValue(s: string, d: bool, rest: string)
    requires s == (if d then "true" else "false") + rest
    ensures ParseValue(s) == Some(Read(Bool(d), rest))
  {
    if d {
      assert s[..4] == "true" && s[4..] == rest;
    } else {
      assert s[..5] == "false" && s[5..] == rest;
      assert s[1] == 'a';
    }
  }

  lemma LiteralElement(d: bool, rest: string)
    requires rest == [] || !IsWs(rest[0])
    ensures ParseElement((if d then "true" else "false") + rest) == Some(Read(Bool(d), rest))
  {
    var s := (if d then "true" else "false") + rest;
    BoolValue(s, d, rest);
    ValueElement(s, Bool(d), rest);
  }

  /** A string member then a boolean member, after an object's opening brace. */
  lemma TwoMembers(k1: string, x: string, k2: string, d: bool, more: string)
    requires more == Quote(k2) + ":" + ((if d then "true" else "false") + ("}" + ""))
    ensures ParseMembers(Quote(k1) + ":" + (Quote(x) + ("," + more)))
      == Some(Read(Obj([Member(k1, Str(x)), Member(k2, Bool(d))]), ""))
  {
    var e2 := (if d then "true" else "false") + ("}" + "");
    LiteralElement(d, "}" + "");
    MembersLast(k2, Bool(d), e2, "");
    ElementString(x, "," + more);
    MembersCons(k1, Str(x), Quote(x) + ("," + more), more, Read(Obj([Member(k2, Bool(d))]), ""));
    assert [Member(k1, Str(x))] + [Member(k2, Bool(d))] == [Member(k1, Str(x)), Member(k2, Bool(d))];
  }

  /** An object written with a string member then a boolean member. */
  lemma TwoMemberObject(k1: string, x: string, k2: string, d: bool)
    ensures Parse("{" + Quote(k1) + ":" + (Quote(x) + ("," + (Quote(k2) + ":" + ((if d then "true" else "false") + ("}" + ""))))))
      == Some(Obj([Member(k1, Str(x)), Member(k2, Bool(d))]))
  {
    var more := Quote(k2) + ":" + ((if d then "true" else "false") + ("}" + ""));
    var body := Quote(k1) + ":" + (Quote(x) + ("," + more));
    TwoMembers(k1, x, k2, d, more);
    assert body[0] == '"';
    ObjectAt(body, Obj([Member(k1, Str(x)), Member(k2, Bool(d))]));
    assert "{" + Quote(k1) + ":" + (Quote(x) + ("," + more)) == "{" + body;
  }

  /** `TwoMemberObject` with both keys given in their quoted form. */
  lemma TwoPlainMembers(k1: string, q1: string, x: string, k2: string, q2: string, d: bool)
    requires Plain(k1) && q1 == "\"" + k1 + "\""
    requires Plain(k2) && q2 == "\"" + k2 + "\""
    ensures Parse("{" + q1 + ":" + (Quote(x) + ("," + (q2 + ":" + ((if d then "true" else "false") + ("}" + ""))))))
      == Some(Obj([Member(k1, Str(x)), Member(k2, Bool(d))]))
  {
    QuotedKey(k1, q1);
    QuotedKey(k2, q2);
    TwoMemberObject(k1, x, k2, d);
  }

  lemma TextObject(t: string, d: bool)
    ensures Parse(Stringify(TextPayload(t, d))) == Some(ToValue(TextPayload(t, d)))
  {
    TextShape(t, d);
    TwoPlainMembers("text", "\"text\"", t, "done", "\"done\"", d);
  }

  /** `OneMemberObject` with the key given in its quoted form. */
  lemma OnePlainMember(key: string, qk: string, x: string)
    requires Plain(key) && qk == "\"" + key + "\""
    ensures Parse("{" + qk + ":" + (Quote(x) + ("}" + ""))) == Some(Obj([Member(key, Str(x))]))
  {
    QuotedKey(key, qk);
    OneMemberObject(key, x);
  }

  lemma NullValue(s: string, rest: string)
    requires s == "null" + rest
    ensures ParseValue(s) == Some(Read(Null, rest))
  {
    assert s[..4] == "null" && s[4..] == rest;
    assert s[0] == 'n' && s[1] == 'u';
  }

  lemma NullElement(rest: string)
    requires rest == [] || !IsWs(rest[0])
    ensures ParseElement("null" + rest) == Some(Read(Null, rest))
  {
    var s := "null" + rest;
    NullValue(s, rest);
    ValueElement(s, Null, rest);
  }

  /** The body `null`. */
  lemma ParseNull()
    ensures Parse("null") == Some(Null)
  {
    NullElement("");
    assert "null" + "" == "null";
  }

  /** The empty object. */
  lemma ParseEmptyObject()
    ensures Parse("{}") == Some(Obj([]))
  {
    assert ParseObject("}") == Some(Read(Obj([]), ""));
    ElementAt("{}");
    assert ParseValue("{}") == ParseObject("}");
  }

  /** An object written with one member whose value is `null`. */
  lemma OneNullMember(key: string)
    ensures Parse("{" + Quote(key) + ":" + ("null" + ("}" + ""))) == Some(Obj([Member(key, Null)]))
  {
    var e := "null" + ("}" + "");
    NullElement("}" + "");
    MembersLast(key, Null, e, "");
    var body := Quote(key) + ":" + e;
    assert body[0] == '"';
    ObjectAt(body, Obj([Member(key, Null)]));
    assert "{" + Quote(key) + ":" + e == "{" + body;
  }

  /** `OneNullMember` with the key given in its quoted form. */
  lemma PlainNullMember(key: string, qk: string)
    requires Plain(key) && qk == "\"" + key + "\""
    ensures Parse("{" + qk + ":" + ("null" + ("}" + ""))) == Some(Obj([Member(key, Null)]))
  {
    QuotedKey(key, qk);
    OneNullMember(key);
  }

  /** An object whose `error` is `null`. */
  lemma ParseErrorNull()
    ensures Parse("{\"error\":null}") == Some(Obj([Member("error", Null)]))
  {
    PlainNullMember("error", "\"error\"");
    assert "{" + "\"error\"" + ":" + ("null" + ("}" + "")) == "{\"error\":null}";
  }

  /** Every serialised payload parses back to the object it was written from. */
  lemma ParseStringify(p: Payload)
    ensures Parse(Stringify(p)) == Some(ToValue(p))
  {
    match p
    case TextPayload(t, d) =>
      TextObject(t, d);
    case ContentPayload(c) =>
      OneMemberShape(p);
      OnePlainMember("content", "\"content\"", c);
    case ErrorPayload(e) =>
      OneMemberShape(p);
      OnePlainMember("error", "\"error\"", e);
  }

  /** What the page reads from a payload: `text` only from a `{text, done}` object, `error` only from `{error}`. */
  lemma StringifyProperties(p: Payload)
    ensures Parse(Stringify(p)).Some?
    ensures Property(Parse(Stringify(p)).value, "text") == if p.TextPayload? then Some(Str(p.text)) else None
    ensures Property(Parse(Stringify(p)).value, "error") == if p.ErrorPayload? then Some(Str(p.error)) else None
  {
    ParseStringify(p);
    var ms := ToValue(p).members;
    assert "done"[0] != "text"[0] && "done"[0] != "error"[0];
    assert "content"[0] != "text"[0] && "content"[0] != "error"[0];
    assert "error"[0] != "text"[0] && "text"[0] != "error"[0];
    if p.TextPayload? {
      var first := ms[..1];
      assert first == [Member("text", Str(p.text))];
      assert Lookup(first, "error") == Lookup(first[..0], "error");
    } else {
      assert ms[..0] == [];
    }
  }

  /** No character of `s` is a control character. */
  predicate Printable(s: string) {
    forall k :: 0 <= k < |s| ==> s[k] as int >= 0x20
  }

  lemma PrintableConcat(a: string, b: string)
    requires Printable(a) && Printable(b)
    ensures Printable(a + b)
  {
    forall k | 0 <= k < |a + b| ensures (a + b)[k] as int >= 0x20 {
      if k >= |a| { assert (a + b)[k] == b[k - |a|]; }
    }
  }

  lemma QuotedPrintable(key: string, body: string, tail: string)
    requires Printable(key) && Printable(tail)
    ensures Printable(key + Quote(body) + tail)
  {
    assert Printable("\"");
    PrintableConcat("\"", Escape(body));
    PrintableConcat("\"" + Escape(body), "\"");
    PrintableConcat(key, Quote(body));
    PrintableConcat(key + Quote(body), tail);
  }

  /** A serialised payload holds no control character, so it never spans two lines. */
  lemma StringifyOneLine(p: Payload)
    ensures Printable(Stringify(p))
    ensures '\n' !in Stringify(p)
  {
    match p
    case TextPayload(t, d) =>
      assert Printable(TextKey) && Printable(DoneTrue) && Printable(DoneFalse);
      QuotedPrintable(TextKey, t, if d then DoneTrue else DoneFalse);
    case ContentPayload(c) =>
      assert Printable(ContentKey) && Printable("}");
      QuotedPrintable(ContentKey, c, "}");
    case ErrorPayload(e) =>
      assert Printable(ErrorKey) && Printable("}");
      QuotedPrintable(ErrorKey, e, "}");
  }
}
