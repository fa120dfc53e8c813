/**
 * The JSON documents the application writes to and reads back from the
 * browser store: `JSON.stringify` of small records and `JSON.parse` of what
 * was stored. Only what those records need is modelled: null, booleans,
 * integers, strings and objects (no arrays, no fractions).
 */
module Json {
  import opened JsString

  datatype Json = Null | Bool(b: bool) | Num(n: int) | Str(s: string) | Obj(members: seq<Member>)
  datatype Member = Member(key: string, value: Json)

  /** JavaScript truthiness of a parsed value, as used by `x || fallback`. */
  predicate Truthy(j: Json) {
    match j
    case Null => false
    case Bool(b) => b
    case Num(n) => n != 0
    case Str(s) => s != ""
    case Obj(_) => true
  }

  /** Property read `o.key` on a parsed object: the last member with that key
      wins, as in `JSON.parse`; `None` stands for `undefined`. */
  function Lookup(ms: seq<Member>, key: string): (r: Option<Json>)
    ensures r.None? <==> forall i :: 0 <= i < |ms| ==> ms[i].key != key
    ensures r.Some? ==> exists i :: 0 <= i < |ms| && ms[i] == Member(key, r.value) &&
                          forall j :: i < j < |ms| ==> ms[j].key != key
    decreases |ms|
  {
    if ms == [] then None
    else if ms[|ms| - 1].key == key then Some(ms[|ms| - 1].value)
    else Lookup(ms[..|ms| - 1], key)
  }

  // ---------------------------------------------------------------------
  // JSON.stringify
  // ---------------------------------------------------------------------

  function HexDigit(d: nat): char
    requires d < 16
  {
    "0123456789abcdef"[d]
  }

  /** How `JSON.stringify` writes one unit of a string's contents. */
  function EscapeUnit(c: char): string {
    if c == '"' then "\\\""
    else if c == '\\' then "\\\\"
    else if c == '\n' then "\\n"
    else if c == '\r' then "\\r"
    else if c == '\t' then "\\t"
    else if c == '\U{0008}' then "\\b"
    else if c == '\U{000C}' then "\\f"
    else if c < ' ' then "\\u00" + [HexDigit(c as int / 16), HexDigit(c as int % 16)]
    else [c]
  }

  function Escape(s: string): string
    decreases |s|
  {
    if s == [] then [] else EscapeUnit(s[0]) + Escape(s[1..])
  }

  function Quote(s: string): string {
    "\"" + Escape(s) + "\""
  }

  function Number(n: int): string {
    if n < 0 then "-" + Decimal(-n) else Decimal(n)
  }

  function Stringify(j: Json): string
    decreases j, 2
  {
    match j
    case Null => "null"
    case Bool(b) => if b then "true" else "false"
    case Num(n) => Number(n)
    case Str(s) => Quote(s)
    case Obj(ms) => "{" + StringifyMembers(ms) + "}"
  }

  function StringifyMember(m: Member): string
    decreases m, 1
  {
    Quote(m.key) + ":" + Stringify(m.value)
  }

  function StringifyMembers(ms: seq<Member>): string
    decreases ms, 0
  {
    if ms == [] then ""
    else if |ms| == 1 then StringifyMember(ms[0])
    else StringifyMember(ms[0]) + "," + StringifyMembers(ms[1..])
  }

  /** `String(v)`: what `localStorage.setItem` stores for a value that is
      not a string. */
  function StringOf(j: Json): string {
    match j
    case Null => "null"
    case Bool(b) => if b then "true" else "false"
    case Num(n) => Number(n)
    case Str(s) => s
    case Obj(_) => "[object Object]"
  }

  /** The property read `j.key` on a parsed value; `None` stands for
      `undefined`, which is what a primitive gives. Reading a property of
      `null` throws, which callers decide before reading. */
  function Property(j: Json, key: string): (r: Option<Json>)
    ensures !j.Obj? ==> r.None?
  {
    if j.Obj? then Lookup(j.members, key) else None
  }

  /** What `localStorage.setItem(key, v)` stores for a property read `v`. */
  function ItemText(v: Option<Json>): string {
    match v
    case None => "undefined"
    case Some(j) => StringOf(j)
  }

  // ---------------------------------------------------------------------
  // JSON.parse, on the text JSON.stringify writes
  // ---------------------------------------------------------------------

  function HexValue(c: char): (r: Option<nat>)
    ensures r.Some? ==> r.value < 16
  {
    if '0' <= c <= '9' then Some(c as int - 48)
    else if 'a' <= c <= 'f' then Some(c as int - 87)
    else if 'A' <= c <= 'F' then Some(c as int - 55)
    else None
  }

  /** The unit an escape sequence `\x` or `\uXXXX` at the head of `s` stands
      for, with the number of units it takes. */
  function EscapeAt(s: string): (r: Option<(char, nat)>)
    requires |s| >= 2 && s[0] == '\\'
    ensures r.Some? ==> 2 <= r.value.1 <= |s|
  {
    var e := s[1];
    if e == '"' then Some(('"', 2))
    else if e == '\\' then Some(('\\', 2))
    else if e == '/' then Some(('/', 2))
    else if e == 'b' then Some(('\U{0008}', 2))
    else if e == 'f' then Some(('\U{000C}', 2))
    else if e == 'n' then Some(('\n', 2))
    else if e == 'r' then Some(('\r', 2))
    else if e == 't' then Some(('\t', 2))
    else if e == 'u' && |s| >= 6 then
      match (HexValue(s[2]), HexValue(s[3]), HexValue(s[4]), HexValue(s[5]))
      case (Some(a), Some(b), Some(c), Some(d)) =>
        var v := ((a * 16 + b) * 16 + c) * 16 + d;
        // a lone surrogate is not a `char` here
        if 0xD800 <= v < 0xE000 then None else Some((v as char, 6))
      case _ => None
    else None
  }

  /** The contents of a string literal whose opening quote is already read,
      with the text after its closing quote. */
  function ParseChars(s: string): (r: Option<(string, string)>)
    ensures r.Some? ==> |r.value.1| < |s|
    decreases |s|
  {
    if s == [] then None
    else if s[0] == '"' then Some(("", s[1..]))
    else if s[0] == '\\' then
      if |s| < 2 then None
      else match EscapeAt(s)
        case None => None
        case Some((c, k)) =>
          match ParseChars(s[k..])
          case None => None
          case Some((t, rest)) => Some(([c] + t, rest))
    else if s[0] < ' ' then None
    else match ParseChars(s[1..])
      case None => None
      case Some((t, rest)) => Some(([s[0]] + t, rest))
  }

  /** One value at the head of `s`, with the text after it. */
  function ParseValue(s: string): (r: Option<(Json, string)>)
    ensures r.Some? ==> |r.value.1| < |s|
    decreases |s|, 1
  {
    if s == [] then None
    else if s[0] == 'n' then
      if |s| >= 4 && s[..4] == "null" then Some((Null, s[4..])) else None
    else if s[0] == 't' then
      if |s| >= 4 && s[..4] == "true" then Some((Bool(true), s[4..])) else None
    else if s[0] == 'f' then
      if |s| >= 5 && s[..5] == "false" then Some((Bool(false), s[5..])) else None
    else if s[0] == '"' then
      match ParseChars(s[1..])
      case None => None
      case Some((t, rest)) => Some((Str(t), rest))
    else if s[0] == '-' then
      // an integer part is `0` or starts with a digit other than `0`
      var k := DigitRun(s, 1);
      if k == 1 || (k > 2 && s[1] == '0') then None
      else Some((Num(-(DigitsValue(s[1..k]) as int)), s[k..]))
    else if IsDigit(s[0]) then
      var k := DigitRun(s, 0);
      if k > 1 && s[0] == '0' then None
      else Some((Num(DigitsValue(s[..k])), s[k..]))
    else if s[0] == '{' then
      if |s| >= 2 && s[1] == '}' then Some((Obj([]), s[2..]))
      else
        match ParseMembers(s[1..])
        case None => None
        case Some((ms, rest)) => Some((Obj(ms), rest))
    else None
  }

  /** The members of an object after its `{` (or after a `,`), through the
      closing `}`, with the text after it. */
  function ParseMembers(s: string): (r: Option<(seq<Member>, string)>)
    ensures r.Some? ==> |r.value.1| < |s|
    decreases |s|, 0
  {
    if s == [] || s[0] != '"' then None
    else
      match ParseChars(s[1..])
      case None => None
      case Some((key, r1)) =>
        if r1 == [] || r1[0] != ':' then None
        else
          match ParseValue(r1[1..])
          case None => None
          case Some((v, r2)) =>
            if r2 == [] then None
            else if r2[0] == '}' then Some(([Member(key, v)], r2[1..]))
            else if r2[0] == ',' then
              match ParseMembers(r2[1..])
              case None => None
              case Some((ms, r3)) => Some(([Member(key, v)] + ms, r3))
            else None
  }

  /** `JSON.parse(s)`; `None` where it throws. */
  function Parse(s: string): Option<Json> {
    match ParseValue(s)
    case Some((j, rest)) => if rest == [] then Some(j) else None
    case None => None
  }

  // ---------------------------------------------------------------------
  // Round trip
  // ---------------------------------------------------------------------

  /** What may follow a value inside the text `Stringify` writes. */
  predicate Delimited(rest: string) {
    rest == [] || rest[0] == ',' || rest[0] == '}'
  }

  lemma HexRoundTrip(d: nat)
    requires d < 16
    ensures HexValue(HexDigit(d)) == Some(d)
  {
  }

  /** A control unit written as `\u00XX` reads back as itself. */
  lemma ControlRoundTrip(c: char, t: string)
    requires c < ' ' && c != '\n' && c != '\r' && c != '\t' && c != '\U{0008}' && c != '\U{000C}'
    ensures var s := EscapeUnit(c) + t;
      |s| >= 6 && s[0] == '\\' && EscapeAt(s) == Some((c, 6)) && s[6..] == t
  {
    var s := EscapeUnit(c) + t;
    var hi, lo := c as int / 16, c as int % 16;
    HexRoundTrip(hi);
    HexRoundTrip(lo);
    HexRoundTrip(0);
    assert EscapeUnit(c) == "\\u00" + [HexDigit(hi), HexDigit(lo)];
    assert s[..6] == EscapeUnit(c);
    assert s[6..] == t;
  }

  lemma {:induction false} EscapeUnitRoundTrip(c: char, t: string)
    ensures ParseChars(EscapeUnit(c) + t) ==
      match ParseChars(t)
      case None => None
      case Some((x, rest)) => Some(([c] + x, rest))
  {
    var s := EscapeUnit(c) + t;
    if c < ' ' && c != '\n' && c != '\r' && c != '\t' && c != '\U{0008}' && c != '\U{000C}' {
      ControlRoundTrip(c, t);
    } else if c == '"' || c == '\\' || c == '\n' || c == '\r' || c == '\t' || c == '\U{0008}' || c == '\U{000C}' {
      assert s[2..] == t;
    } else {
      assert s[1..] == t;
    }
  }

  /** A quoted string reads back as the string that was written. */
  lemma {:induction false} EscapeRoundTrip(s: string, rest: string)
    ensures ParseChars(Escape(s) + "\"" + rest) == Some((s, rest))
    decreases |s|
  {
    if s == [] {
      assert Escape(s) + "\"" + rest == "\"" + rest;
    } else {
      EscapeRoundTrip(s[1..], rest);
      var u, e := EscapeUnit(s[0]), Escape(s[1..]);
      assert Escape(s) == u + e;
      Assoc(u, e, "\"");
      Assoc(u, e + "\"", rest);
      EscapeUnitRoundTrip(s[0], e + "\"" + rest);
      assert [s[0]] + s[1..] == s;
    }
  }

  lemma {:induction false} NaturalRoundTrip(n: nat, rest: string)
    requires Delimited(rest)
    ensures ParseValue(Decimal(n) + rest) == Some((Num(n), rest))
  {
    var d := Decimal(n);
    var s := d + rest;
    DigitRunOfDecimal("", n, rest);
    assert "" + d + rest == s;
    assert s[..|d|] == d;
    DecimalValue(n);
    assert s[|d|..] == rest;
    assert IsDigit(s[0]);
    DecimalLeading(n);
    DigitsAt(s);
  }

  /** `ParseValue` on text that starts with a digit. */
  lemma DigitsAt(s: string)
    requires s != [] && IsDigit(s[0]) && (DigitRun(s, 0) == 1 || s[0] != '0')
    ensures ParseValue(s) == Some((Num(DigitsValue(s[..DigitRun(s, 0)])), s[DigitRun(s, 0)..]))
  {
  }

  /** `ParseValue` on text that starts with a string literal. */
  lemma QuotedAt(s: string)
    requires s != [] && s[0] == '"' && ParseChars(s[1..]).Some?
    ensures ParseValue(s) == Some((Str(ParseChars(s[1..]).value.0), ParseChars(s[1..]).value.1))
  {
  }

  lemma {:induction false} NegativeRoundTrip(n: nat, rest: string)
    requires n > 0 && Delimited(rest)
    ensures ParseValue("-" + Decimal(n) + rest) == Some((Num(-(n as int)), rest))
  {
    var d := Decimal(n);
    var s := "-" + d + rest;
    DigitRunOfDecimal("-", n, rest);
    assert s[1..1 + |d|] == d;
    DecimalValue(n);
    assert s[1 + |d|..] == rest;
    assert s[0] == '-';
    DecimalLeading(n);
    assert s[1] == d[0];
  }

  /** `String(n)` starts with `0` only for zero itself. */
  lemma {:induction false} DecimalLeading(n: nat)
    ensures Decimal(n)[0] == '0' <==> n == 0
    ensures |Decimal(n)| == 1 <==> n < 10
    decreases n
  {
    if n >= 10 {
      DecimalLeading(n / 10);
      assert Decimal(n)[0] == Decimal(n / 10)[0];
    }
  }

  /** A number with a leading zero (`007`, `-01`) is no JSON text. */
  lemma LeadingZeroRejected(neg: bool, d: char, t: string)
    requires IsDigit(d)
    ensures Parse((if neg then "-" else "") + "0" + [d] + t) == None
  {
    var s := (if neg then "-" else "") + "0" + [d] + t;
    var i := if neg then 1 else 0;
    assert s[i] == '0' && s[i + 1] == d;
    assert DigitRun(s, i) == DigitRun(s, i + 2);
  }

  lemma {:induction false} NumberRoundTrip(n: int, rest: string)
    requires Delimited(rest)
    ensures ParseValue(Number(n) + rest) == Some((Num(n), rest))
  {
    if n < 0 {
      NegativeRoundTrip(-n, rest);
    } else {
      NaturalRoundTrip(n, rest);
    }
  }

  lemma StrRoundTrip(t: string, rest: string)
    requires Delimited(rest)
    ensures ParseValue(Quote(t) + rest) == Some((Str(t), rest))
  {
    var s := Quote(t) + rest;
    assert s[0] == '"';
    assert s[1..] == Escape(t) + "\"" + rest;
    EscapeRoundTrip(t, rest);
    QuotedAt(s);
  }

  lemma LiteralRoundTrip(j: Json, rest: string)
    requires j.Null? || j.Bool?
    ensures ParseValue(Stringify(j) + rest) == Some((j, rest))
  {
    var s := Stringify(j) + rest;
    if j.Null? {
      assert s[0] == 'n' && s[..4] == "null" && s[4..] == rest;
    } else if j.b {
      assert s[0] == 't' && s[..4] == "true" && s[4..] == rest;
    } else {
      assert s[0] == 'f' && s[..5] == "false" && s[5..] == rest;
    }
  }

  /** Reading back the text of a value gives the value, whatever delimiter
      follows it. */
  lemma {:induction false} ValueRoundTrip(j: Json, rest: string)
    requires Delimited(rest)
    ensures ParseValue(Stringify(j) + rest) == Some((j, rest))
    decreases j, 4
  {
    match j
    case Null => LiteralRoundTrip(j, rest);
    case Bool(_) => LiteralRoundTrip(j, rest);
    case Num(n) => NumberRoundTrip(n, rest);
    case Str(t) => StrRoundTrip(t, rest);
    case Obj(ms) => ObjRoundTrip(ms, rest);
  }

  lemma {:induction false} ObjRoundTrip(ms: seq<Member>, rest: string)
    requires Delimited(rest)
    ensures ParseValue("{" + StringifyMembers(ms) + "}" + rest) == Some((Obj(ms), rest))
    decreases ms, 3
  {
    if ms == [] {
      assert "{" + StringifyMembers(ms) + "}" + rest == "{}" + rest;
      EmptyObject(rest);
    } else {
      var body := StringifyMembers(ms) + "}" + rest;
      MembersRoundTrip(ms, rest);
      assert "{" + StringifyMembers(ms) + "}" + rest == "{" + body;
      assert body[0] == '"';
      ObjectBody(body);
    }
  }

  lemma EmptyObject(rest: string)
    ensures ParseValue("{}" + rest) == Some((Obj([]), rest))
  {
    var s := "{}" + rest;
    assert s[0] == '{' && s[1] == '}' && s[2..] == rest;
  }

  /** An object whose first member starts right after the brace. */
  lemma ObjectBody(body: string)
    requires body != [] && body[0] == '"' && ParseMembers(body).Some?
    ensures ParseValue("{" + body) == Some((Obj(ParseMembers(body).value.0), ParseMembers(body).value.1))
  {
    var s := "{" + body;
    assert s[0] == '{' && s[1] == '"' && s[1..] == body;
  }

  /** The key of a member, read back. */
  lemma KeyRoundTrip(m: Member, tail: string)
    ensures var s := StringifyMember(m) + tail;
      s[0] == '"' && ParseChars(s[1..]) == Some((m.key, ":" + Stringify(m.value) + tail))
  {
    var after := ":" + Stringify(m.value) + tail;
    var s := StringifyMember(m) + tail;
    assert s == "\"" + (Escape(m.key) + "\"" + after);
    EscapeRoundTrip(m.key, after);
    assert s[1..] == Escape(m.key) + "\"" + after;
  }

  /** What `ParseMembers` gives once member `m` is read and `tail` follows. */
  function AfterMember(m: Member, tail: string): Option<(seq<Member>, string)>
    requires tail != [] && (tail[0] == ',' || tail[0] == '}')
  {
    if tail[0] == '}' then Some(([m], tail[1..]))
    else match ParseMembers(tail[1..])
      case None => None
      case Some((ms, r3)) => Some(([m] + ms, r3))
  }

  lemma ParseMembersStep(s: string, m: Member, after: string, tail: string)
    requires s != [] && s[0] == '"' && ParseChars(s[1..]) == Some((m.key, after))
    requires after != [] && after[0] == ':' && ParseValue(after[1..]) == Some((m.value, tail))
    requires tail != [] && (tail[0] == ',' || tail[0] == '}')
    ensures ParseMembers(s) == AfterMember(m, tail)
  {
  }

  lemma {:induction false} ColonValue(m: Member, tail: string)
    requires tail != [] && (tail[0] == ',' || tail[0] == '}')
    ensures var after := ":" + Stringify(m.value) + tail;
      after[0] == ':' && ParseValue(after[1..]) == Some((m.value, tail))
    decreases m, 0
  {
    var after := ":" + Stringify(m.value) + tail;
    ValueRoundTrip(m.value, tail);
    assert after[1..] == Stringify(m.value) + tail;
  }

  /** One member read back, followed by what comes after it. */
  lemma {:induction false} MemberRoundTrip(m: Member, tail: string)
    requires tail != [] && (tail[0] == ',' || tail[0] == '}')
    ensures ParseMembers(StringifyMember(m) + tail) == AfterMember(m, tail)
    decreases m, 1
  {
    KeyRoundTrip(m, tail);
    ColonValue(m, tail);
    ParseMembersStep(StringifyMember(m) + tail, m, ":" + Stringify(m.value) + tail, tail);
  }

  /** The text after the first member of a non-empty member list. */
  function MembersTail(ms: seq<Member>, rest: string): (tail: string)
    requires |ms| >= 1
    ensures tail != [] && (tail[0] == ',' || tail[0] == '}')
    ensures StringifyMembers(ms) + "}" + rest == StringifyMember(ms[0]) + tail
  {
    if |ms| == 1 then "}" + rest
    else
      var a, x := StringifyMember(ms[0]), StringifyMembers(ms[1..]);
      assert StringifyMembers(ms) + "}" + rest == a + ("," + (x + "}" + rest)) by {
        assert StringifyMembers(ms) == a + "," + x;
        Assoc(a + ",", x, "}");
        Assoc(a + ",", x + "}", rest);
        Assoc(a, ",", x + "}" + rest);
      }
      "," + (x + "}" + rest)
  }

  lemma {:induction false} MembersRoundTrip(ms: seq<Member>, rest: string)
    requires |ms| >= 1 && Delimited(rest)
    ensures ParseMembers(StringifyMembers(ms) + "}" + rest) == Some((ms, rest))
    decreases ms, 2
  {
    var m := ms[0];
    var tail := MembersTail(ms, rest);
    MemberRoundTrip(m, tail);
    if |ms| == 1 {
      AfterClose(m, rest);
      HeadTail(ms);
    } else {
      var body := StringifyMembers(ms[1..]) + "}" + rest;
      MembersRoundTrip(ms[1..], rest);
      assert tail == "," + body;
      AfterComma(m, body, ms[1..], rest);
      HeadTail(ms);
    }
  }

  lemma HeadTail(ms: seq<Member>)
    requires |ms| >= 1
    ensures [ms[0]] + ms[1..] == ms
    ensures |ms| == 1 ==> [ms[0]] == ms
  {
  }

  lemma AfterClose(m: Member, rest: string)
    ensures AfterMember(m, "}" + rest) == Some(([m], rest))
  {
    assert ("}" + rest)[1..] == rest;
  }

  lemma AfterComma(m: Member, body: string, ms: seq<Member>, rest: string)
    requires ParseMembers(body) == Some((ms, rest))
    ensures AfterMember(m, "," + body) == Some(([m] + ms, rest))
  {
    assert ("," + body)[1..] == body;
  }

  /** `JSON.parse(JSON.stringify(j))` gives back `j`. */
  lemma RoundTrip(j: Json)
    ensures Parse(Stringify(j)) == Some(j)
  {
    ValueRoundTrip(j, []);
    assert Stringify(j) + [] == Stringify(j);
  }
}
