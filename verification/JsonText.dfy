/**
 JSON values and their text: the compact, key-sorted, non-ASCII-preserving printer used for canonical
 forms and a reader of the RFC 8259 grammar that can reject duplicate object keys.
 A number is kept as its literal.
 */
module JsonText {
  import opened Prelude

  datatype Json =
    | Null
    | Bool(b: bool)
    | Num(literal: string)
    | Str(text: string)
    | Arr(items: seq<Json>)
    | Obj(fields: map<string, Json>)

  datatype Parsed<+T> = Parsed(value: T, rest: string)

  // --------------------------------------------------------------- numbers

  predicate IsDigit(c: char) { '0' <= c <= '9' }

  function DigitRun(s: string): (n: nat)
    ensures n <= |s|
  {
    if s != [] && IsDigit(s[0]) then 1 + DigitRun(s[1..]) else 0
  }

  function IntegerLength(s: string): (n: nat)
    ensures n <= |s|
  {
    var i := if s != [] && s[0] == '-' then 1 else 0;
    if i < |s| && s[i] == '0' then i + 1
    else if DigitRun(s[i..]) == 0 then 0
    else i + DigitRun(s[i..])
  }

  function FractionLength(s: string): (n: nat)
    ensures n <= |s|
  {
    if s != [] && s[0] == '.' && DigitRun(s[1..]) > 0 then 1 + DigitRun(s[1..]) else 0
  }

  function ExponentLength(s: string): (n: nat)
    ensures n <= |s|
  {
    if s == [] || s[0] !in "eE" then 0
    else
      var m := if |s| > 1 && s[1] in "+-" then 2 else 1;
      if DigitRun(s[m..]) > 0 then m + DigitRun(s[m..]) else 0
  }

  /** Length of the longest number at the front of `s`, 0 if there is none. */
  function NumberLength(s: string): (n: nat)
    ensures n <= |s|
  {
    var i := IntegerLength(s);
    if i == 0 then 0
    else
      var f := i + FractionLength(s[i..]);
      f + ExponentLength(s[f..])
  }

  predicate IsNumber(s: string) {
    s != [] && NumberLength(s) == |s|
  }

  /** Values whose numbers are spelled as numbers. */
  predicate Wf(v: Json) {
    match v
    case Num(literal) => IsNumber(literal)
    case Arr(items) => forall i :: 0 <= i < |items| ==> Wf(items[i])
    case Obj(fields) => forall k :: k in fields ==> Wf(fields[k])
    case _ => true
  }

  // --------------------------------------------------------------- strings

  function HexDigit(n: nat): char
    requires n < 16
  {
    "0123456789abcdef"[n]
  }

  function HexValue(c: char): Option<nat> {
    if '0' <= c <= '9' then Some(c as int - '0' as int)
    else if 'a' <= c <= 'f' then Some(c as int - 'a' as int + 10)
    else if 'A' <= c <= 'F' then Some(c as int - 'A' as int + 10)
    else None
  }

  function EscapeChar(c: char): string {
    match c
    case '"' => "\\\""
    case '\\' => "\\\\"
    case '\n' => "\\n"
    case '\r' => "\\r"
    case '\t' => "\\t"
    case '\U{0008}' => "\\b"
    case '\U{000C}' => "\\f"
    case _ =>
      if c < ' ' then "\\u00" + [HexDigit(c as int / 16), HexDigit(c as int % 16)] else [c]
  }

  function Escape(s: string): string {
    if s == [] then "" else EscapeChar(s[0]) + Escape(s[1..])
  }

  function Quote(s: string): string {
    "\"" + Escape(s) + "\""
  }

  function Hex4(s: string): Option<nat> {
    if |s| < 4 then None
    else
      match (HexValue(s[0]), HexValue(s[1]), HexValue(s[2]), HexValue(s[3]))
      case (Some(a), Some(b), Some(c), Some(d)) => Some(((a * 16 + b) * 16 + c) * 16 + d)
      case _ => None
  }

  /** The character written as `\uXXXX` or as a surrogate pair, after the `u`. */
  function UnicodeEscape(s: string): (r: Option<Parsed<char>>)
    ensures r.Some? ==> |r.value.rest| < |s|
  {
    match Hex4(s)
    case None => None
    case Some(n) =>
      if n < 0xD800 || 0xE000 <= n <= 0xFFFF then Some(Parsed(n as char, s[4..]))
      else if 0xD800 <= n < 0xDC00 && |s| >= 10 && s[4] == '\\' && s[5] == 'u' then
        match Hex4(s[6..])
        case Some(m) =>
          if 0xDC00 <= m < 0xE000
          then Some(Parsed((0x10000 + (n - 0xD800) * 0x400 + (m - 0xDC00)) as char, s[10..]))
          else None
        case None => None
      else None
  }

  /** The character after a backslash. */
  function Unescape(s: string): (r: Option<Parsed<char>>)
    ensures r.Some? ==> |r.value.rest| < |s|
  {
    if s == [] then None
    else
      match s[0]
      case '"' => Some(Parsed('"', s[1..]))
      case '\\' => Some(Parsed('\\', s[1..]))
      case '/' => Some(Parsed('/', s[1..]))
      case 'b' => Some(Parsed('\U{0008}', s[1..]))
      case 'f' => Some(Parsed('\U{000C}', s[1..]))
      case 'n' => Some(Parsed('\n', s[1..]))
      case 'r' => Some(Parsed('\r', s[1..]))
      case 't' => Some(Parsed('\t', s[1..]))
      case 'u' => UnicodeEscape(s[1..])
      case _ => None
  }

  /** The rest of a string literal after its opening quote; raw control characters are refused. */
  function ParseString(s: string): (r: Option<Parsed<string>>)
    ensures r.Some? ==> |r.value.value| + |r.value.rest| < |s|
    decreases |s|
  {
    if s == [] || s[0] < ' ' then None
    else if s[0] == '"' then Some(Parsed("", s[1..]))
    else
      var first := if s[0] == '\\' then Unescape(s[1..]) else Some(Parsed(s[0], s[1..]));
      match first
      case None => None
      case Some(Parsed(c, rest)) =>
        match ParseString(rest)
        case None => None
        case Some(Parsed(tail, end)) => Some(Parsed([c] + tail, end))
  }

  // ---------------------------------------------------------------- values

  predicate IsSpace(c: char) { c in " \t\n\r" }

  function Skip(s: string): (r: string)
    ensures |r| <= |s|
  {
    if s != [] && IsSpace(s[0]) then Skip(s[1..]) else s
  }

  predicate StartsWith(s: string, prefix: string) {
    prefix <= s
  }

  /** Everything but arrays and objects. */
  function ParseScalar(s: string): (r: Option<Parsed<Json>>)
    ensures r.Some? ==> |r.value.rest| < |s|
  {
    if s == [] then None
    else if StartsWith(s, "null") then Some(Parsed(Null, s[4..]))
    else if StartsWith(s, "true") then Some(Parsed(Bool(true), s[4..]))
    else if StartsWith(s, "false") then Some(Parsed(Bool(false), s[5..]))
    else if s[0] == '"' then
      match ParseString(s[1..])
      case None => None
      case Some(Parsed(text, rest)) => Some(Parsed(Str(text), rest))
    else if NumberLength(s) > 0 then Some(Parsed(Num(s[..NumberLength(s)]), s[NumberLength(s)..]))
    else None
  }

  function ParseValue(s: string, unique: bool): (r: Option<Parsed<Json>>)
    ensures r.Some? ==> |r.value.rest| < |s|
    decreases |s|, 1
  {
    if s != [] && s[0] == '[' then
      var body := Skip(s[1..]);
      if body != [] && body[0] == ']' then Some(Parsed(Arr([]), body[1..]))
      else
        match ParseElements(body, unique)
        case None => None
        case Some(Parsed(items, rest)) => Some(Parsed(Arr(items), rest))
    else if s != [] && s[0] == '{' then
      var body := Skip(s[1..]);
      if body != [] && body[0] == '}' then Some(Parsed(Obj(map[]), body[1..]))
      else
        match ParseMembers(body, map[], unique)
        case None => None
        case Some(Parsed(fields, rest)) => Some(Parsed(Obj(fields), rest))
    else ParseScalar(s)
  }

  /** One or more values separated by commas, up to the closing bracket. */
  function ParseElements(s: string, unique: bool): (r: Option<Parsed<seq<Json>>>)
    ensures r.Some? ==> |r.value.rest| < |s|
    decreases |s|, 2
  {
    match ParseValue(s, unique)
    case None => None
    case Some(Parsed(v, afterValue)) =>
      var next := Skip(afterValue);
      if next == [] then None
      else if next[0] == ']' then Some(Parsed([v], next[1..]))
      else if next[0] != ',' then None
      else
        match ParseElements(Skip(next[1..]), unique)
        case None => None
        case Some(Parsed(vs, rest)) => Some(Parsed([v] + vs, rest))
  }

  /**
   One or more members separated by commas, up to the closing brace; a repeated key overwrites or, when keys must be
   unique, is refused.
   */
  function ParseMembers(s: string, fields: map<string, Json>, unique: bool): (r: Option<Parsed<map<string, Json>>>)
    ensures r.Some? ==> |r.value.rest| < |s|
    decreases |s|, 2
  {
    if s == [] || s[0] != '"' then None
    else
      match ParseString(s[1..])
      case None => None
      case Some(Parsed(key, afterKey)) =>
        var colon := Skip(afterKey);
        if colon == [] || colon[0] != ':' || (unique && key in fields) then None
        else
          match ParseValue(Skip(colon[1..]), unique)
          case None => None
          case Some(Parsed(v, afterValue)) =>
            var next := Skip(afterValue);
            if next == [] then None
            else if next[0] == '}' then Some(Parsed(fields[key := v], next[1..]))
            else if next[0] != ',' then None
            else ParseMembers(Skip(next[1..]), fields[key := v], unique)
  }

  /** `json.loads`: one value, with white space around it and nothing else. */
  function Parse(s: string, unique: bool): Option<Json> {
    match ParseValue(Skip(s), unique)
    case None => None
    case Some(Parsed(v, rest)) => if Skip(rest) == [] then Some(v) else None
  }

  // --------------------------------------------------------------- printer

  ghost function Least(s: set<string>): (k: string)
    requires s != {}
    ensures k in s && forall x :: x in s ==> x == k || Less(k, x)
    decreases |s|
  {
    var x :| x in s;
    if s == {x} then x
    else
      var m := Least(s - {x});
      LessIsTotal(x, m);
      assert forall y :: y in s ==> y == x || y in s - {x};
      assert Less(x, m) ==> forall y :: y in s - {x} ==> Less(x, y) by {
        forall y | y in s - {x} && Less(x, m) ensures Less(x, y) {
          if y != m { LessIsTransitive(x, m, y); }
        }
      }
      if Less(x, m) then x else m
  }

  ghost function SortedKeys(s: set<string>): (ks: seq<string>)
    ensures forall k :: k in ks <==> k in s
    ensures forall i, j :: 0 <= i < j < |ks| ==> Less(ks[i], ks[j])
    decreases |s|
  {
    if s == {} then []
    else
      var k := Least(s);
      assert forall x :: x in s <==> x == k || x in s - {k};
      [k] + SortedKeys(s - {k})
  }

  ghost function Print(v: Json): string
    decreases v, 1
  {
    match v
    case Null => "null"
    case Bool(b) => if b then "true" else "false"
    case Num(literal) => literal
    case Str(text) => Quote(text)
    case Arr(items) => "[" + PrintElements(items) + "]"
    case Obj(fields) => "{" + PrintMembers(v, SortedKeys(fields.Keys)) + "}"
  }

  ghost function PrintElements(vs: seq<Json>): string
    decreases vs, 0
  {
    if vs == [] then ""
    else if |vs| == 1 then Print(vs[0])
    else Print(vs[0]) + "," + PrintElements(vs[1..])
  }

  ghost function PrintMembers(v: Json, ks: seq<string>): string
    requires v.Obj? && forall k :: k in ks ==> k in v.fields
    decreases v, 0, |ks|
  {
    if ks == [] then ""
    else
      var first := Quote(ks[0]) + ":" + Print(v.fields[ks[0]]);
      if |ks| == 1 then first else first + "," + PrintMembers(v, ks[1..])
  }

  // ------------------------------------------------------------ round trip

  /** Text that cannot continue a number. */
  predicate Ends(rest: string) {
    rest == [] || (!IsDigit(rest[0]) && rest[0] !in ".eE+-")
  }

  lemma {:induction false} DigitRunStops(a: string, rest: string)
    requires rest == [] || !IsDigit(rest[0])
    ensures DigitRun(a + rest) == DigitRun(a)
  {
    if a == [] {
      assert a + rest == rest;
    } else {
      assert (a + rest)[1..] == a[1..] + rest;
      DigitRunStops(a[1..], rest);
    }
  }

  lemma IntegerStops(a: string, rest: string)
    requires Ends(rest)
    ensures IntegerLength(a + rest) == IntegerLength(a)
  {
    var i := if a != [] && a[0] == '-' then 1 else 0;
    assert (a + rest)[i..] == a[i..] + rest;
    DigitRunStops(a[i..], rest);
  }

  lemma FractionStops(a: string, rest: string)
    requires Ends(rest)
    ensures FractionLength(a + rest) == FractionLength(a)
  {
    if a != [] {
      assert (a + rest)[1..] == a[1..] + rest;
      DigitRunStops(a[1..], rest);
    } else {
      assert a + rest == rest;
    }
  }

  lemma ExponentStops(a: string, rest: string)
    requires Ends(rest)
    ensures ExponentLength(a + rest) == ExponentLength(a)
  {
    if a == [] {
      assert a + rest == rest;
    } else {
      var m := if |a| > 1 && a[1] in "+-" then 2 else 1;
      assert (a + rest)[m..] == a[m..] + rest;
      DigitRunStops(a[m..], rest);
    }
  }

  lemma NumberStops(a: string, rest: string)
    requires Ends(rest)
    ensures NumberLength(a + rest) == NumberLength(a)
  {
    hide Ends, FractionLength, ExponentLength, IntegerLength;
    IntegerStops(a, rest);
    var i := IntegerLength(a);
    assert (a + rest)[i..] == a[i..] + rest;
    FractionStops(a[i..], rest);
    var f := i + FractionLength(a[i..]);
    assert (a + rest)[f..] == a[f..] + rest;
    ExponentStops(a[f..], rest);
  }

  lemma NumberStart(a: string)
    requires IsNumber(a)
    ensures IsDigit(a[0]) || a[0] == '-'
  {
    assert IntegerLength(a) > 0;
    assert a[0..] == a;
  }

  lemma HexRoundTrip(n: nat)
    requires n < 16
    ensures HexValue(HexDigit(n)) == Some(n)
  {
  }

  lemma ControlEscape(c: char, rest: string)
    requires c < ' '
    ensures Unescape("u00" + [HexDigit(c as int / 16), HexDigit(c as int % 16)] + rest) == Some(Parsed(c, rest))
  {
    var hi, lo := HexDigit(c as int / 16), HexDigit(c as int % 16);
    var s := "00" + [hi, lo] + rest;
    assert ("u00" + [hi, lo] + rest)[1..] == s;
    HexRoundTrip(c as int / 16);
    HexRoundTrip(c as int % 16);
    assert HexValue('0') == Some(0);
    assert s[0] == '0' && s[1] == '0' && s[2] == hi && s[3] == lo;
    assert Hex4(s) == Some(c as int);
    assert s[4..] == rest;
  }

  /** Reading one escaped character gives the character back. */
  lemma EscapedCharRoundTrip(c: char, rest: string)
    ensures var s := EscapeChar(c) + rest;
      && s != [] && s[0] != '"' && !(s[0] < ' ')
      && (if s[0] == '\\' then Unescape(s[1..]) else Some(Parsed(s[0], s[1..]))) == Some(Parsed(c, rest))
  {
    var s := EscapeChar(c) + rest;
    assert s[1..] == EscapeChar(c)[1..] + rest;
    if |EscapeChar(c)| == 2 {
      assert s[1..] == [EscapeChar(c)[1]] + rest;
      assert s[1..][1..] == rest;
    } else if |EscapeChar(c)| == 6 {
      assert EscapeChar(c)[1..] == "u00" + [HexDigit(c as int / 16), HexDigit(c as int % 16)];
      ControlEscape(c, rest);
    } else {
      assert s[1..] == rest;
    }
  }

  lemma {:induction false} StringRoundTrip(s: string, rest: string)
    ensures ParseString(Escape(s) + "\"" + rest) == Some(Parsed(s, rest))
  {
    if s == [] {
      assert Escape(s) + "\"" + rest == "\"" + rest;
    } else {
      var tail := Escape(s[1..]) + "\"" + rest;
      assert Escape(s) + "\"" + rest == EscapeChar(s[0]) + tail;
      EscapedCharRoundTrip(s[0], tail);
      StringRoundTrip(s[1..], rest);
      assert [s[0]] + s[1..] == s;
    }
  }

  lemma QuoteRoundTrip(s: string, rest: string)
    ensures (Quote(s) + rest)[0] == '"' && ParseString((Quote(s) + rest)[1..]) == Some(Parsed(s, rest))
  {
    assert (Quote(s) + rest)[1..] == Escape(s) + "\"" + rest;
    StringRoundTrip(s, rest);
  }

  /** The first character tells the kinds of value apart and is never white space. */
  lemma PrintStart(v: Json)
    requires Wf(v)
    ensures Print(v) != [] && !IsSpace(Print(v)[0]) && Print(v)[0] !in "]},:"
  {
    if v.Num? { NumberStart(v.literal); }
  }

  lemma SkipStays(s: string)
    requires s != [] && !IsSpace(s[0])
    ensures Skip(s) == s
  {
  }

  lemma NumberScalar(s: string, n: nat)
    requires s != [] && (IsDigit(s[0]) || s[0] == '-') && NumberLength(s) == n > 0
    ensures ParseScalar(s) == Some(Parsed(Num(s[..n]), s[n..])) && s[0] !in "[{"
  {
    hide NumberLength, ParseString;
  }

  lemma NumberRoundTrip(literal: string, rest: string)
    requires IsNumber(literal) && Ends(rest)
    ensures ParseScalar(literal + rest) == Some(Parsed(Num(literal), rest))
    ensures (literal + rest)[0] !in "[{"
  {
    hide NumberLength, ParseScalar, Ends;
    var s := literal + rest;
    NumberStart(literal);
    NumberStops(literal, rest);
    assert literal[0] == s[0];
    NumberScalar(s, |literal|);
    assert s[..|literal|] == literal && s[|literal|..] == rest;
  }

  lemma ScalarRoundTrip(v: Json, rest: string)
    requires Wf(v) && Ends(rest) && !v.Arr? && !v.Obj?
    ensures ParseScalar(Print(v) + rest) == Some(Parsed(v, rest))
    ensures (Print(v) + rest)[0] !in "[{"
  {
    var s := Print(v) + rest;
    hide NumberLength;
    match v
    case Null => assert s[4..] == rest;
    case Bool(b) =>
      assert s[0] == (if b then 't' else 'f');
      if b { assert s[4..] == rest; } else { assert s[5..] == rest && "false" <= s; }
    case Num(literal) => NumberRoundTrip(literal, rest);
    case Str(text) => QuoteRoundTrip(text, rest);
  }

  lemma ValueRoundTrip(v: Json, rest: string, unique: bool)
    requires Wf(v) && Ends(rest)
    ensures ParseValue(Print(v) + rest, unique) == Some(Parsed(v, rest))
    decreases v, 1
  {
    if v.Arr? {
      ArrayRoundTrip(v, rest, unique);
    } else if v.Obj? {
      ObjectRoundTrip(v, rest, unique);
    } else {
      ScalarRoundTrip(v, rest);
      hide ParseScalar, Print, Wf;
    }
  }

  /** Reading a bracketed body, given what its elements or members read as. */
  lemma ContainerTurn(s: string, body: string, unique: bool)
    requires s != [] && s[1..] == body && body != [] && !IsSpace(body[0])
    ensures s[0] == '[' && body[0] == ']' ==> ParseValue(s, unique) == Some(Parsed(Arr([]), body[1..]))
    ensures s[0] == '{' && body[0] == '}' ==> ParseValue(s, unique) == Some(Parsed(Obj(map[]), body[1..]))
    ensures s[0] == '[' && body[0] != ']' && ParseElements(body, unique).Some? ==>
              var more := ParseElements(body, unique).value;
              ParseValue(s, unique) == Some(Parsed(Arr(more.value), more.rest))
    ensures s[0] == '{' && body[0] != '}' && ParseMembers(body, map[], unique).Some? ==>
              var more := ParseMembers(body, map[], unique).value;
              ParseValue(s, unique) == Some(Parsed(Obj(more.value), more.rest))
  {
    hide ParseElements, ParseMembers, ParseScalar;
    SkipStays(body);
  }

  lemma ArrayRoundTrip(v: Json, rest: string, unique: bool)
    requires v.Arr? && Wf(v)
    ensures ParseValue(Print(v) + rest, unique) == Some(Parsed(v, rest))
    decreases v, 0
  {
    var s := Print(v) + rest;
    var last := "]" + rest;
    var body := PrintElements(v.items) + "]" + rest;
    assert body == PrintElements(v.items) + last;
    assert s[0] == '[' && s[1..] == body;
    if v.items == [] {
      assert body[1..] == rest && body[0] == ']';
      hide ParseValue, Print, PrintElements, Wf;
      ContainerTurn(s, body, unique);
    } else {
      ElementsStart(v.items, last);
      ElementsRoundTrip(v.items, rest, unique);
      hide ParseValue, ParseElements, Print, PrintElements, Wf;
      ContainerTurn(s, body, unique);
    }
  }

  lemma ElementsStart(vs: seq<Json>, rest: string)
    requires vs != [] && Wf(vs[0])
    ensures var s := PrintElements(vs) + rest; s != [] && !IsSpace(s[0]) && s[0] !in "]},:"
  {
    PrintStart(vs[0]);
    assert PrintElements(vs)[0] == Print(vs[0])[0];
  }

  /** One turn of the element loop. */
  lemma ElementsTurn(s: string, v: Json, next: string, unique: bool)
    requires ParseValue(s, unique) == Some(Parsed(v, next)) && next != []
    ensures next[0] == ']' ==> ParseElements(s, unique) == Some(Parsed([v], next[1..]))
    ensures next[0] == ',' && ParseElements(Skip(next[1..]), unique).Some? ==>
              var more := ParseElements(Skip(next[1..]), unique).value;
              ParseElements(s, unique) == Some(Parsed([v] + more.value, more.rest))
  {
    hide ParseValue;
    if next[0] == ']' || next[0] == ',' { SkipStays(next); }
  }

  lemma Regroup(first: string, more: string, rest: string)
    ensures first + "," + more + "]" + rest == first + ("," + (more + "]" + rest))
  {
  }

  lemma PrintElementsSplit(vs: seq<Json>, rest: string)
    requires vs != []
    ensures PrintElements(vs) + "]" + rest
            == Print(vs[0]) + if |vs| == 1 then "]" + rest else "," + (PrintElements(vs[1..]) + "]" + rest)
  {
    hide Print;
    if |vs| > 1 {
      var first, more := Print(vs[0]), PrintElements(vs[1..]);
      assert PrintElements(vs) == first + "," + more;
      Regroup(first, more, rest);
    }
  }

  /** A value and the elements behind it. */
  lemma MoreElements(first: string, v: Json, tail: string, more: seq<Json>, rest: string, unique: bool)
    requires ParseValue(first + ("," + tail), unique) == Some(Parsed(v, "," + tail))
    requires Skip(tail) == tail && ParseElements(tail, unique) == Some(Parsed(more, rest))
    ensures ParseElements(first + ("," + tail), unique) == Some(Parsed([v] + more, rest))
  {
    hide ParseValue, ParseElements, Skip;
    var next := "," + tail;
    assert next[1..] == tail;
    ElementsTurn(first + next, v, next, unique);
  }

  lemma LastElement(first: string, v: Json, rest: string, unique: bool)
    requires ParseValue(first + ("]" + rest), unique) == Some(Parsed(v, "]" + rest))
    ensures ParseElements(first + ("]" + rest), unique) == Some(Parsed([v], rest))
  {
    hide ParseValue, ParseElements;
    var next := "]" + rest;
    assert next[1..] == rest;
    ElementsTurn(first + next, v, next, unique);
  }

  lemma ElementsTail(vs: seq<Json>, rest: string)
    requires vs != [] && Wf(vs[0])
    ensures var tail := PrintElements(vs) + "]" + rest; Skip(tail) == tail && tail != []
  {
    hide PrintElements, Print, Skip;
    ElementsStart(vs, "]" + rest);
    var tail := PrintElements(vs) + "]" + rest;
    assert tail == PrintElements(vs) + ("]" + rest);
    SkipStays(tail);
  }

  lemma {:induction false} ElementsRoundTrip(vs: seq<Json>, rest: string, unique: bool)
    requires vs != [] && forall i :: 0 <= i < |vs| ==> Wf(vs[i])
    ensures ParseElements(PrintElements(vs) + "]" + rest, unique) == Some(Parsed(vs, rest))
    decreases vs, 0
  {
    hide ParseValue, ParseElements, Print, PrintElements, Skip, Wf;
    PrintElementsSplit(vs, rest);
    if |vs| == 1 {
      ValueRoundTrip(vs[0], "]" + rest, unique);
      LastElement(Print(vs[0]), vs[0], rest, unique);
      assert vs == [vs[0]];
    } else {
      var tail := PrintElements(vs[1..]) + "]" + rest;
      ValueRoundTrip(vs[0], "," + tail, unique);
      ElementsRoundTrip(vs[1..], rest, unique);
      ElementsTail(vs[1..], rest);
      MoreElements(Print(vs[0]), vs[0], tail, vs[1..], rest, unique);
      assert vs == [vs[0]] + vs[1..];
    }
  }

  lemma NoKeysNoFields(fields: map<string, Json>)
    requires SortedKeys(fields.Keys) == []
    ensures fields == map[]
  {
    assert forall k :: k in fields.Keys ==> k in SortedKeys(fields.Keys);
  }

  lemma Braced(members: string, rest: string)
    ensures var s := "{" + members + "}" + rest;
      && s != [] && s[0] == '{' && s[1..] == members + "}" + rest && members + "}" + rest != []
      && (members + "}" + rest)[0] == (if members == [] then '}' else members[0])
      && (members == [] ==> (members + "}" + rest)[1..] == rest)
  {
  }

  lemma PrintObject(v: Json, rest: string)
    requires v.Obj?
    ensures var body := PrintMembers(v, SortedKeys(v.fields.Keys)) + "}" + rest;
      && Print(v) + rest != [] && (Print(v) + rest)[0] == '{' && (Print(v) + rest)[1..] == body
      && body != [] && body[0] == (if SortedKeys(v.fields.Keys) == [] then '}' else '"')
      && (SortedKeys(v.fields.Keys) == [] ==> body[1..] == rest)
  {
    var ks := SortedKeys(v.fields.Keys);
    MembersStart(v, ks);
    assert Print(v) == "{" + PrintMembers(v, ks) + "}";
    hide SortedKeys, PrintMembers, Print;
    Braced(PrintMembers(v, ks), rest);
  }

  lemma MembersStart(v: Json, ks: seq<string>)
    requires v.Obj? && forall k :: k in ks ==> k in v.fields
    ensures if ks == [] then PrintMembers(v, ks) == [] else PrintMembers(v, ks) != [] && PrintMembers(v, ks)[0] == '"'
  {
    hide Print;
  }

  lemma ObjectRoundTrip(v: Json, rest: string, unique: bool)
    requires v.Obj? && Wf(v)
    ensures ParseValue(Print(v) + rest, unique) == Some(Parsed(v, rest))
    decreases v, 0
  {
    hide ParseValue, ParseMembers, PrintMembers, SortedKeys, Print;
    var ks := SortedKeys(v.fields.Keys);
    PrintObject(v, rest);
    if ks == [] {
      NoKeysNoFields(v.fields);
    } else {
      forall i, j | 0 <= i < j < |ks| ensures ks[i] != ks[j] { LessIsIrreflexive(ks[i]); }
      MembersRoundTrip(v, ks, map[], rest, unique);
      assert map[] + (map k | k in ks :: v.fields[k]) == v.fields;
    }
    ContainerTurn(Print(v) + rest, PrintMembers(v, ks) + "}" + rest, unique);
  }

  /** One turn of the member loop: key, colon, value, separator. */
  lemma MembersTurn(s: string, key: string, v: Json, next: string, fields: map<string, Json>, unique: bool)
    requires key !in fields && next != []
    requires s != [] && s[0] == '"' && ParseString(s[1..]).Some? && ParseString(s[1..]).value.value == key
    requires var colon := ParseString(s[1..]).value.rest;
      colon != [] && colon[0] == ':' && ParseValue(Skip(colon[1..]), unique) == Some(Parsed(v, next))
    ensures next[0] == '}' ==> ParseMembers(s, fields, unique) == Some(Parsed(fields[key := v], next[1..]))
    ensures next[0] == ',' ==>
              ParseMembers(s, fields, unique) == ParseMembers(Skip(next[1..]), fields[key := v], unique)
  {
    hide ParseValue, ParseString;
    SkipStays(ParseString(s[1..]).value.rest);
    if next[0] == '}' || next[0] == ',' { SkipStays(next); }
  }

  /** A printed member is read up to the text that follows its value. */
  lemma MemberRoundTrip(key: string, value: Json, next: string, unique: bool)
    requires Wf(value) && Ends(next)
    ensures var s := Quote(key) + (":" + Print(value) + next);
      && s[0] == '"' && ParseString(s[1..]) == Some(Parsed(key, ":" + Print(value) + next))
      && Skip((":" + Print(value) + next)[1..]) == Print(value) + next
      && ParseValue(Print(value) + next, unique) == Some(Parsed(value, next))
    decreases value, 2
  {
    hide ParseValue, ParseString, Print, Wf, Quote;
    QuoteRoundTrip(key, ":" + Print(value) + next);
    assert (":" + Print(value) + next)[1..] == Print(value) + next;
    PrintStart(value);
    ValueRoundTrip(value, next, unique);
    SkipStays(Print(value) + next);
  }

  lemma PrintMembersSplit(v: Json, ks: seq<string>, rest: string)
    requires v.Obj? && ks != [] && forall k :: k in ks ==> k in v.fields
    ensures var tail := PrintMembers(v, ks[1..]) + "}" + rest;
      PrintMembers(v, ks) + "}" + rest
      == Quote(ks[0]) + (":" + Print(v.fields[ks[0]]) + if |ks| == 1 then "}" + rest else "," + tail)
    ensures |ks| > 1 ==> (PrintMembers(v, ks[1..]) + "}" + rest)[0] == '"'
  {
    hide Print;
  }

  lemma {:induction false} MembersRoundTrip(v: Json, ks: seq<string>, fields: map<string, Json>, rest: string,
      unique: bool)
    requires v.Obj? && Wf(v) && ks != [] && (forall k :: k in ks ==> k in v.fields && k !in fields)
    requires forall i, j :: 0 <= i < j < |ks| ==> ks[i] != ks[j]
    ensures ParseMembers(PrintMembers(v, ks) + "}" + rest, fields, unique)
            == Some(Parsed(fields + (map k | k in ks :: v.fields[k]), rest))
    decreases v, 0, |ks|
  {
    hide ParseValue, ParseString, ParseMembers, Print, PrintMembers, Quote;
    var key, value := ks[0], v.fields[ks[0]];
    var s := PrintMembers(v, ks) + "}" + rest;
    var tail := PrintMembers(v, ks[1..]) + "}" + rest;
    var next := if |ks| == 1 then "}" + rest else "," + tail;
    PrintMembersSplit(v, ks, rest);
    MemberRoundTrip(key, value, next, unique);
    MembersTurn(s, key, value, next, fields, unique);
    MapTail(v.fields, ks, fields);
    if |ks| == 1 {
      assert next[1..] == rest && ks[1..] == [];
      assert fields[key := value] + (map k | k in ks[1..] :: v.fields[k]) == fields[key := value];
    } else {
      assert next[1..] == tail;
      SkipStays(tail);
      MembersRoundTrip(v, ks[1..], fields[key := value], rest, unique);
    }
  }

  lemma MapTail(all: map<string, Json>, ks: seq<string>, fields: map<string, Json>)
    requires ks != [] && (forall k :: k in ks ==> k in all) && forall i :: 0 < i < |ks| ==> ks[i] != ks[0]
    ensures fields[ks[0] := all[ks[0]]] + (map k | k in ks[1..] :: all[k]) == fields + (map k | k in ks :: all[k])
  {
    assert forall k :: k in ks <==> k == ks[0] || k in ks[1..];
  }

  /** Reading canonical text gives the value back, with or without the duplicate-key check. */
  lemma RoundTrip(v: Json, unique: bool)
    requires Wf(v)
    ensures Parse(Print(v), unique) == Some(v)
  {
    PrintStart(v);
    assert Print(v) + "" == Print(v);
    SkipStays(Print(v));
    ValueRoundTrip(v, "", unique);
  }

  // ------------------------------------------------- what a reader returns

  lemma {:induction false} DigitRunOfPrefix(s: string, n: nat)
    requires DigitRun(s) <= n <= |s|
    ensures DigitRun(s[..n]) == DigitRun(s)
  {
    if s != [] && IsDigit(s[0]) {
      assert s[..n][1..] == s[1..][..n - 1];
      DigitRunOfPrefix(s[1..], n - 1);
    }
  }

  lemma IntegerOfPrefix(s: string, n: nat)
    requires 0 < IntegerLength(s) <= n <= |s|
    ensures IntegerLength(s[..n]) == IntegerLength(s)
  {
    var sign := if s[0] == '-' then 1 else 0;
    assert s[..n][sign..] == s[sign..][..n - sign];
    if s[sign] != '0' { DigitRunOfPrefix(s[sign..], n - sign); }
  }

  /** The longest number at the front of a text is, cut out, itself a number. */
  lemma NumberIsNumber(s: string)
    requires NumberLength(s) > 0
    ensures IsNumber(s[..NumberLength(s)])
  {
    hide IntegerLength, FractionLength, ExponentLength;
    var n, i := NumberLength(s), IntegerLength(s);
    var f := i + FractionLength(s[i..]);
    IntegerOfPrefix(s, n);
    assert s[..n][i..] == s[i..][..n - i];
    FractionEndsBeforeExponent(s, i, n);
    assert s[..n][f..] == s[f..][..n - f];
    ExponentOfPrefix(s[f..]);
  }

  lemma FractionEndsBeforeExponent(s: string, i: nat, n: nat)
    requires i <= n <= |s|
    requires var f := i + FractionLength(s[i..]); f <= n && n == f + ExponentLength(s[f..])
    ensures FractionLength(s[i..][..n - i]) == FractionLength(s[i..])
  {
    FractionOfPrefix(s[i..], n - i);
  }

  lemma FractionOfPrefix(s: string, n: nat)
    requires FractionLength(s) <= n <= |s|
    ensures FractionLength(s) > 0 ==> FractionLength(s[..n]) == FractionLength(s)
    ensures FractionLength(s) == 0 && (n == 0 || s[0] != '.') ==> FractionLength(s[..n]) == 0
  {
    if FractionLength(s) > 0 {
      assert s[..n][1..] == s[1..][..n - 1];
      DigitRunOfPrefix(s[1..], n - 1);
    }
  }

  lemma ExponentOfPrefix(s: string)
    ensures ExponentLength(s[..ExponentLength(s)]) == ExponentLength(s)
  {
    var n := ExponentLength(s);
    if n > 0 {
      var m := if |s| > 1 && s[1] in "+-" then 2 else 1;
      assert s[..n][m..] == s[m..][..n - m];
      DigitRunOfPrefix(s[m..], n - m);
    }
  }

  lemma ParsedScalarIsWf(s: string)
    ensures ParseScalar(s).Some? ==> Wf(ParseScalar(s).value.value)
  {
    hide ParseString;
    if NumberLength(s) > 0 { NumberIsNumber(s); }
  }

  lemma ParsedValueIsWf(s: string, unique: bool)
    ensures ParseValue(s, unique).Some? ==> Wf(ParseValue(s, unique).value.value)
    decreases |s|, 1
  {
    hide ParseScalar, ParseElements, ParseMembers, Skip;
    if s != [] && s[0] == '[' {
      ParsedElementsAreWf(Skip(s[1..]), unique);
    } else if s != [] && s[0] == '{' {
      ParsedMembersAreWf(Skip(s[1..]), map[], unique);
    } else {
      ParsedScalarIsWf(s);
    }
  }

  lemma ParsedElementsAreWf(s: string, unique: bool)
    ensures ParseElements(s, unique).Some? ==>
              forall i :: 0 <= i < |ParseElements(s, unique).value.value| ==>
                Wf(ParseElements(s, unique).value.value[i])
    decreases |s|, 2
  {
    ParsedValueIsWf(s, unique);
    if ParseElements(s, unique).Some? {
      var next := Skip(ParseValue(s, unique).value.rest);
      if next[0] == ',' { ParsedElementsAreWf(Skip(next[1..]), unique); }
    }
  }

  lemma ParsedMembersAreWf(s: string, fields: map<string, Json>, unique: bool)
    requires forall k :: k in fields ==> Wf(fields[k])
    ensures ParseMembers(s, fields, unique).Some? ==>
              forall k :: k in ParseMembers(s, fields, unique).value.value ==>
                Wf(ParseMembers(s, fields, unique).value.value[k])
    decreases |s|, 2
  {
    if ParseMembers(s, fields, unique).Some? {
      var key := ParseString(s[1..]).value;
      var value := Skip(Skip(key.rest)[1..]);
      ParsedValueIsWf(value, unique);
      var v := ParseValue(value, unique).value;
      var next := Skip(v.rest);
      if next[0] == ',' { ParsedMembersAreWf(Skip(next[1..]), fields[key.value := v.value], unique); }
    }
  }

  lemma ParsedIsWf(s: string, unique: bool)
    ensures Parse(s, unique).Some? ==> Wf(Parse(s, unique).value)
  {
    ParsedValueIsWf(Skip(s), unique);
  }

  lemma ParsedStringIsShorter(s: string, unique: bool)
    ensures Parse(s, unique).Some? && Parse(s, unique).value.Str? ==> |Parse(s, unique).value.text| < |s|
  {
  }

  /** Equal canonical texts come from equal values. */
  lemma PrintIsInjective(v: Json, w: Json)
    requires Wf(v) && Wf(w) && Print(v) == Print(w)
    ensures v == w
  {
    RoundTrip(v, false);
    RoundTrip(w, false);
  }
}
