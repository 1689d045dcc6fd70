/**
 Base64 with the URL-safe alphabet (section 5 of RFC 4648): the padded encoder and a reader that skips foreign
 characters.
 */
module Base64 {
  import opened Prelude
  import opened Utf8

  type Sextet = n: int | 0 <= n < 64

  function CharOf(n: Sextet): char {
    if n < 26 then 'A' + n as char
    else if n < 52 then 'a' + (n - 26) as char
    else if n < 62 then '0' + (n - 52) as char
    else if n == 62 then '-' else '_'
  }

  /** The standard alphabet is read as well: only `-` and `_` are translated first. */
  function SextetOf(c: char): Option<Sextet> {
    if 'A' <= c <= 'Z' then Some(c as int - 'A' as int)
    else if 'a' <= c <= 'z' then Some(c as int - 'a' as int + 26)
    else if '0' <= c <= '9' then Some(c as int - '0' as int + 52)
    else if c == '-' || c == '+' then Some(62)
    else if c == '_' || c == '/' then Some(63)
    else None
  }

  /** The encoding without its trailing padding. */
  function Encode(bytes: seq<Byte>): string {
    if bytes == [] then ""
    else if |bytes| == 1 then [CharOf(bytes[0] / 4), CharOf(bytes[0] % 4 * 16)]
    else if |bytes| == 2 then
      [CharOf(bytes[0] / 4), CharOf(bytes[0] % 4 * 16 + bytes[1] / 16), CharOf(bytes[1] % 16 * 4)]
    else
      [CharOf(bytes[0] / 4), CharOf(bytes[0] % 4 * 16 + bytes[1] / 16),
       CharOf(bytes[1] % 16 * 4 + bytes[2] / 64), CharOf(bytes[2] % 64)] + Encode(bytes[3..])
  }

  function Padding(length: nat): string {
    match length % 4
    case 0 => ""
    case 1 => "==="
    case 2 => "=="
    case _ => "="
  }

  /** How many characters of the current group were read, and the bits not yet written. */
  datatype Reader = Reader(place: nat, left: nat, pads: nat)

  predicate ValidReader(r: Reader) {
    r.place < 4 && r.left < (match r.place case 0 => 1 case 1 => 64 case 2 => 16 case _ => 4)
  }

  /** Reading one sextet: the byte it completes, if any. */
  function Take(r: Reader, t: Sextet): (res: (seq<Byte>, Reader))
    requires ValidReader(r)
    ensures ValidReader(res.1)
  {
    match r.place
    case 0 => ([], Reader(1, t, 0))
    case 1 => ([r.left * 4 + t / 16], Reader(2, t % 16, 0))
    case 2 => ([r.left * 16 + t / 4], Reader(3, t % 4, 0))
    case _ => ([r.left * 64 + t], Reader(0, 0, 0))
  }

  /** Padding that completes a group ends what is read; an unfinished group is an error. */
  function Decode(s: string, r: Reader): Option<seq<Byte>>
    requires ValidReader(r)
    decreases |s|
  {
    if s == [] then if r.place == 0 then Some([]) else None
    else if s[0] == '=' then
      if r.place < 2 then Decode(s[1..], r)
      else if r.place + r.pads + 1 >= 4 then Some([])
      else Decode(s[1..], r.(pads := r.pads + 1))
    else
      match SextetOf(s[0])
      case None => Decode(s[1..], r)
      case Some(t) =>
        var (out, next) := Take(r, t);
        match Decode(s[1..], next)
        case None => None
        case Some(rest) => Some(out + rest)
  }

  const Fresh := Reader(0, 0, 0)

  predicate Ascii(s: string) {
    forall c :: c in s ==> c < '\U{0080}'
  }

  /** Text beyond ASCII is refused wherever it stands, also behind the padding. */
  function Read(s: string): Option<seq<Byte>> {
    if Ascii(s) then Decode(s, Fresh) else None
  }

  lemma CharRoundTrip(n: Sextet)
    ensures SextetOf(CharOf(n)) == Some(n) && CharOf(n) != '='
  {
  }

  lemma DecodeTakes(n: Sextet, r: Reader, rest: string)
    requires ValidReader(r)
    ensures var (out, next) := Take(r, n);
      Decode([CharOf(n)] + rest, r) == match Decode(rest, next) case None => None case Some(tail) => Some(out + tail)
  {
    CharRoundTrip(n);
    hide CharOf, SextetOf, Take;
    assert ([CharOf(n)] + rest)[1..] == rest;
  }

  /** The two ways a byte is divided between neighbouring sextets. */
  lemma Divided(a: Byte, high: nat)
    ensures high < 16 ==> var t := a % 4 * 16 + high; 0 <= t < 64 && t % 16 == high && a / 4 * 4 + t / 16 == a
    ensures high < 4 ==> var t := a % 16 * 4 + high; 0 <= t < 64 && t % 4 == high && a / 16 * 16 + t / 4 == a
    ensures a / 64 * 64 + a % 64 == a && a / 4 < 64 && a / 16 < 16 && a / 64 < 4
  {
  }

  /** The first two characters of a group. */
  lemma DecodeFirst(a: Byte, t: Sextet, u: Sextet, rest: string)
    requires t * 4 + u / 16 == a
    ensures Decode([CharOf(t)] + ([CharOf(u)] + rest), Fresh)
            == match Decode(rest, Reader(2, u % 16, 0)) case None => None case Some(tail) => Some([a] + tail)
  {
    hide Decode, CharOf;
    DecodeTakes(t, Fresh, [CharOf(u)] + rest);
    DecodeTakes(u, Reader(1, t, 0), rest);
    assert forall tail: seq<Byte> :: [] + ([a] + tail) == [a] + tail;
  }

  lemma DecodeSecond(b: Byte, left: nat, t: Sextet, rest: string)
    requires left < 16 && left * 16 + t / 4 == b
    ensures Decode([CharOf(t)] + rest, Reader(2, left, 0))
            == match Decode(rest, Reader(3, t % 4, 0)) case None => None case Some(tail) => Some([b] + tail)
  {
    hide Decode, CharOf;
    DecodeTakes(t, Reader(2, left, 0), rest);
  }

  lemma DecodeThird(c: Byte, left: nat, t: Sextet, rest: string)
    requires left < 4 && left * 64 + t == c
    ensures Decode([CharOf(t)] + rest, Reader(3, left, 0))
            == match Decode(rest, Fresh) case None => None case Some(tail) => Some([c] + tail)
  {
    hide Decode, CharOf;
    DecodeTakes(t, Reader(3, left, 0), rest);
  }

  /** Both alphabets are read: the characters that differ stand for the same sextets. */
  lemma AlphabetsAgree(rest: string, r: Reader)
    requires ValidReader(r)
    ensures Decode("+" + rest, r) == Decode("-" + rest, r) && Decode("/" + rest, r) == Decode("_" + rest, r)
  {
    assert ("+" + rest)[1..] == rest && ("-" + rest)[1..] == rest;
    assert ("/" + rest)[1..] == rest && ("_" + rest)[1..] == rest;
  }

  /** A group that is begun must be completed, by characters or by padding. */
  lemma {:induction false} UnfinishedIsRefused(s: string, r: Reader)
    requires ValidReader(r) && forall c :: c in s ==> SextetOf(c).Some? && c != '='
    ensures Decode(s, r).Some? <==> (r.place + |s|) % 4 == 0
    decreases |s|
  {
    hide SextetOf;
    if s != [] {
      assert s[0] in s;
      UnfinishedIsRefused(s[1..], Take(r, SextetOf(s[0]).value).1);
    }
  }

  /** Padding completes a group of two characters only when it is double; before that it is skipped, after it all is. */
  lemma PaddingIsExact(r: Reader, rest: string)
    requires ValidReader(r)
    ensures r.place == 3 ==> Decode("=" + rest, r) == Some([])
    ensures r.place == 2 && r.pads == 0 ==>
              && Decode("==" + rest, r) == Some([])
              && Decode("=" + rest, r) == Decode(rest, Reader(2, r.left, 1))
    ensures r.place < 2 ==> Decode("=" + rest, r) == Decode(rest, r)
  {
    assert ("=" + rest)[1..] == rest;
    assert ("==" + rest)[1..] == "=" + rest;
  }

  /** Text beyond ASCII is refused wherever it stands. */
  lemma BeyondAsciiIsRefused(s: string, i: nat)
    requires i < |s| && s[i] as int > 127
    ensures Read(s) == None
  {
    assert s[i] in s;
  }

  lemma AsciiIsRead(s: string)
    requires forall i :: 0 <= i < |s| ==> s[i] as int <= 127
    ensures Read(s) == Decode(s, Fresh)
  {
    assert forall c :: c in s ==> exists i :: 0 <= i < |s| && s[i] == c;
  }

  predicate Foreign(s: string) {
    forall c :: c in s ==> SextetOf(c) == None && c != '=' && c < '\U{0080}'
  }

  lemma {:induction false} ForeignIsSkipped(junk: string, rest: string, r: Reader)
    requires Foreign(junk) && ValidReader(r)
    ensures Decode(junk + rest, r) == Decode(rest, r)
  {
    if junk == [] {
      assert junk + rest == rest;
    } else {
      assert (junk + rest)[1..] == junk[1..] + rest;
      assert (junk + rest)[0] == junk[0] && junk[0] in junk;
      ForeignIsSkipped(junk[1..], rest, r);
    }
  }

  /** The padding after an unfinished group ends the text. */
  lemma PaddingEnds(r: Reader)
    requires ValidReader(r) && r.place >= 2 && r.pads == 0
    ensures Decode(if r.place == 2 then "==" else "=", r) == Some([])
  {
    if r.place == 2 {
      var s := "==";
      assert s[1..] == "=";
    }
  }

  lemma {:induction false} DecodeEncoded(bytes: seq<Byte>, junk: string)
    requires Foreign(junk)
    ensures Decode(Encode(bytes) + (junk + Padding(|Encode(bytes)|)), Fresh) == Some(bytes)
    decreases |bytes|
  {
    hide CharOf, SextetOf, Foreign, Take, Decode, Padding;
    if bytes == [] {
      EmptyRoundTrip(junk);
    } else if |bytes| == 1 {
      assert bytes == [bytes[0]];
      SingleRoundTrip(bytes[0], junk);
    } else if |bytes| == 2 {
      assert bytes == [bytes[0], bytes[1]];
      PairRoundTrip(bytes[0], bytes[1], junk);
    } else {
      DecodeEncoded(bytes[3..], junk);
      var tail := Encode(bytes[3..]);
      var group := GroupText(bytes[0], bytes[1], bytes[2]);
      var end := junk + Padding(|tail|);
      SamePadding(|tail|);
      GroupRoundTrip(bytes[0], bytes[1], bytes[2], tail + end, bytes[3..]);
      assert bytes == [bytes[0], bytes[1], bytes[2]] + bytes[3..];
      assert Encode(bytes) == group + tail;
      assert Encode(bytes) + end == group + (tail + end);
    }
  }

  lemma {:induction false} EncodedIsAscii(bytes: seq<Byte>)
    ensures Ascii(Encode(bytes))
    decreases |bytes|
  {
    if |bytes| >= 3 {
      EncodedIsAscii(bytes[3..]);
    }
  }

  /** Reading gives back the bytes, with or without foreign characters before the padding. */
  lemma RoundTrip(bytes: seq<Byte>, junk: string)
    requires Foreign(junk)
    ensures Read(Encode(bytes) + (junk + Padding(|Encode(bytes)|))) == Some(bytes)
  {
    DecodeEncoded(bytes, junk);
    EncodedIsAscii(bytes);
    hide Encode, Decode, SextetOf;
  }

  lemma SamePadding(n: nat)
    ensures Padding(n + 4) == Padding(n)
  {
  }

  lemma EmptyRoundTrip(junk: string)
    requires Foreign(junk)
    ensures Decode(Encode([]) + (junk + Padding(|Encode([])|)), Fresh) == Some([])
  {
    ForeignIsSkipped(junk, "", Fresh);
    assert Encode([]) + (junk + "") == junk + "";
  }

  function GroupText(a: Byte, b: Byte, c: Byte): string {
    [CharOf(a / 4), CharOf(a % 4 * 16 + b / 16), CharOf(b % 16 * 4 + c / 64), CharOf(c % 64)]
  }

  lemma GroupRoundTrip(a: Byte, b: Byte, c: Byte, rest: string, bytes: seq<Byte>)
    requires Decode(rest, Fresh) == Some(bytes)
    ensures Decode(GroupText(a, b, c) + rest, Fresh) == Some([a, b, c] + bytes)
  {
    hide Decode, CharOf;
    Divided(a, b / 16);
    Divided(b, c / 64);
    Divided(c, 0);
    var t, u, v, w := a / 4, a % 4 * 16 + b / 16, b % 16 * 4 + c / 64, c % 64;
    Chain(a, b, c, t, u, v, w, rest, bytes);
    assert GroupText(a, b, c) + rest == [CharOf(t)] + ([CharOf(u)] + ([CharOf(v)] + ([CharOf(w)] + rest)));
  }

  lemma Chain(a: Byte, b: Byte, c: Byte, t: Sextet, u: Sextet, v: Sextet, w: Sextet, rest: string, bytes: seq<Byte>)
    requires Decode(rest, Fresh) == Some(bytes)
    requires t * 4 + u / 16 == a && u % 16 * 16 + v / 4 == b && v % 4 * 64 + w == c
    ensures Decode([CharOf(t)] + ([CharOf(u)] + ([CharOf(v)] + ([CharOf(w)] + rest))), Fresh) == Some([a, b, c] + bytes)
  {
    hide Decode, CharOf;
    DecodeThird(c, v % 4, w, rest);
    DecodeSecond(b, u % 16, v, [CharOf(w)] + rest);
    DecodeFirst(a, t, u, [CharOf(v)] + ([CharOf(w)] + rest));
    assert [a] + ([b] + ([c] + bytes)) == [a, b, c] + bytes;
  }

  lemma SingleRoundTrip(a: Byte, junk: string)
    requires Foreign(junk)
    ensures Decode(Encode([a]) + (junk + Padding(|Encode([a])|)), Fresh) == Some([a])
  {
    hide CharOf, Decode, Foreign;
    ForeignIsSkipped(junk, "==", Reader(2, 0, 0));
    PaddingEnds(Reader(2, 0, 0));
    Divided(a, 0);
    DecodeFirst(a, a / 4, a % 4 * 16, junk + "==");
    assert Encode([a]) + (junk + "==") == [CharOf(a / 4)] + ([CharOf(a % 4 * 16)] + (junk + "=="));
    assert [a] + [] == [a];
  }

  lemma PairRoundTrip(a: Byte, b: Byte, junk: string)
    requires Foreign(junk)
    ensures Decode(Encode([a, b]) + (junk + Padding(|Encode([a, b])|)), Fresh) == Some([a, b])
  {
    hide CharOf, Decode, Foreign;
    ForeignIsSkipped(junk, "=", Reader(3, 0, 0));
    PaddingEnds(Reader(3, 0, 0));
    Divided(a, b / 16);
    Divided(b, 0);
    var t, u, v := a / 4, a % 4 * 16 + b / 16, b % 16 * 4;
    DecodeSecond(b, b / 16, v, junk + "=");
    DecodeFirst(a, t, u, [CharOf(v)] + (junk + "="));
    assert Encode([a, b]) + (junk + "=") == [CharOf(t)] + ([CharOf(u)] + ([CharOf(v)] + (junk + "=")));
    assert [a] + ([b] + []) == [a, b];
  }
}

/** Session references and the tokens that carry them. */
module SessionToken {
  import opened Prelude
  import opened JsonText
  import Utf8
  import Base64

  datatype SessionRef = SessionRef(authority: string, tenant: string, agent: string, session: string)

  /** What `str.strip` removes. */
  predicate IsBlank(c: char) {
    '\t' <= c <= '\r' || '\U{001C}' <= c <= ' ' || c == '\U{0085}' || c == '\U{00A0}' || c == '\U{1680}'
    || '\U{2000}' <= c <= '\U{200A}' || c in "\U{2028}\U{2029}\U{202F}\U{205F}\U{3000}"
  }

  predicate NonBlank(s: string) {
    exists i :: 0 <= i < |s| && !IsBlank(s[i])
  }

  /** The text without white space at its ends. */
  function Stripped(s: string): string
    decreases |s|
  {
    if s == "" then ""
    else if IsBlank(s[0]) then Stripped(s[1..])
    else if IsBlank(s[|s| - 1]) then Stripped(s[..|s| - 1])
    else s
  }

  lemma {:induction false} NonBlankIsStripped(s: string)
    ensures NonBlank(s) <==> Stripped(s) != ""
    decreases |s|
  {
    hide IsBlank;
    if s != "" && IsBlank(s[0]) {
      NonBlankIsStripped(s[1..]);
      if NonBlank(s) {
        var i :| 0 <= i < |s| && !IsBlank(s[i]);
        assert s[1..][i - 1] == s[i];
      }
      if NonBlank(s[1..]) {
        var i :| 0 <= i < |s[1..]| && !IsBlank(s[1..][i]);
        assert s[i + 1] == s[1..][i];
      }
    } else if s != "" {
      NonBlankIsStripped(s[..|s| - 1]);
      assert !IsBlank(s[0]) && NonBlank(s);
      if |s| > 1 { assert s[..|s| - 1][0] == s[0]; }
    }
  }

  /** White space is the controls from tab to return and from file separator on, and the spaces Unicode lists. */
  lemma BlanksAreExact(c: char)
    ensures IsBlank(c) <==>
            var n := c as int;
            9 <= n <= 13 || 28 <= n <= 32 || n in {133, 160, 5760, 8232, 8233, 8239, 8287, 12288} || 8192 <= n <= 8202
  {
  }

  /** What the constructor accepts. */
  predicate Valid(ref: SessionRef) {
    NonBlank(ref.authority) && NonBlank(ref.tenant) && NonBlank(ref.agent) && NonBlank(ref.session)
  }

  const Names := {"authority", "tenant_id", "agent_id", "session_id"}

  function Fields(ref: SessionRef): Json {
    Obj(map["authority" := Str(ref.authority), "tenant_id" := Str(ref.tenant),
            "agent_id" := Str(ref.agent), "session_id" := Str(ref.session)])
  }

  ghost function Token(ref: SessionRef): string {
    Base64.Encode(Utf8.Encode(Print(Fields(ref))))
  }

  /** The constructor applied to decoded fields: exactly the four names, each a nonblank string. */
  function FromFields(v: Json): (r: Option<SessionRef>)
    ensures r.Some? ==> Valid(r.value) && Fields(r.value) == v
  {
    if !v.Obj? || v.fields.Keys != Names then None
    else
      var (authority, tenant, agent, session) :=
        (v.fields["authority"], v.fields["tenant_id"], v.fields["agent_id"], v.fields["session_id"]);
      if !(authority.Str? && tenant.Str? && agent.Str? && session.Str?) then None
      else
        var ref := SessionRef(authority.text, tenant.text, agent.text, session.text);
        assert forall k :: k in v.fields ==> v.fields[k] == Fields(ref).fields[k];
        if Valid(ref) then Some(ref) else None
  }

  function Parse(token: string): Option<SessionRef> {
    if token == "" then None
    else
      match Base64.Read(token + Base64.Padding(|token|))
      case None => None
      case Some(bytes) =>
        match Utf8.Decode(bytes)
        case None => None
        case Some(text) =>
          match JsonText.Parse(text, false)
          case None => None
          case Some(v) => FromFields(v)
  }

  /** The text of a token decodes to the reference, with foreign characters in multiples of a group ignored. */
  lemma ParseReads(ref: SessionRef, junk: string)
    requires Valid(ref) && Base64.Foreign(junk) && |junk| % 4 == 0
    ensures Parse(Token(ref) + junk) == Some(ref)
  {
    hide Base64.Read, Base64.Encode, Base64.Padding, Utf8.Decode, Utf8.Encode, Print, JsonText.Parse, FromFields;
    hide Fields, Base64.Foreign, Valid;
    var text := Print(Fields(ref));
    var bytes := Utf8.Encode(text);
    var token := Base64.Encode(bytes);
    FieldsRoundTrip(ref);
    Utf8.RoundTrip(text);
    Base64.RoundTrip(bytes, junk);
    JunkKeepsPadding(|token|, |junk|);
    assert (token + junk) + Base64.Padding(|token|) == token + (junk + Base64.Padding(|token|));
    TokenIsNotEmpty(text);
  }

  lemma FieldsRoundTrip(ref: SessionRef)
    requires Valid(ref)
    ensures Wf(Fields(ref)) && FromFields(Fields(ref)) == Some(ref)
    ensures JsonText.Parse(Print(Fields(ref)), false) == Some(Fields(ref)) && Print(Fields(ref)) != ""
  {
    hide Print, JsonText.Parse, Valid;
    JsonText.RoundTrip(Fields(ref), false);
    PrintStart(Fields(ref));
    assert Fields(ref).fields.Keys == Names;
  }

  lemma JunkKeepsPadding(n: nat, m: nat)
    requires m % 4 == 0
    ensures Base64.Padding(n + m) == Base64.Padding(n)
  {
    assert (n + m) % 4 == n % 4;
  }

  lemma TokenIsNotEmpty(text: string)
    requires text != ""
    ensures Base64.Encode(Utf8.Encode(text)) != ""
  {
  }

  /** Printing and reading a reference gives it back, for any nonblank Unicode parts. */
  lemma TokenRoundTrip(ref: SessionRef)
    requires Valid(ref)
    ensures Parse(Token(ref)) == Some(ref)
  {
    ParseReads(ref, "");
    assert Token(ref) + "" == Token(ref);
  }

  lemma TokensAreInjective(a: SessionRef, b: SessionRef)
    requires Valid(a) && Valid(b) && Token(a) == Token(b)
    ensures a == b
  {
    TokenRoundTrip(a);
    TokenRoundTrip(b);
  }

  /** Tokens are not the only texts that parse: every reference has another spelling. */
  lemma ParseIsNotInjective(ref: SessionRef)
    requires Valid(ref)
    ensures Token(ref) + "!!!!" != Token(ref) && Parse(Token(ref) + "!!!!") == Parse(Token(ref)) == Some(ref)
  {
    ParseReads(ref, "!!!!");
    TokenRoundTrip(ref);
  }

  /** Whatever parses is a valid reference, so its own token reads back to it. */
  lemma ParsedRefersBack(text: string)
    requires Parse(text).Some?
    ensures Valid(Parse(text).value) && Parse(Token(Parse(text).value)) == Parse(text)
  {
    TokenRoundTrip(Parse(text).value);
  }
}
