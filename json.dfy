/** The JSON values `Add` marshals, the compact encoding `json.Marshal`
    produces for them, and a reader for that encoding. The reader is the
    partner of the encoder: every value the encoder accepts comes back
    unchanged from the text it produces (`RoundTrip`), and that text is a
    single line (`TextNoNewline`), which the bulk wire format relies on. */
module Json {
  import opened Types

  /** A JSON value as `json.Marshal` sees a Go value after reflection:
      struct fields in declaration order, map entries in sorted key order.
      `Unsupported` stands for the values Marshal rejects (channels,
      functions, complex numbers, NaN and infinities). */
  datatype Value =
    | Null
    | Bool(b: bool)
    | Num(n: int)
    | Str(s: bytes)
    | Arr(items: seq<Value>)
    | Obj(members: seq<Member>)
    | Unsupported

  datatype Member = Member(key: bytes, value: Value)

  // Punctuation and keywords of the encoding.
  const Quote: byte := 34          // "
  const Backslash: byte := 92      // \
  const Slash: byte := 47          // /
  const Comma: byte := 44          // ,
  const Colon: byte := 58          // :
  const Minus: byte := 45          // -
  const OpenBracket: byte := 91    // [
  const CloseBracket: byte := 93   // ]
  const OpenBrace: byte := 123     // {
  const CloseBrace: byte := 125    // }
  const NullText: bytes := [110, 117, 108, 108]         // null
  const TrueText: bytes := [116, 114, 117, 101]         // true
  const FalseText: bytes := [102, 97, 108, 115, 101]    // false

  /** Marshal succeeds on a value exactly when no part of it is unsupported. */
  predicate Serializable(v: Value)
    decreases v
  {
    match v
    case Unsupported => false
    case Arr(items) => ItemsSerializable(items)
    case Obj(members) => MembersSerializable(members)
    case _ => true
  }

  predicate ItemsSerializable(items: seq<Value>)
    decreases items
  {
    |items| == 0 || (Serializable(items[0]) && ItemsSerializable(items[1..]))
  }

  predicate MembersSerializable(ms: seq<Member>)
    decreases ms
  {
    |ms| == 0 || (Serializable(ms[0].value) && MembersSerializable(ms[1..]))
  }

  // ---------------------------------------------------------------------
  // The encoder
  // ---------------------------------------------------------------------

  predicate IsDigit(b: byte) {
    48 <= b <= 57
  }

  /** Lower-case hexadecimal digit, as Go's encoder writes them. */
  function HexDigit(d: nat): (r: byte)
    requires d < 16
  {
    if d < 10 then (48 + d) as byte else (87 + d) as byte
  }

  /** How Go's encoder writes one byte of a string: quote and backslash are
      escaped with a backslash, newline, carriage return and tab get their
      short escapes, the other control bytes and the HTML-sensitive `<`,
      `>` and `&` become `\u00XX`, and every other byte is copied. */
  function EscapeByte(b: byte): bytes {
    if b == Quote || b == Backslash then [Backslash, b]
    else if b == 10 then [Backslash, 110]
    else if b == 13 then [Backslash, 114]
    else if b == 9 then [Backslash, 116]
    else if b < 32 || b == 60 || b == 62 || b == 38 then
      [Backslash, 117, 48, 48, HexDigit(b as int / 16), HexDigit(b as int % 16)]
    else [b]
  }

  function Escape(s: bytes): bytes
    decreases |s|
  {
    if |s| == 0 then [] else EscapeByte(s[0]) + Escape(s[1..])
  }

  function Quoted(s: bytes): bytes {
    [Quote] + Escape(s) + [Quote]
  }

  /** Decimal digits of a natural number, without leading zeros. */
  function Digits(n: nat): bytes
    decreases n
  {
    if n < 10 then [(48 + n) as byte] else Digits(n / 10) + [(48 + n % 10) as byte]
  }

  /** The compact text of a value (no whitespace). Meaningful only for
      serializable values; `Encode` is the fallible entry point. */
  function Text(v: Value): bytes
    decreases v
  {
    match v
    case Null => NullText
    case Bool(b) => if b then TrueText else FalseText
    case Num(n) => if n < 0 then [Minus] + Digits(-n) else Digits(n)
    case Str(s) => Quoted(s)
    case Arr(items) => [OpenBracket] + ItemsText(items) + [CloseBracket]
    case Obj(ms) => [OpenBrace] + MembersText(ms) + [CloseBrace]
    case Unsupported => []
  }

  function ItemsText(items: seq<Value>): bytes
    decreases items
  {
    if |items| == 0 then []
    else if |items| == 1 then Text(items[0])
    else Text(items[0]) + [Comma] + ItemsText(items[1..])
  }

  function MemberText(m: Member): bytes
    decreases m
  {
    Quoted(m.key) + [Colon] + Text(m.value)
  }

  function MembersText(ms: seq<Member>): bytes
    decreases ms
  {
    if |ms| == 0 then []
    else if |ms| == 1 then MemberText(ms[0])
    else MemberText(ms[0]) + [Comma] + MembersText(ms[1..])
  }

  /** `json.Marshal`: fails on unsupported values, otherwise yields one line
      of text from which the reader recovers exactly the value marshalled. */
  function Encode(v: Value): (r: Result<bytes>)
    ensures r.Ok? <==> Serializable(v)
    ensures r.Err? ==> r.error == MarshalFailed
    ensures r.Ok? ==> NoNewline(r.value) && Decode(r.value) == Some(v)
  {
    if Serializable(v) then
      TextNoNewline(v);
      RoundTrip(v);
      Ok(Text(v))
    else
      Err(MarshalFailed)
  }

  // ---------------------------------------------------------------------
  // The reader: compact JSON, as the encoder writes it
  // ---------------------------------------------------------------------

  predicate IsHexDigit(b: byte) {
    IsDigit(b) || 97 <= b <= 102 || 65 <= b <= 70
  }

  function HexValue(b: byte): (d: nat)
    requires IsHexDigit(b)
    ensures d < 16
  {
    if IsDigit(b) then (b - 48) as nat
    else if 97 <= b then (b - 87) as nat
    else (b - 55) as nat
  }

  /** Reads one character of a string body: a plain byte (control bytes are
      not allowed raw) or an escape; `\u` escapes are read only below 0x80,
      where one code point is one byte. Returns the byte and how many input
      bytes it took. */
  function ReadChar(s: bytes): (r: Option<(byte, nat)>)
    requires |s| > 0
    ensures r.Some? ==> 0 < r.value.1 <= |s|
  {
    if s[0] == Backslash then
      if |s| < 2 then None
      else if s[1] == Quote || s[1] == Backslash || s[1] == Slash then Some((s[1], 2))
      else if s[1] == 98 then Some((8, 2))
      else if s[1] == 102 then Some((12, 2))
      else if s[1] == 110 then Some((10, 2))
      else if s[1] == 114 then Some((13, 2))
      else if s[1] == 116 then Some((9, 2))
      else if s[1] == 117 && |s| >= 6 && s[2] == 48 && s[3] == 48
              && IsHexDigit(s[4]) && HexValue(s[4]) < 8 && IsHexDigit(s[5]) then
        Some(((HexValue(s[4]) * 16 + HexValue(s[5])) as byte, 6))
      else None
    else if s[0] < 32 then None
    else Some((s[0], 1))
  }

  /** Reads a string body up to and including its closing quote. */
  function ReadString(s: bytes): (r: Option<(bytes, bytes)>)
    ensures r.Some? ==> |r.value.1| < |s|
    decreases |s|
  {
    if |s| == 0 then None
    else if s[0] == Quote then Some(([], s[1..]))
    else match ReadChar(s)
      case None => None
      case Some((c, k)) =>
        match ReadString(s[k..])
        case None => None
        case Some((t, rest)) => Some(([c] + t, rest))
  }

  /** Length of the run of decimal digits at the front of `s`. */
  function DigitRun(s: bytes): (n: nat)
    ensures n <= |s|
    decreases |s|
  {
    if |s| > 0 && IsDigit(s[0]) then 1 + DigitRun(s[1..]) else 0
  }

  function DigitsValue(ds: bytes): int
    decreases |ds|
  {
    if |ds| == 0 then 0 else DigitsValue(ds[..|ds| - 1]) * 10 + (ds[|ds| - 1] as int - 48)
  }

  /** Reads an integer: an optional minus sign and the longest run of digits. */
  function ReadNumber(s: bytes): (r: Option<(int, bytes)>)
    ensures r.Some? ==> |r.value.1| < |s|
  {
    if |s| > 0 && s[0] == Minus then
      var k := DigitRun(s[1..]);
      if k == 0 then None else Some((-DigitsValue(s[1..1 + k]), s[1 + k..]))
    else
      var k := DigitRun(s);
      if k == 0 then None else Some((DigitsValue(s[..k]), s[k..]))
  }

  /** Reads one value from the front of `s` and returns it with what follows. */
  function ReadValue(s: bytes): (r: Option<(Value, bytes)>)
    ensures r.Some? ==> |r.value.1| < |s|
    decreases |s|, 0
  {
    if |s| == 0 then None
    else if s[0] == NullText[0] then
      if |s| >= 4 && s[..4] == NullText then Some((Null, s[4..])) else None
    else if s[0] == TrueText[0] then
      if |s| >= 4 && s[..4] == TrueText then Some((Bool(true), s[4..])) else None
    else if s[0] == FalseText[0] then
      if |s| >= 5 && s[..5] == FalseText then Some((Bool(false), s[5..])) else None
    else if s[0] == Quote then
      match ReadString(s[1..])
      case None => None
      case Some((t, rest)) => Some((Str(t), rest))
    else if s[0] == OpenBracket then
      if |s| >= 2 && s[1] == CloseBracket then Some((Arr([]), s[2..]))
      else match ReadItems(s[1..])
        case None => None
        case Some((items, rest)) => Some((Arr(items), rest))
    else if s[0] == OpenBrace then
      if |s| >= 2 && s[1] == CloseBrace then Some((Obj([]), s[2..]))
      else match ReadMembers(s[1..])
        case None => None
        case Some((ms, rest)) => Some((Obj(ms), rest))
    else if s[0] == Minus || IsDigit(s[0]) then
      match ReadNumber(s)
      case None => None
      case Some((n, rest)) => Some((Num(n), rest))
    else None
  }

  /** Reads the elements of a non-empty array up to and including `]`. */
  function ReadItems(s: bytes): (r: Option<(seq<Value>, bytes)>)
    ensures r.Some? ==> |r.value.1| < |s|
    decreases |s|, 1
  {
    match ReadValue(s)
    case None => None
    case Some((v, rest)) =>
      if |rest| > 0 && rest[0] == Comma then
        match ReadItems(rest[1..])
        case None => None
        case Some((vs, rest')) => Some(([v] + vs, rest'))
      else if |rest| > 0 && rest[0] == CloseBracket then Some(([v], rest[1..]))
      else None
  }

  /** Reads one `"key":value` member of an object. */
  function ReadMember(s: bytes): (r: Option<(Member, bytes)>)
    ensures r.Some? ==> |r.value.1| < |s|
    decreases |s|, 1
  {
    if |s| == 0 || s[0] != Quote then None
    else match ReadString(s[1..])
      case None => None
      case Some((key, rest)) =>
        if |rest| == 0 || rest[0] != Colon then None
        else match ReadValue(rest[1..])
          case None => None
          case Some((v, rest')) => Some((Member(key, v), rest'))
  }

  /** Reads the members of a non-empty object up to and including `}`. */
  function ReadMembers(s: bytes): (r: Option<(seq<Member>, bytes)>)
    ensures r.Some? ==> |r.value.1| < |s|
    decreases |s|, 2
  {
    match ReadMember(s)
    case None => None
    case Some((m, rest)) =>
      if |rest| > 0 && rest[0] == Comma then
        match ReadMembers(rest[1..])
        case None => None
        case Some((ms, rest')) => Some(([m] + ms, rest'))
      else if |rest| > 0 && rest[0] == CloseBrace then Some(([m], rest[1..]))
      else None
  }

  /** Reads a whole text as exactly one value. */
  function Decode(s: bytes): Option<Value> {
    match ReadValue(s)
    case None => None
    case Some((v, rest)) => if rest == [] then Some(v) else None
  }

  // ---------------------------------------------------------------------
  // The encoding is one line
  // ---------------------------------------------------------------------

  lemma EscapeByteNoNewline(b: byte)
    ensures NoNewline(EscapeByte(b))
  {
  }

  lemma {:induction false} EscapeNoNewline(s: bytes)
    ensures NoNewline(Escape(s))
    decreases |s|
  {
    if |s| > 0 {
      EscapeByteNoNewline(s[0]);
      EscapeNoNewline(s[1..]);
      NoNewlineConcat(EscapeByte(s[0]), Escape(s[1..]));
    }
  }

  /** Escaping never shortens a string. */
  lemma {:induction false} EscapeLength(s: bytes)
    ensures |Escape(s)| >= |s|
    decreases |s|
  {
    if |s| > 0 {
      EscapeLength(s[1..]);
    }
  }

  lemma QuotedNoNewline(s: bytes)
    ensures NoNewline(Quoted(s))
  {
    EscapeNoNewline(s);
    NoNewlineConcat([Quote], Escape(s));
    NoNewlineConcat([Quote] + Escape(s), [Quote]);
  }

  lemma {:induction false} DigitsAreDigits(n: nat)
    ensures |Digits(n)| > 0
    ensures forall i | 0 <= i < |Digits(n)| :: IsDigit(Digits(n)[i])
    decreases n
  {
    if n >= 10 {
      DigitsAreDigits(n / 10);
    }
  }

  /** The text of every value, serializable or not, holds no newline. */
  lemma {:induction false} TextNoNewline(v: Value)
    ensures NoNewline(Text(v))
    decreases v
  {
    match v
    case Null =>
    case Bool(b) =>
    case Num(n) =>
      DigitsAreDigits(if n < 0 then -n else n);
    case Str(s) =>
      QuotedNoNewline(s);
    case Arr(items) =>
      ItemsTextNoNewline(items);
      NoNewlineConcat([OpenBracket], ItemsText(items));
      NoNewlineConcat([OpenBracket] + ItemsText(items), [CloseBracket]);
    case Obj(ms) =>
      MembersTextNoNewline(ms);
      NoNewlineConcat([OpenBrace], MembersText(ms));
      NoNewlineConcat([OpenBrace] + MembersText(ms), [CloseBrace]);
    case Unsupported =>
  }

  lemma {:induction false} ItemsTextNoNewline(items: seq<Value>)
    ensures NoNewline(ItemsText(items))
    decreases items
  {
    if |items| == 1 {
      TextNoNewline(items[0]);
    } else if |items| > 1 {
      TextNoNewline(items[0]);
      ItemsTextNoNewline(items[1..]);
      NoNewlineConcat(Text(items[0]), [Comma]);
      NoNewlineConcat(Text(items[0]) + [Comma], ItemsText(items[1..]));
    }
  }

  lemma {:induction false} MemberTextNoNewline(m: Member)
    ensures NoNewline(MemberText(m))
    decreases m
  {
    QuotedNoNewline(m.key);
    TextNoNewline(m.value);
    NoNewlineConcat(Quoted(m.key), [Colon]);
    NoNewlineConcat(Quoted(m.key) + [Colon], Text(m.value));
  }

  lemma {:induction false} MembersTextNoNewline(ms: seq<Member>)
    ensures NoNewline(MembersText(ms))
    decreases ms
  {
    if |ms| == 1 {
      MemberTextNoNewline(ms[0]);
    } else if |ms| > 1 {
      MemberTextNoNewline(ms[0]);
      MembersTextNoNewline(ms[1..]);
      NoNewlineConcat(MemberText(ms[0]), [Comma]);
      NoNewlineConcat(MemberText(ms[0]) + [Comma], MembersText(ms[1..]));
    }
  }

  // ---------------------------------------------------------------------
  // Reading back what was written
  // ---------------------------------------------------------------------

  /** What may follow a value's text without being read as part of it: a
      number's digits would run on into a following digit. */
  predicate Delimited(rest: bytes) {
    rest == [] || !IsDigit(rest[0])
  }

  lemma EscapeByteRead(b: byte, rest: bytes)
    ensures |EscapeByte(b) + rest| > 0
    ensures (EscapeByte(b) + rest)[0] != Quote
    ensures ReadChar(EscapeByte(b) + rest) == Some((b, |EscapeByte(b)|))
  {
    var e := EscapeByte(b);
    var s := e + rest;
    if (b < 32 && b != 10 && b != 13 && b != 9) || b == 60 || b == 62 || b == 38 {
      var hi, lo := b as int / 16, b as int % 16;
      assert s[4] == HexDigit(hi) && s[5] == HexDigit(lo);
      assert HexValue(HexDigit(hi)) == hi;
      assert HexValue(HexDigit(lo)) == lo;
    }
  }

  lemma {:induction false} ReadEscaped(s: bytes, rest: bytes)
    ensures ReadString(Escape(s) + [Quote] + rest) == Some((s, rest))
    decreases |s|
  {
    if |s| == 0 {
      assert Escape(s) + [Quote] + rest == [Quote] + rest;
    } else {
      var e := EscapeByte(s[0]);
      var tail := Escape(s[1..]) + [Quote] + rest;
      Regroup4(e, Escape(s[1..]), [Quote], rest);
      EscapeByteRead(s[0], tail);
      DropPrefix(e, tail);
      ReadEscaped(s[1..], rest);
      ReadStringStep(e + tail, s[0], |e|, s[1..], rest);
      assert [s[0]] + s[1..] == s;
    }
  }

  /** One step of `ReadString`: a character, then the rest of the body. */
  lemma ReadStringStep(s: bytes, c: byte, k: nat, t: bytes, rest: bytes)
    requires |s| > 0 && s[0] != Quote
    requires ReadChar(s) == Some((c, k))
    requires ReadString(s[k..]) == Some((t, rest))
    ensures ReadString(s) == Some(([c] + t, rest))
  {
  }

  lemma Regroup4(a: bytes, b: bytes, c: bytes, d: bytes)
    ensures a + b + c + d == a + (b + c + d)
  {
  }

  lemma DropPrefix(a: bytes, b: bytes)
    ensures (a + b)[|a|..] == b
  {
  }

  lemma DropFirst(x: byte, b: bytes)
    ensures ([x] + b)[0] == x && ([x] + b)[1..] == b
  {
  }

  lemma {:induction false} DigitRunOf(ds: bytes, rest: bytes)
    requires forall i | 0 <= i < |ds| :: IsDigit(ds[i])
    requires Delimited(rest)
    ensures DigitRun(ds + rest) == |ds|
    decreases |ds|
  {
    if |ds| > 0 {
      assert (ds + rest)[1..] == ds[1..] + rest;
      DigitRunOf(ds[1..], rest);
    } else {
      assert ds + rest == rest;
    }
  }

  lemma {:induction false} DigitsValueOf(n: nat)
    ensures DigitsValue(Digits(n)) == n
    decreases n
  {
    if n >= 10 {
      var ds := Digits(n);
      assert ds[..|ds| - 1] == Digits(n / 10);
      DigitsValueOf(n / 10);
    }
  }

  lemma ReadDigits(n: nat, rest: bytes)
    requires Delimited(rest)
    ensures ReadNumber(Digits(n) + rest) == Some((n as int, rest))
    ensures ReadNumber([Minus] + Digits(n) + rest) == Some((-(n as int), rest))
  {
    var ds := Digits(n);
    DigitsAreDigits(n);
    DigitRunOf(ds, rest);
    DigitsValueOf(n);
    ReadUnsigned(ds, rest);
    ReadNegative(ds, rest);
  }

  lemma ReadUnsigned(ds: bytes, rest: bytes)
    requires |ds| > 0 && IsDigit(ds[0])
    requires DigitRun(ds + rest) == |ds|
    ensures ReadNumber(ds + rest) == Some((DigitsValue(ds), rest))
  {
    assert (ds + rest)[..|ds|] == ds;
    assert (ds + rest)[|ds|..] == rest;
  }

  lemma ReadNegative(ds: bytes, rest: bytes)
    requires |ds| > 0
    requires DigitRun(ds + rest) == |ds|
    ensures ReadNumber([Minus] + ds + rest) == Some((-DigitsValue(ds), rest))
  {
    var t := [Minus] + ds + rest;
    assert t[1..] == ds + rest;
    assert t[1..1 + |ds|] == ds;
    assert t[1 + |ds|..] == rest;
  }

  /** The first byte of a serializable value's text opens the value, so it
      is never a closing bracket or brace. */
  lemma TextStart(v: Value)
    requires Serializable(v)
    ensures |Text(v)| > 0
    ensures Text(v)[0] != CloseBracket && Text(v)[0] != CloseBrace
  {
    match v
    case Num(n) =>
      DigitsAreDigits(if n < 0 then -n else n);
    case _ =>
  }

  lemma ReadLiteralText(v: Value, rest: bytes)
    requires v.Null? || v.Bool?
    ensures ReadValue(Text(v) + rest) == Some((v, rest))
  {
    var s := Text(v) + rest;
    if v.Null? {
      assert s[..4] == NullText && s[4..] == rest;
    } else if v.b {
      assert s[..4] == TrueText && s[4..] == rest;
    } else {
      assert s[..5] == FalseText && s[5..] == rest;
    }
  }

  lemma ReadNumText(n: int, rest: bytes)
    requires Delimited(rest)
    ensures ReadValue(Text(Num(n)) + rest) == Some((Num(n), rest))
  {
    var s := Text(Num(n)) + rest;
    var m: nat := if n < 0 then -n else n;
    DigitsAreDigits(m);
    ReadDigits(m, rest);
    assert s[0] == Minus || IsDigit(s[0]);
  }

  lemma ReadStrText(t: bytes, rest: bytes)
    ensures ReadValue(Text(Str(t)) + rest) == Some((Str(t), rest))
  {
    var s := Text(Str(t)) + rest;
    assert s == [Quote] + (Escape(t) + [Quote] + rest);
    assert s[1..] == Escape(t) + [Quote] + rest;
    ReadEscaped(t, rest);
  }

  /** Reading the text of a serializable value, followed by anything that
      cannot extend it, yields the value and leaves what followed. */
  lemma {:induction false} ReadValueText(v: Value, rest: bytes)
    requires Serializable(v)
    requires Delimited(rest)
    ensures ReadValue(Text(v) + rest) == Some((v, rest))
    decreases v, 2
  {
    match v
    case Arr(items) => ReadArrText(items, rest);
    case Obj(ms) => ReadObjText(ms, rest);
    case Num(n) => ReadNumText(n, rest);
    case Str(t) => ReadStrText(t, rest);
    case _ => ReadLiteralText(v, rest);
  }

  lemma {:induction false} ReadArrText(items: seq<Value>, rest: bytes)
    requires ItemsSerializable(items)
    ensures ReadValue(Text(Arr(items)) + rest) == Some((Arr(items), rest))
    decreases items, 1
  {
    var s := Text(Arr(items)) + rest;
    assert s == [OpenBracket] + (ItemsText(items) + [CloseBracket] + rest);
    if |items| == 0 {
      assert s[2..] == rest;
    } else {
      TextStart(items[0]);
      assert s[1..] == ItemsText(items) + [CloseBracket] + rest;
      ReadItemsText(items, rest);
    }
  }

  lemma {:induction false} ReadObjText(ms: seq<Member>, rest: bytes)
    requires MembersSerializable(ms)
    ensures ReadValue(Text(Obj(ms)) + rest) == Some((Obj(ms), rest))
    decreases ms, 1
  {
    var s := Text(Obj(ms)) + rest;
    assert s == [OpenBrace] + (MembersText(ms) + [CloseBrace] + rest);
    if |ms| == 0 {
      assert s[2..] == rest;
    } else {
      assert s[1..] == MembersText(ms) + [CloseBrace] + rest;
      ReadMembersText(ms, rest);
    }
  }

  lemma {:induction false} ReadItemsText(items: seq<Value>, rest: bytes)
    requires |items| > 0 && ItemsSerializable(items)
    ensures ReadItems(ItemsText(items) + [CloseBracket] + rest) == Some((items, rest))
    decreases items, 0
  {
    var s := ItemsText(items) + [CloseBracket] + rest;
    if |items| == 1 {
      var after := [CloseBracket] + rest;
      assert s == Text(items[0]) + after;
      ReadValueText(items[0], after);
      ReadItemsLast(s, items[0], after);
      assert [items[0]] == items;
    } else {
      var more := ItemsText(items[1..]) + [CloseBracket] + rest;
      var tail := [Comma] + more;
      Regroup4(Text(items[0]) + [Comma], ItemsText(items[1..]), [CloseBracket], rest);
      assert s == Text(items[0]) + tail;
      ReadValueText(items[0], tail);
      DropFirst(Comma, more);
      ReadItemsText(items[1..], rest);
      ReadItemsStep(s, items[0], tail, items[1..], rest);
      assert [items[0]] + items[1..] == items;
    }
  }

  /** One step of `ReadItems`: a value, a comma, and the remaining items. */
  lemma ReadItemsStep(s: bytes, v: Value, rest: bytes, vs: seq<Value>, rest': bytes)
    requires ReadValue(s) == Some((v, rest))
    requires |rest| > 0 && rest[0] == Comma
    requires ReadItems(rest[1..]) == Some((vs, rest'))
    ensures ReadItems(s) == Some(([v] + vs, rest'))
  {
  }

  /** The last step of `ReadItems`: a value and the closing bracket. */
  lemma ReadItemsLast(s: bytes, v: Value, rest: bytes)
    requires ReadValue(s) == Some((v, rest))
    requires |rest| > 0 && rest[0] == CloseBracket
    ensures ReadItems(s) == Some(([v], rest[1..]))
  {
  }

  lemma {:induction false} ReadMemberText(m: Member, after: bytes)
    requires Serializable(m.value)
    requires Delimited(after)
    ensures ReadMember(MemberText(m) + after) == Some((m, after))
    ensures MemberText(m)[0] == Quote
    decreases m
  {
    var e := Escape(m.key);
    var t := Text(m.value);
    var value := [Colon] + (t + after);
    var s := MemberText(m) + after;
    MemberShape(e, t, after);
    DropFirst(Quote, e + [Quote] + value);
    DropFirst(Colon, t + after);
    ReadEscaped(m.key, value);
    ReadValueText(m.value, after);
    ReadMemberStep(s, m.key, value, m.value, after);
  }

  lemma MemberShape(e: bytes, t: bytes, after: bytes)
    ensures [Quote] + e + [Quote] + [Colon] + t + after
            == [Quote] + (e + [Quote] + ([Colon] + (t + after)))
  {
  }

  /** How `ReadMember` reads a key, a colon and a value. */
  lemma ReadMemberStep(s: bytes, key: bytes, value: bytes, v: Value, after: bytes)
    requires |s| > 0 && s[0] == Quote
    requires ReadString(s[1..]) == Some((key, value))
    requires |value| > 0 && value[0] == Colon
    requires ReadValue(value[1..]) == Some((v, after))
    ensures ReadMember(s) == Some((Member(key, v), after))
  {
  }

  lemma {:induction false} ReadMembersText(ms: seq<Member>, rest: bytes)
    requires |ms| > 0 && MembersSerializable(ms)
    ensures ReadMembers(MembersText(ms) + [CloseBrace] + rest) == Some((ms, rest))
    ensures MembersText(ms)[0] == Quote
    decreases ms, 0
  {
    var s := MembersText(ms) + [CloseBrace] + rest;
    if |ms| == 1 {
      var after := [CloseBrace] + rest;
      assert s == MemberText(ms[0]) + after;
      ReadMemberText(ms[0], after);
      ReadMembersLast(s, ms[0], after);
      assert [ms[0]] == ms;
    } else {
      var more := MembersText(ms[1..]) + [CloseBrace] + rest;
      var tail := [Comma] + more;
      Regroup4(MemberText(ms[0]) + [Comma], MembersText(ms[1..]), [CloseBrace], rest);
      assert s == MemberText(ms[0]) + tail;
      ReadMemberText(ms[0], tail);
      DropFirst(Comma, more);
      ReadMembersText(ms[1..], rest);
      ReadMembersStep(s, ms[0], tail, ms[1..], rest);
      assert [ms[0]] + ms[1..] == ms;
    }
  }

  /** One step of `ReadMembers`: a member, a comma, and the remaining members. */
  lemma ReadMembersStep(s: bytes, m: Member, rest: bytes, ms: seq<Member>, rest': bytes)
    requires ReadMember(s) == Some((m, rest))
    requires |rest| > 0 && rest[0] == Comma
    requires ReadMembers(rest[1..]) == Some((ms, rest'))
    ensures ReadMembers(s) == Some(([m] + ms, rest'))
  {
  }

  /** The last step of `ReadMembers`: a member and the closing brace. */
  lemma ReadMembersLast(s: bytes, m: Member, rest: bytes)
    requires ReadMember(s) == Some((m, rest))
    requires |rest| > 0 && rest[0] == CloseBrace
    ensures ReadMembers(s) == Some(([m], rest[1..]))
  {
  }

  /** The text of a serializable value decodes to that value. */
  lemma RoundTrip(v: Value)
    requires Serializable(v)
    ensures Decode(Text(v)) == Some(v)
  {
    assert Text(v) + [] == Text(v);
    ReadValueText(v, []);
  }
}
