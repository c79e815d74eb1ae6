/** Canonical JSON text: sorted keys, no spaces, and one of two string escapings --
    everything outside printable ASCII escaped, or left as it is. */
module CanonicalJson {

  /** A JSON value. Numbers, booleans and null are kept as their bare token; an
      object lists its fields in key order. */
  datatype Json =
    | Token(token: string)
    | Text(text: string)
    | Array(items: seq<Json>)
    | Object(fields: seq<Field>)

  datatype Field = Field(name: string, value: Json)

  predicate Bare(c: char) {
    'a' <= c <= 'z' || 'A' <= c <= 'Z' || '0' <= c <= '9' || c == '-' || c == '+' || c == '.'
  }

  predicate WellFormed(j: Json)
    decreases j
  {
    match j
    case Token(t) => t != "" && forall c :: c in t ==> Bare(c)
    case Text(_) => true
    case Array(items) => forall i :: 0 <= i < |items| ==> WellFormed(items[i])
    case Object(fields) => forall i :: 0 <= i < |fields| ==> WellFormed(fields[i].value)
  }

  // ---------------------------------------------------------------------
  // Encoding
  // ---------------------------------------------------------------------

  const HEX := "0123456789abcdef"

  function Hex4(n: nat): (s: string)
    requires n < 0x10000
    ensures |s| == 4
  {
    [HEX[n / 4096], HEX[n / 256 % 16], HEX[n / 16 % 16], HEX[n % 16]]
  }

  /** One \u escape, or a surrogate pair of them above the basic plane. */
  function Unicode(n: nat): string
    requires n < 0x110000
  {
    if n < 0x10000 then "\\u" + Hex4(n)
    else "\\u" + Hex4(HighSurrogate(n)) + "\\u" + Hex4(LowSurrogate(n))
  }

  function HighSurrogate(n: nat): (h: nat)
    requires 0x10000 <= n < 0x110000
    ensures 0xd800 <= h < 0xdc00
  {
    0xd800 + (n - 0x10000) / 1024
  }

  function LowSurrogate(n: nat): (l: nat)
    requires 0x10000 <= n < 0x110000
    ensures 0xdc00 <= l < 0xe000
  {
    0xdc00 + (n - 0x10000) % 1024
  }

  predicate Printable(c: char) {
    ' ' <= c <= '~'
  }

  /** The characters with a two-character escape of their own. */
  function ShortEscape(c: char): (e: char)
    ensures e != 'u'
  {
    if c == '"' then '"' else if c == '\\' then '\\'
    else if c == '\n' then 'n' else if c == '\r' then 'r' else if c == '\t' then 't'
    else if c as int == 8 then 'b' else if c as int == 12 then 'f' else ' '
  }

  predicate HasShortEscape(c: char) {
    ShortEscape(c) != ' '
  }

  function EscapeChar(c: char, ascii: bool): string {
    if HasShortEscape(c) then ['\\', ShortEscape(c)]
    else if c < ' ' || (ascii && !Printable(c)) then Unicode(c as int)
    else [c]
  }

  function Escape(s: string, ascii: bool): string {
    if s == "" then "" else EscapeChar(s[0], ascii) + Escape(s[1..], ascii)
  }

  function Quote(s: string, ascii: bool): string {
    "\"" + Escape(s, ascii) + "\""
  }

  function Encode(j: Json, ascii: bool): string
    decreases j, 1
  {
    match j
    case Token(t) => t
    case Text(s) => Quote(s, ascii)
    case Array(items) => "[" + EncodeItems(items, ascii)
    case Object(fields) => "{" + EncodeFields(fields, ascii)
  }

  /** The rest of an array, up to and including its closing bracket. */
  function EncodeItems(items: seq<Json>, ascii: bool): string
    decreases items, 0
  {
    if items == [] then "]"
    else Encode(items[0], ascii) + (if |items| == 1 then "]" else "," + EncodeItems(items[1..], ascii))
  }

  function EncodeFields(fields: seq<Field>, ascii: bool): string
    decreases fields, 0
  {
    if fields == [] then "}"
    else Quote(fields[0].name, ascii) + ":" + Encode(fields[0].value, ascii)
         + (if |fields| == 1 then "}" else "," + EncodeFields(fields[1..], ascii))
  }

  // ---------------------------------------------------------------------
  // The two escapings agree exactly on plain text
  // ---------------------------------------------------------------------

  const DEL: char := 127 as char

  predicate Plain(s: string) {
    forall c :: c in s ==> c < DEL
  }

  /** Every string in the value, keys included, stays below the first character the
      ASCII escaping rewrites. */
  predicate AllPlain(j: Json)
    decreases j
  {
    match j
    case Token(_) => true
    case Text(s) => Plain(s)
    case Array(items) => forall i :: 0 <= i < |items| ==> AllPlain(items[i])
    case Object(fields) => forall i :: 0 <= i < |fields| ==> Plain(fields[i].name) && AllPlain(fields[i].value)
  }

  lemma {:induction false} Hex4IsPlain(n: nat)
    requires n < 0x10000
    ensures Plain(Hex4(n))
  {
    assert forall i :: 0 <= i < 16 ==> HEX[i] < DEL;
  }

  lemma {:induction false} UnicodeIsPlain(n: nat)
    requires n < 0x110000
    ensures Plain(Unicode(n))
  {
    if n < 0x10000 {
      Hex4IsPlain(n);
    } else {
      PairIsPlain(HighSurrogate(n), LowSurrogate(n));
    }
  }

  lemma {:induction false} PairIsPlain(m: nat, n: nat)
    requires m < 0x10000 && n < 0x10000
    ensures Plain("\\u" + Hex4(m) + "\\u" + Hex4(n))
  {
    Hex4IsPlain(m);
    Hex4IsPlain(n);
    var first, second := Hex4(m), Hex4(n);
    PlainConcat("\\u", first);
    PlainConcat("\\u" + first, "\\u");
    PlainConcat("\\u" + first + "\\u", second);
  }

  lemma {:induction false} EscapeCharModes(c: char)
    ensures Plain(EscapeChar(c, true))
    ensures c < DEL ==> EscapeChar(c, false) == EscapeChar(c, true)
    ensures c >= DEL ==> EscapeChar(c, false) == [c]
  {
    UnicodeIsPlain(c as int);
  }

  lemma {:induction false} PlainConcat(a: string, b: string)
    ensures Plain(a + b) <==> Plain(a) && Plain(b)
  {
    assert forall c :: c in a + b <==> c in a || c in b;
  }

  lemma {:induction false} EscapeModes(s: string)
    ensures Plain(Escape(s, true))
    ensures Plain(s) ==> Escape(s, false) == Escape(s, true)
    ensures !Plain(s) ==> !Plain(Escape(s, false))
  {
    if s != "" {
      EscapeCharModes(s[0]);
      EscapeModes(s[1..]);
      assert s == [s[0]] + s[1..];
      PlainConcat(EscapeChar(s[0], false), Escape(s[1..], false));
      PlainConcat(EscapeChar(s[0], true), Escape(s[1..], true));
      PlainConcat([s[0]], s[1..]);
      assert Plain(s) ==> s[0] in s && s[0] < DEL;
    }
  }

  lemma {:induction false} QuoteModes(s: string)
    ensures Plain(Quote(s, true))
    ensures Plain(s) ==> Quote(s, false) == Quote(s, true)
    ensures !Plain(s) ==> !Plain(Quote(s, false))
  {
    EscapeModes(s);
    PlainConcat("\"", Escape(s, false));
    PlainConcat("\"" + Escape(s, false), "\"");
  }

  lemma {:induction false} EncodeModes(j: Json)
    requires WellFormed(j)
    ensures Plain(Encode(j, true))
    ensures AllPlain(j) ==> Encode(j, false) == Encode(j, true)
    ensures !AllPlain(j) ==> !Plain(Encode(j, false))
    decreases j, 1
  {
    match j
    case Token(t) =>
    case Text(s) => QuoteModes(s);
    case Array(items) =>
      ItemsModes(items);
      PlainConcat("[", EncodeItems(items, false));
    case Object(fields) =>
      FieldsModes(fields);
      PlainConcat("{", EncodeFields(fields, false));
  }

  lemma {:induction false} ItemsModes(items: seq<Json>)
    requires forall i :: 0 <= i < |items| ==> WellFormed(items[i])
    ensures Plain(EncodeItems(items, true))
    ensures (forall i :: 0 <= i < |items| ==> AllPlain(items[i])) ==>
              EncodeItems(items, false) == EncodeItems(items, true)
    ensures (exists i :: 0 <= i < |items| && !AllPlain(items[i])) ==> !Plain(EncodeItems(items, false))
    decreases items, 0
  {
    if items != [] {
      EncodeModes(items[0]);
      ItemsModes(items[1..]);
      var tail := if |items| == 1 then "]" else "," + EncodeItems(items[1..], false);
      PlainConcat(Encode(items[0], false), tail);
      PlainConcat(",", EncodeItems(items[1..], false));
      if i :| 0 <= i < |items| && !AllPlain(items[i]) {
        assert i > 0 ==> items[1..][i - 1] == items[i];
      }
    }
  }

  lemma {:induction false} FieldsModes(fields: seq<Field>)
    requires forall i :: 0 <= i < |fields| ==> WellFormed(fields[i].value)
    ensures Plain(EncodeFields(fields, true))
    ensures (forall i :: 0 <= i < |fields| ==> Plain(fields[i].name) && AllPlain(fields[i].value)) ==>
              EncodeFields(fields, false) == EncodeFields(fields, true)
    ensures (exists i :: 0 <= i < |fields| && !(Plain(fields[i].name) && AllPlain(fields[i].value))) ==>
              !Plain(EncodeFields(fields, false))
    decreases fields, 0
  {
    if fields != [] {
      var name, value := Quote(fields[0].name, false), Encode(fields[0].value, false);
      QuoteModes(fields[0].name);
      EncodeModes(fields[0].value);
      FieldsModes(fields[1..]);
      var tail := if |fields| == 1 then "}" else "," + EncodeFields(fields[1..], false);
      PlainPieces(name, value, tail);
      PlainConcat(",", EncodeFields(fields[1..], false));
      var name', value' := Quote(fields[0].name, true), Encode(fields[0].value, true);
      var tail' := if |fields| == 1 then "}" else "," + EncodeFields(fields[1..], true);
      PlainPieces(name', value', tail');
      PlainConcat(",", EncodeFields(fields[1..], true));
      if i :| 0 <= i < |fields| && !(Plain(fields[i].name) && AllPlain(fields[i].value)) {
        assert i > 0 ==> fields[1..][i - 1] == fields[i];
      }
    }
  }

  lemma {:induction false} PlainPieces(name: string, value: string, tail: string)
    ensures Plain(name + ":" + value + tail) <==> Plain(name) && Plain(value) && Plain(tail)
  {
    PlainConcat(name + ":" + value, tail);
    PlainConcat(name + ":", value);
    PlainConcat(name, ":");
  }

  /** The escaped and the unescaped text of a value are the same exactly when every
      string in it is plain. */
  lemma {:induction false} ModesAgreeIffPlain(j: Json)
    requires WellFormed(j)
    ensures Encode(j, false) == Encode(j, true) <==> AllPlain(j)
  {
    EncodeModes(j);
  }

  // ---------------------------------------------------------------------
  // The escaped text determines the value
  // ---------------------------------------------------------------------

  lemma {:induction false} HexDigits(n: nat)
    requires n < 0x10000
    ensures n == 4096 * (n / 4096) + 256 * (n / 256 % 16) + 16 * (n / 16 % 16) + n % 16
  {
    var a := n / 16;
    var b := a / 16;
    QuotientSplits(n);
    QuotientSplits(a);
    QuotientSplits(b);
    SmallerQuotients(n);
  }

  lemma {:induction false} QuotientSplits(n: nat)
    ensures n == 16 * (n / 16) + n % 16
  {
  }

  lemma {:induction false} SmallerQuotients(n: nat)
    ensures n / 256 == n / 16 / 16
    ensures n / 4096 == n / 256 / 16
  {
  }

  lemma {:induction false} HexInjective()
    ensures forall i, j :: 0 <= i < j < 16 ==> HEX[i] != HEX[j]
  {
    assert forall i :: 0 <= i < 10 ==> HEX[i] == ('0' as int + i) as char;
    assert forall i :: 10 <= i < 16 ==> HEX[i] == ('a' as int + (i - 10)) as char;
  }

  lemma {:induction false} Hex4Injective(m: nat, n: nat)
    requires m < 0x10000 && n < 0x10000 && Hex4(m) == Hex4(n)
    ensures m == n
  {
    HexInjective();
    HexDigits(m);
    HexDigits(n);
    var a, b := Hex4(m), Hex4(n);
    assert a[0] == b[0] && a[1] == b[1] && a[2] == b[2] && a[3] == b[3];
  }

  lemma {:induction false} Taken(a: string, x: string, b: string, y: string, n: nat)
    requires a + x == b + y && n <= |a| && n <= |b|
    ensures a[..n] == b[..n]
  {
    assert (a + x)[..n] == a[..n] && (b + y)[..n] == b[..n];
  }

  lemma {:induction false} Dropped(a: string, x: string, b: string, y: string)
    requires a + x == b + y && |a| == |b|
    ensures a == b && x == y
  {
    Taken(a, x, b, y, |a|);
    assert (a + x)[|a|..] == x && (b + y)[|b|..] == y;
  }

  predicate Scalar(n: nat) {
    n < 0xd800 || 0xe000 <= n < 0x110000
  }

  /** The first code unit of a character. */
  function Lead(n: nat): (u: nat)
    requires n < 0x110000
    ensures u < 0x10000
  {
    if n < 0x10000 then n else HighSurrogate(n)
  }

  /** What follows the first code unit's escape. */
  function Trail(n: nat): string
    requires n < 0x110000
  {
    if n < 0x10000 then "" else "\\u" + Hex4(LowSurrogate(n))
  }

  lemma {:induction false} UnicodeSplits(n: nat, x: string)
    requires n < 0x110000
    ensures Unicode(n) + x == "\\u" + (Hex4(Lead(n)) + (Trail(n) + x))
  {
    var lead, trail := Hex4(Lead(n)), Trail(n);
    assert Unicode(n) == "\\u" + lead + trail;
    Assoc("\\u", lead, trail);
    Assoc("\\u", lead + trail, x);
    Assoc(lead, trail, x);
  }

  lemma {:induction false} TrailPrefix(m: nat, n: nat, x: string, y: string)
    requires 0x10000 <= m < 0x110000 && 0x10000 <= n < 0x110000
    requires Trail(m) + x == Trail(n) + y
    ensures (m - 0x10000) % 1024 == (n - 0x10000) % 1024 && x == y
  {
    var i, j := 0xdc00 + (m - 0x10000) % 1024, 0xdc00 + (n - 0x10000) % 1024;
    Dropped(Trail(m), x, Trail(n), y);
    assert Trail(m)[2..] == Hex4(i) && Trail(n)[2..] == Hex4(j);
    Hex4Injective(i, j);
  }

  lemma {:induction false} UnicodePrefix(m: nat, n: nat, x: string, y: string)
    requires Scalar(m) && Scalar(n) && Unicode(m) + x == Unicode(n) + y
    ensures m == n && x == y
  {
    UnicodeSplits(m, x);
    UnicodeSplits(n, y);
    Dropped("\\u", Hex4(Lead(m)) + (Trail(m) + x), "\\u", Hex4(Lead(n)) + (Trail(n) + y));
    Dropped(Hex4(Lead(m)), Trail(m) + x, Hex4(Lead(n)), Trail(n) + y);
    Hex4Injective(Lead(m), Lead(n));
    SameLead(m, n);
    if m >= 0x10000 {
      TrailPrefix(m, n, x, y);
    } else {
      Dropped("", x, "", y);
    }
  }

  /** A surrogate is not a character, so the first unit tells the two planes apart. */
  lemma {:induction false} SameLead(m: nat, n: nat)
    requires Scalar(m) && Scalar(n) && Lead(m) == Lead(n)
    ensures m < 0x10000 <==> n < 0x10000
    ensures m < 0x10000 ==> m == n
    ensures m >= 0x10000 ==> (m - 0x10000) / 1024 == (n - 0x10000) / 1024
  {
  }

  predicate UnicodeEscaped(c: char) {
    !HasShortEscape(c) && !Printable(c)
  }

  lemma {:induction false} EscapeHead(c: char)
    ensures EscapeChar(c, true) != "" && EscapeChar(c, true)[0] != '"'
    ensures HasShortEscape(c) ==> EscapeChar(c, true) == ['\\', ShortEscape(c)]
    ensures UnicodeEscaped(c) ==> EscapeChar(c, true) == Unicode(c as int)
    ensures UnicodeEscaped(c) ==> EscapeChar(c, true)[0] == '\\' && EscapeChar(c, true)[1] == 'u'
    ensures !HasShortEscape(c) && !UnicodeEscaped(c) ==>
              EscapeChar(c, true) == [c] && c != '\\'
  {
  }

  lemma {:induction false} EscapeCharPrefix(c: char, d: char, x: string, y: string)
    requires EscapeChar(c, true) + x == EscapeChar(d, true) + y
    ensures c == d && x == y
  {
    EscapeHead(c);
    EscapeHead(d);
    var e, f := EscapeChar(c, true), EscapeChar(d, true);
    Taken(e, x, f, y, 1);
    assert e[..1][0] == e[0] && f[..1][0] == f[0];
    if e[0] == '\\' {
      Taken(e, x, f, y, 2);
      assert e[..2][1] == e[1] && f[..2][1] == f[1];
      if UnicodeEscaped(c) {
        UnicodePrefix(c as int, d as int, x, y);
      } else {
        Dropped(e, x, f, y);
      }
    } else {
      Dropped(e, x, f, y);
    }
  }

  // The encoder again, with the text that follows carried along: the same text, in
  // a form whose head can be compared without re-associating concatenations.

  function EscapeThen(s: string, x: string): string {
    if s == "" then "\"" + x else EscapeChar(s[0], true) + EscapeThen(s[1..], x)
  }

  function EncodeThen(j: Json, x: string): string
    decreases j, 1
  {
    match j
    case Token(t) => t + x
    case Text(s) => "\"" + EscapeThen(s, x)
    case Array(items) => "[" + ItemsThen(items, x)
    case Object(fields) => "{" + FieldsThen(fields, x)
  }

  function ItemsThen(items: seq<Json>, x: string): string
    decreases items, 0
  {
    if items == [] then "]" + x
    else EncodeThen(items[0], if |items| == 1 then "]" + x else "," + ItemsThen(items[1..], x))
  }

  function FieldsThen(fields: seq<Field>, x: string): string
    decreases fields, 0
  {
    if fields == [] then "}" + x
    else "\"" + EscapeThen(fields[0].name,
                  ":" + EncodeThen(fields[0].value,
                         if |fields| == 1 then "}" + x else "," + FieldsThen(fields[1..], x)))
  }

  lemma {:induction false} Assoc(a: string, b: string, c: string)
    ensures (a + b) + c == a + (b + c)
  {
  }

  lemma {:induction false} EscapeThenIs(s: string, x: string)
    ensures EscapeThen(s, x) == Escape(s, true) + ("\"" + x)
  {
    if s != "" {
      EscapeThenIs(s[1..], x);
      Assoc(EscapeChar(s[0], true), Escape(s[1..], true), "\"" + x);
    }
  }

  lemma {:induction false} QuoteThenIs(s: string, x: string)
    ensures "\"" + EscapeThen(s, x) == Quote(s, true) + x
  {
    EscapeThenIs(s, x);
    Assoc("\"", Escape(s, true), "\"" + x);
    Assoc("\"" + Escape(s, true), "\"", x);
  }

  lemma {:induction false} EncodeThenIs(j: Json, x: string)
    ensures EncodeThen(j, x) == Encode(j, true) + x
    decreases j, 1
  {
    match j
    case Token(t) =>
    case Text(s) => QuoteThenIs(s, x);
    case Array(items) =>
      ItemsThenIs(items, x);
      Assoc("[", EncodeItems(items, true), x);
    case Object(fields) =>
      FieldsThenIs(fields, x);
      Assoc("{", EncodeFields(fields, true), x);
  }

  lemma {:induction false} ItemsThenIs(items: seq<Json>, x: string)
    ensures ItemsThen(items, x) == EncodeItems(items, true) + x
    decreases items, 0
  {
    if items != [] {
      var rest := if |items| == 1 then "]" else "," + EncodeItems(items[1..], true);
      if |items| > 1 {
        ItemsThenIs(items[1..], x);
        Assoc(",", EncodeItems(items[1..], true), x);
      }
      EncodeThenIs(items[0], rest + x);
      Assoc(Encode(items[0], true), rest, x);
    }
  }

  lemma {:induction false} FieldsThenIs(fields: seq<Field>, x: string)
    ensures FieldsThen(fields, x) == EncodeFields(fields, true) + x
    decreases fields, 0
  {
    if fields != [] {
      var rest := if |fields| == 1 then "}" else "," + EncodeFields(fields[1..], true);
      if |fields| > 1 {
        FieldsThenIs(fields[1..], x);
        Assoc(",", EncodeFields(fields[1..], true), x);
      }
      var q, v := Quote(fields[0].name, true), Encode(fields[0].value, true);
      EncodeThenIs(fields[0].value, rest + x);
      QuoteThenIs(fields[0].name, ":" + (v + (rest + x)));
      Assoc(v, rest, x);
      Assoc(":", v + rest, x);
      Assoc(":", v, rest);
      Assoc(q, ":" + (v + rest), x);
      Assoc(q, ":", v);
      Assoc(q, ":" + v, rest);
    }
  }

  // ---------------------------------------------------------------------

  lemma {:induction false} EscapeThenPrefix(s: string, t: string, x: string, y: string)
    requires EscapeThen(s, x) == EscapeThen(t, y)
    ensures s == t && x == y
    decreases |s|
  {
    if s != "" {
      EscapeHead(s[0]);
      assert EscapeThen(s, x)[0] == EscapeChar(s[0], true)[0];
    }
    if t != "" {
      EscapeHead(t[0]);
      assert EscapeThen(t, y)[0] == EscapeChar(t[0], true)[0];
    }
    if s != "" && t != "" {
      EscapeCharPrefix(s[0], t[0], EscapeThen(s[1..], x), EscapeThen(t[1..], y));
      EscapeThenPrefix(s[1..], t[1..], x, y);
      assert s == [s[0]] + s[1..] && t == [t[0]] + t[1..];
    } else {
      Dropped("\"", x, "\"", y);
    }
  }

  /** Where a bare token must end. */
  predicate Stops(x: string) {
    x == "" || x[0] == ',' || x[0] == ']' || x[0] == '}'
  }

  function BareLength(s: string): nat {
    if s != "" && Bare(s[0]) then 1 + BareLength(s[1..]) else 0
  }

  lemma {:induction false} TokenLength(t: string, x: string)
    requires (forall c :: c in t ==> Bare(c)) && Stops(x)
    ensures BareLength(t + x) == |t|
  {
    if t == "" {
      assert t + x == x;
    } else {
      assert (t + x)[0] == t[0] && t[0] in t && (t + x)[1..] == t[1..] + x;
      TokenLength(t[1..], x);
    }
  }

  /** What the first character of an encoding says. */
  lemma {:induction false} EncodeHead(j: Json, x: string)
    requires WellFormed(j)
    ensures EncodeThen(j, x) != ""
    ensures j.Token? <==> Bare(EncodeThen(j, x)[0])
    ensures j.Text? <==> EncodeThen(j, x)[0] == '"'
    ensures j.Array? <==> EncodeThen(j, x)[0] == '['
    ensures j.Object? <==> EncodeThen(j, x)[0] == '{'
  {
    if j.Token? {
      assert j.token[0] in j.token;
    }
  }

  /** No well-formed value's text is the start of another's, up to where it ends. */
  lemma {:induction false} EncodePrefix(a: Json, b: Json, x: string, y: string)
    requires WellFormed(a) && WellFormed(b) && Stops(x) && Stops(y)
    requires EncodeThen(a, x) == EncodeThen(b, y)
    ensures a == b && x == y
    decreases a, 1
  {
    EncodeHead(a, x);
    EncodeHead(b, y);
    if a.Token? {
      TokenLength(a.token, x);
      TokenLength(b.token, y);
      Dropped(a.token, x, b.token, y);
    } else if a.Text? {
      Dropped("\"", EscapeThen(a.text, x), "\"", EscapeThen(b.text, y));
      EscapeThenPrefix(a.text, b.text, x, y);
    } else if a.Array? {
      Dropped("[", ItemsThen(a.items, x), "[", ItemsThen(b.items, y));
      ItemsPrefix(a.items, b.items, x, y);
    } else {
      Dropped("{", FieldsThen(a.fields, x), "{", FieldsThen(b.fields, y));
      FieldsPrefix(a.fields, b.fields, x, y);
    }
  }

  lemma {:induction false} SameHeadAndTail<T>(a: seq<T>, b: seq<T>)
    requires a != [] && b != [] && a[0] == b[0] && a[1..] == b[1..]
    ensures a == b
  {
    assert a == [a[0]] + a[1..] && b == [b[0]] + b[1..];
  }

  lemma {:induction false} ItemsHead(items: seq<Json>, x: string)
    requires forall i :: 0 <= i < |items| ==> WellFormed(items[i])
    ensures ItemsThen(items, x) != "" && (ItemsThen(items, x)[0] == ']' <==> items == [])
  {
    if items != [] {
      EncodeHead(items[0], if |items| == 1 then "]" + x else "," + ItemsThen(items[1..], x));
    }
  }

  lemma {:induction false} ItemsPrefix(a: seq<Json>, b: seq<Json>, x: string, y: string)
    requires forall i :: 0 <= i < |a| ==> WellFormed(a[i])
    requires forall i :: 0 <= i < |b| ==> WellFormed(b[i])
    requires ItemsThen(a, x) == ItemsThen(b, y)
    ensures a == b && x == y
    decreases a, 0
  {
    ItemsHead(a, x);
    ItemsHead(b, y);
    if a == [] || b == [] {
      Dropped("]", x, "]", y);
    } else {
      var p := if |a| == 1 then "]" + x else "," + ItemsThen(a[1..], x);
      var q := if |b| == 1 then "]" + y else "," + ItemsThen(b[1..], y);
      EncodePrefix(a[0], b[0], p, q);
      assert p[0] == q[0];
      if |a| == 1 {
        Dropped("]", x, "]", y);
      } else {
        Dropped(",", ItemsThen(a[1..], x), ",", ItemsThen(b[1..], y));
        ItemsPrefix(a[1..], b[1..], x, y);
        SameHeadAndTail(a, b);
      }
    }
  }

  lemma {:induction false} FieldPrefix(a: Field, b: Field, p: string, q: string)
    requires WellFormed(a.value) && WellFormed(b.value)
    requires Stops(p) && Stops(q)
    requires "\"" + EscapeThen(a.name, ":" + EncodeThen(a.value, p))
             == "\"" + EscapeThen(b.name, ":" + EncodeThen(b.value, q))
    ensures a == b && p == q
    decreases a, 0
  {
    var v, w := EncodeThen(a.value, p), EncodeThen(b.value, q);
    Dropped("\"", EscapeThen(a.name, ":" + v), "\"", EscapeThen(b.name, ":" + w));
    EscapeThenPrefix(a.name, b.name, ":" + v, ":" + w);
    Dropped(":", v, ":", w);
    EncodePrefix(a.value, b.value, p, q);
  }

  lemma {:induction false} FieldsPrefix(a: seq<Field>, b: seq<Field>, x: string, y: string)
    requires forall i :: 0 <= i < |a| ==> WellFormed(a[i].value)
    requires forall i :: 0 <= i < |b| ==> WellFormed(b[i].value)
    requires FieldsThen(a, x) == FieldsThen(b, y)
    ensures a == b && x == y
    decreases a, 0
  {
    assert FieldsThen(a, x)[0] == FieldsThen(b, y)[0];
    if a == [] {
      Dropped("}", x, "}", y);
    } else {
      var p := if |a| == 1 then "}" + x else "," + FieldsThen(a[1..], x);
      var q := if |b| == 1 then "}" + y else "," + FieldsThen(b[1..], y);
      FieldPrefix(a[0], b[0], p, q);
      assert p[0] == q[0];
      if |a| == 1 {
        Dropped("}", x, "}", y);
      } else {
        Dropped(",", FieldsThen(a[1..], x), ",", FieldsThen(b[1..], y));
        FieldsPrefix(a[1..], b[1..], x, y);
        SameHeadAndTail(a, b);
      }
    }
  }

  /** Canonical text is injective: two well-formed values with the same escaped text
      are the same value. */
  lemma {:induction false} EncodeInjective(a: Json, b: Json)
    requires WellFormed(a) && WellFormed(b) && Encode(a, true) == Encode(b, true)
    ensures a == b
  {
    EncodeThenIs(a, "");
    EncodeThenIs(b, "");
    EncodePrefix(a, b, "", "");
  }
}
