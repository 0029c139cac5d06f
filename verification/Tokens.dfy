/** Canonical serialisation and the default token estimator (src/hexashard/tokens.py). */
module Tokens {
  import opened Common

  const CHARS_PER_TOKEN := 4

  /** A JSON value. Object fields are listed in the order they are written; callers list them sorted by key. */
  datatype Json =
    | Null
    | Bool(b: bool)
    | Num(n: int)
    | Str(s: string)
    | Arr(items: seq<Json>)
    | Obj(fields: seq<Field>)

  datatype Field = Field(key: string, value: Json)

  /** The default counter: the least number of four-character tokens covering the text. */
  function EstimateTokens(text: string): (tokens: nat)
    ensures |text| <= CHARS_PER_TOKEN * tokens < |text| + CHARS_PER_TOKEN
  {
    (|text| + CHARS_PER_TOKEN - 1) / CHARS_PER_TOKEN
  }

  function Digits(n: nat): string
  {
    var last := ["0123456789"[n % 10]];
    if n < 10 then last else Digits(n / 10) + last
  }

  function RenderInt(n: int): string {
    if n < 0 then "-" + Digits(-n) else Digits(n)
  }

  function HexDigit(n: nat): char
    requires n < 16
  {
    "0123456789abcdef"[n]
  }

  /** Escaping without forcing ASCII: only quotes, backslashes and control characters are rewritten. */
  function EscapeChar(c: char): string {
    if c == '\"' then "\\\""
    else if c == '\\' then "\\\\"
    else if c == '\n' then "\\n"
    else if c == '\r' then "\\r"
    else if c == '\t' then "\\t"
    else if c as int == 8 then "\\b"
    else if c as int == 12 then "\\f"
    else if c as int < 32 then "\\u00" + [HexDigit(c as int / 16), HexDigit(c as int % 16)]
    else [c]
  }

  function Escape(s: string): string {
    if s == [] then [] else EscapeChar(s[0]) + Escape(s[1..])
  }

  function Quote(s: string): string {
    "\"" + Escape(s) + "\""
  }

  lemma {:induction false} EscapeGrows(s: string)
    ensures |Escape(s)| >= |s|
    ensures (forall i :: 0 <= i < |s| ==> 'a' <= s[i] <= 'z' || s[i] == '_') ==> |Escape(s)| == |s|
  {
    if s != [] { EscapeGrows(s[1..]); }
  }

  /** A quoted text is at least two characters longer, and exactly two when it is lower-case letters and underscores. */
  lemma QuoteLength(s: string)
    ensures |Quote(s)| >= |s| + 2
    ensures (forall i :: 0 <= i < |s| ==> 'a' <= s[i] <= 'z' || s[i] == '_') ==> |Quote(s)| == |s| + 2
  {
    EscapeGrows(s);
  }

  /** Compact canonical JSON: no spaces, `,` and `:` as separators. */
  function Render(j: Json): string
    decreases j, 0
  {
    match j
    case Null => "null"
    case Bool(b) => if b then "true" else "false"
    case Num(n) => RenderInt(n)
    case Str(s) => Quote(s)
    case Arr(items) => "[" + RenderItems(items) + "]"
    case Obj(fields) => "{" + RenderFields(fields) + "}"
  }

  function RenderItems(items: seq<Json>): string
    decreases items, 1
  {
    if items == [] then ""
    else if |items| == 1 then Render(items[0])
    else Render(items[0]) + "," + RenderItems(items[1..])
  }

  function RenderFields(fields: seq<Field>): string
    decreases fields, 1
  {
    if fields == [] then ""
    else
      var head := Quote(fields[0].key) + ":" + Render(fields[0].value);
      if |fields| == 1 then head else head + "," + RenderFields(fields[1..])
  }

  lemma FieldsLength(f: Field, rest: seq<Field>)
    ensures |RenderFields([f] + rest)| ==
            |Quote(f.key)| + 1 + |Render(f.value)| + if rest == [] then 0 else 1 + |RenderFields(rest)|
  {
    assert ([f] + rest)[1..] == rest;
  }

  /** Swapping one field's value changes the serialised length by exactly the difference of the two values. */
  lemma {:induction false} SwapField(pre: seq<Field>, key: string, v: Json, w: Json, post: seq<Field>)
    ensures |RenderFields(pre + [Field(key, v)] + post)| - |Render(v)| ==
            |RenderFields(pre + [Field(key, w)] + post)| - |Render(w)|
    decreases |pre|
  {
    if pre == [] {
      assert pre + [Field(key, v)] + post == [Field(key, v)] + post;
      assert pre + [Field(key, w)] + post == [Field(key, w)] + post;
      FieldsLength(Field(key, v), post);
      FieldsLength(Field(key, w), post);
    } else {
      SwapField(pre[1..], key, v, w, post);
      ConsSplit(pre, [Field(key, v)], post);
      ConsSplit(pre, [Field(key, w)], post);
      FieldsLength(pre[0], pre[1..] + [Field(key, v)] + post);
      FieldsLength(pre[0], pre[1..] + [Field(key, w)] + post);
    }
  }

  /** One more character costs one more estimated token exactly when the text filled its last token. */
  lemma OneMoreCharacter(text: string, longer: string)
    requires |longer| == |text| + 1
    ensures EstimateTokens(longer) == EstimateTokens(text) + (if |text| % CHARS_PER_TOKEN == 0 then 1 else 0)
  {
  }

  // ----- the text can be read back -----

  /** The number a decimal text stands for. */
  function Value(s: string): int {
    if s == [] then 0 else 10 * Value(s[..|s| - 1]) + (s[|s| - 1] as int - '0' as int)
  }

  lemma {:induction false} DigitsRead(n: nat)
    ensures Value(Digits(n)) == n && Digits(n) != [] && (|Digits(n)| > 1 ==> Digits(n)[0] != '0')
  {
    var s := Digits(n);
    if n >= 10 {
      DigitsRead(n / 10);
      assert s[..|s| - 1] == Digits(n / 10);
      assert n / 10 < 10 ==> Digits(n / 10) == ["0123456789"[n / 10]];
    } else {
      assert s[..|s| - 1] == [];
    }
  }

  function HexValue(c: char): int {
    if '0' <= c <= '9' then c as int - '0' as int else c as int - 'a' as int + 10
  }

  /** The character that a backslash and this one stand for. */
  function Named(c: char): char {
    if c == 'n' then '\n' else if c == 'r' then '\r' else if c == 't' then '\t'
    else if c == 'b' then 8 as char else if c == 'f' then 12 as char else c
  }

  function Numbered(high: char, low: char): char {
    var n := 16 * HexValue(high) + HexValue(low);
    if 0 <= n < 32 then n as char else ' '
  }

  /** Undo the escapes of a quoted text. */
  function Unescape(s: string): string {
    if s == [] then []
    else if s[0] != '\\' || |s| == 1 then [s[0]] + Unescape(s[1..])
    else if s[1] == 'u' && |s| >= 6 then [Numbered(s[4], s[5])] + Unescape(s[6..])
    else [Named(s[1])] + Unescape(s[2..])
  }

  lemma UnescapePlain(c: char, rest: string)
    requires c != '\\'
    ensures Unescape([c] + rest) == [c] + Unescape(rest)
  {
    assert ([c] + rest)[1..] == rest;
  }

  lemma UnescapeNamed(c: char, rest: string)
    requires c != 'u'
    ensures Unescape(['\\', c] + rest) == [Named(c)] + Unescape(rest)
  {
    assert (['\\', c] + rest)[2..] == rest;
  }

  lemma UnescapeNumbered(high: char, low: char, rest: string)
    ensures Unescape(['\\', 'u', '0', '0', high, low] + rest) == [Numbered(high, low)] + Unescape(rest)
  {
    assert (['\\', 'u', '0', '0', high, low] + rest)[6..] == rest;
  }

  lemma HexDigitReads(n: nat)
    requires n < 16
    ensures HexValue(HexDigit(n)) == n
  {
  }

  lemma UnescapeControl(c: char, rest: string)
    requires c as int < 32
    ensures Unescape("\\u00" + [HexDigit(c as int / 16), HexDigit(c as int % 16)] + rest) == [c] + Unescape(rest)
  {
    var high, low := HexDigit(c as int / 16), HexDigit(c as int % 16);
    HexDigitReads(c as int / 16);
    HexDigitReads(c as int % 16);
    UnescapeNumbered(high, low, rest);
    assert "\\u00" + [high, low] == ['\\', 'u', '0', '0', high, low];
  }

  lemma UnescapeChar(c: char, rest: string)
    ensures Unescape(EscapeChar(c) + rest) == [c] + Unescape(rest)
  {
    if |EscapeChar(c)| == 1 {
      UnescapePlain(c, rest);
    } else if |EscapeChar(c)| == 2 {
      var x := EscapeChar(c)[1];
      assert EscapeChar(c) == ['\\', x];
      UnescapeNamed(x, rest);
    } else {
      UnescapeControl(c, rest);
    }
  }

  lemma EscapeCharPrints(c: char)
    ensures forall i :: 0 <= i < |EscapeChar(c)| ==> EscapeChar(c)[i] as int >= 32
  {
  }

  /** Escaping loses nothing, and leaves no quote, backslash run or control character that would end the text early. */
  lemma {:induction false} EscapeReads(s: string)
    ensures Unescape(Escape(s)) == s
    ensures forall i :: 0 <= i < |Escape(s)| ==> Escape(s)[i] as int >= 32
  {
    if s != [] {
      EscapeReads(s[1..]);
      UnescapeChar(s[0], Escape(s[1..]));
      EscapeCharPrints(s[0]);
      assert s == [s[0]] + s[1..];
    }
  }

  lemma RenderLiterals()
    ensures Render(Null) == "null" && Render(Bool(true)) == "true" && Render(Bool(false)) == "false"
    ensures Render(Arr([])) == "[]" && Render(Obj([])) == "{}" && Render(Num(-7)) == "-7"
  {
  }

  /** Compact separators, in lists and in objects. */
  lemma Separators(x: Json, y: Json, k: string, l: string)
    ensures Render(Arr([x, y])) == "[" + (Render(x) + "," + Render(y)) + "]"
    ensures Render(Obj([Field(k, x), Field(l, y)])) ==
            "{" + (Quote(k) + ":" + Render(x) + "," + (Quote(l) + ":" + Render(y))) + "}"
  {
    var f, g := Field(k, x), Field(l, y);
    assert [x, y][1..] == [y] && [f, g][1..] == [g];
    assert RenderItems([y]) == Render(y);
    assert RenderItems([x, y]) == Render(x) + "," + RenderItems([y]);
    assert RenderFields([g]) == Quote(l) + ":" + Render(y);
    assert RenderFields([f, g]) == Quote(k) + ":" + Render(x) + "," + RenderFields([g]);
  }
}
