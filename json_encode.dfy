/**
 * `JSON.stringify` on the values of JsonValue: compact output (no
 * whitespace), integers in shortest decimal form (as `JSON.stringify` writes
 * every integer of magnitude below 10^21), strings escaped the way
 * ECMAScript's QuoteJSONString does (the two-character escapes for quote,
 * backslash, backspace, form feed, newline, carriage return and tab, and
 * `\u00xx` with lower-case hex for the other control characters).
 */
module JsonEncode {
  import opened JsonValue

  /** The decimal digit character for `d`. */
  function DigitChar(d: nat): (c: char)
    requires d < 10
    ensures '0' <= c <= '9' && c as int - '0' as int == d
  {
    "0123456789"[d]
  }

  /** The lower-case hexadecimal digit character for `d`. */
  function HexChar(d: nat): char
    requires d < 16
  {
    "0123456789abcdef"[d]
  }

  /** The shortest decimal text of `n`. */
  function NatText(n: nat): (t: string)
    ensures |t| > 0
    ensures forall i :: 0 <= i < |t| ==> '0' <= t[i] <= '9'
    decreases n
  {
    if n < 10 then [DigitChar(n)] else NatText(n / 10) + [DigitChar(n % 10)]
  }

  /** `String(n)` for an integer `n`. */
  function IntText(n: int): string
  {
    if n < 0 then "-" + NatText(-n) else NatText(n)
  }

  /** The escaped form of one character inside a JSON string literal. */
  function EscapeChar(c: char): string
  {
    var code := c as int;
    if code == 0x22 then ['\\', '"']
    else if code == 0x5C then ['\\', '\\']
    else if code == 0x08 then ['\\', 'b']
    else if code == 0x0C then ['\\', 'f']
    else if code == 0x0A then ['\\', 'n']
    else if code == 0x0D then ['\\', 'r']
    else if code == 0x09 then ['\\', 't']
    else if code < 0x20 then ['\\', 'u', '0', '0', HexChar(code / 16), HexChar(code % 16)]
    else [c]
  }

  /** The body of a string literal: every character escaped. */
  function Escape(s: string): string
  {
    if s == [] then [] else EscapeChar(s[0]) + Escape(s[1..])
  }

  /** A string literal. */
  function Quote(s: string): string
  {
    "\"" + Escape(s) + "\""
  }

  /**
   * `JSON.stringify(v)`. The text is never empty, and its first character
   * tells a string, an array and an object apart from everything else.
   */
  function Encode(v: Value): (t: string)
    ensures t != []
    ensures t[0] == '"' <==> v.Str?
    ensures t[0] == '[' <==> v.Arr?
    ensures t[0] == '{' <==> v.Obj?
  {
    match v
    case Null => "null"
    case Bool(b) => if b then "true" else "false"
    case Num(n) => IntText(n)
    case Str(s) => Quote(s)
    case Arr(items) => "[" + EncodeItems(items) + "]"
    case Obj(fs) => "{" + EncodeFields(fs) + "}"
  }

  /** The elements of an array, separated by commas. */
  function EncodeItems(items: seq<Value>): string
  {
    if items == [] then ""
    else if |items| == 1 then Encode(items[0])
    else Encode(items[0]) + "," + EncodeItems(items[1..])
  }

  /** One property as `"name":value`. */
  function EncodeField(f: Field): string
  {
    Quote(f.name) + ":" + Encode(f.value)
  }

  /** The properties of an object, separated by commas. */
  function EncodeFields(fs: seq<Field>): string
  {
    if fs == [] then ""
    else if |fs| == 1 then EncodeField(fs[0])
    else EncodeField(fs[0]) + "," + EncodeFields(fs[1..])
  }
}
