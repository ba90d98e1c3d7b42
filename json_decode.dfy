/**
 * `JSON.parse` on texts whose numbers are integers. A text the ECMAScript
 * parser rejects is rejected here too (the result is None); so is a number
 * with a fraction or an exponent, and a `\u` escape naming a UTF-16
 * surrogate, which the integer and Unicode-scalar model cannot hold.
 * A repeated property name in an object keeps its first place and takes
 * its last value, as property assignment does.
 */
module JsonDecode {
  import opened Wrappers
  import opened JsonValue

  predicate IsWhitespace(c: char)
  {
    c == ' ' || c == '\t' || c == '\n' || c == '\r'
  }

  /** The text after the leading JSON whitespace of `s`. */
  function SkipWhitespace(s: string): (t: string)
    ensures |t| <= |s|
    ensures t == [] || !IsWhitespace(t[0])
  {
    if s != [] && IsWhitespace(s[0]) then SkipWhitespace(s[1..]) else s
  }

  predicate IsDigit(c: char)
  {
    '0' <= c <= '9'
  }

  function DigitValue(c: char): (d: nat)
    requires IsDigit(c)
    ensures d < 10
  {
    c as int - '0' as int
  }

  /** The length of the run of decimal digits that `s` starts with. */
  function DigitRun(s: string): (n: nat)
    ensures n <= |s|
    ensures forall i :: 0 <= i < n ==> IsDigit(s[i])
    ensures n == |s| || !IsDigit(s[n])
  {
    if s != [] && IsDigit(s[0]) then 1 + DigitRun(s[1..]) else 0
  }

  /** The number a run of decimal digits denotes. */
  function DigitsValue(ds: string): nat
    requires forall i :: 0 <= i < |ds| ==> IsDigit(ds[i])
  {
    if ds == [] then 0 else DigitsValue(ds[..|ds| - 1]) * 10 + DigitValue(ds[|ds| - 1])
  }

  /**
   * A non-negative integer: `0`, or a digit from 1 to 9 followed by more
   * digits (JSON admits no leading zero).
   */
  function ParseNat(s: string): (r: Option<(nat, string)>)
    ensures r.Some? ==> |r.value.1| < |s|
  {
    if s == [] || !IsDigit(s[0]) then None
    else if s[0] == '0' then Some((0, s[1..]))
    else
      var n := DigitRun(s);
      Some((DigitsValue(s[..n]), s[n..]))
  }

  /** An integer, with an optional leading minus sign. */
  function ParseInt(s: string): (r: Option<(int, string)>)
    ensures r.Some? ==> |r.value.1| < |s|
  {
    var negative := s != [] && s[0] == '-';
    var magnitude := ParseNat(if negative then s[1..] else s);
    if magnitude.None? then None
    else
      var n: int := magnitude.value.0;
      Some((if negative then -n else n, magnitude.value.1))
  }

  predicate IsHexDigit(c: char)
  {
    IsDigit(c) || 'a' <= c <= 'f' || 'A' <= c <= 'F'
  }

  function HexValue(c: char): (d: nat)
    requires IsHexDigit(c)
    ensures d < 16
  {
    if IsDigit(c) then DigitValue(c)
    else if 'a' <= c <= 'f' then c as int - 'a' as int + 10
    else c as int - 'A' as int + 10
  }

  /** The code unit named by the four hex digits of a `\u` escape. */
  function Hex4Value(h: string): (code: nat)
    requires |h| == 4 && IsHexDigit(h[0]) && IsHexDigit(h[1]) && IsHexDigit(h[2]) && IsHexDigit(h[3])
    ensures code < 0x10000
  {
    ((HexValue(h[0]) * 16 + HexValue(h[1])) * 16 + HexValue(h[2])) * 16 + HexValue(h[3])
  }

  /** The character a one-letter escape `\e` stands for. */
  function SimpleEscape(e: char): Option<char>
  {
    if e == '"' then Some('"')
    else if e == '\\' then Some('\\')
    else if e == '/' then Some('/')
    else if e == 'b' then Some(8 as char)
    else if e == 'f' then Some(12 as char)
    else if e == 'n' then Some('\n')
    else if e == 'r' then Some('\r')
    else if e == 't' then Some('\t')
    else None
  }

  /**
   * The escape sequence at the start of `s` (which starts with a
   * backslash): the character it stands for and its length.
   */
  function ParseEscape(s: string): (r: Option<(char, nat)>)
    requires s != [] && s[0] == '\\'
    ensures r.Some? ==> 2 <= r.value.1 <= |s|
  {
    if |s| < 2 then None
    else if s[1] == 'u' then
      if |s| < 6 || !(IsHexDigit(s[2]) && IsHexDigit(s[3]) && IsHexDigit(s[4]) && IsHexDigit(s[5])) then None
      else
        var code := Hex4Value(s[2..6]);
        if 0xD800 <= code < 0xE000 then None else Some((code as char, 6))
    else
      match SimpleEscape(s[1])
      case None => None
      case Some(c) => Some((c, 2))
  }

  /**
   * The rest of a string literal whose opening quote has been read; `acc`
   * holds the characters decoded so far. Yields the string and the text
   * after the closing quote. Unescaped control characters are refused.
   */
  function ParseString(s: string, acc: string): (r: Option<(string, string)>)
    ensures r.Some? ==> |r.value.1| < |s|
    decreases |s|
  {
    if s == [] then None
    else if s[0] == '"' then Some((acc, s[1..]))
    else if s[0] == '\\' then
      match ParseEscape(s)
      case None => None
      case Some((c, n)) => ParseString(s[n..], acc + [c])
    else if (s[0] as int) < 0x20 then None
    else ParseString(s[1..], acc + [s[0]])
  }

  /** The literal `word` at the start of `t`, standing for `v`. */
  function ParseWord(t: string, word: string, v: Value): (r: Option<(Value, string)>)
    requires |word| > 0
    ensures r.Some? ==> |r.value.1| < |t| && r.value.0 == v
  {
    if |word| <= |t| && t[..|word|] == word then Some((v, t[|word|..])) else None
  }

  /**
   * One JSON value after optional whitespace; yields the value and the text
   * after it. Every value it yields is well formed.
   */
  function ParseValue(s: string): (r: Option<(Value, string)>)
    ensures r.Some? ==> |r.value.1| < |s| && WellFormed(r.value.0)
    decreases |s|, 0
  {
    var t := SkipWhitespace(s);
    if t == [] then None
    else
      match t[0]
      case 'n' => ParseWord(t, "null", Null)
      case 't' => ParseWord(t, "true", Bool(true))
      case 'f' => ParseWord(t, "false", Bool(false))
      case '"' =>
        (match ParseString(t[1..], [])
         case None => None
         case Some((str, rest)) => Some((Str(str), rest)))
      case '[' => ParseArray(t[1..])
      case '{' => ParseObject(t[1..])
      case _ =>
        if t[0] == '-' || IsDigit(t[0]) then
          match ParseInt(t)
          case None => None
          case Some((n, rest)) => Some((Num(n), rest))
        else None
  }

  /** An array after its `[`: either `]` at once, or its elements. */
  function ParseArray(s: string): (r: Option<(Value, string)>)
    ensures r.Some? ==> |r.value.1| < |s| && WellFormed(r.value.0)
    decreases |s|, 2
  {
    var u := SkipWhitespace(s);
    if u != [] && u[0] == ']' then Some((Arr([]), u[1..]))
    else ParseItems(s, [])
  }

  /** An object after its `{`: either `}` at once, or its properties. */
  function ParseObject(s: string): (r: Option<(Value, string)>)
    ensures r.Some? ==> |r.value.1| < |s| && WellFormed(r.value.0)
    decreases |s|, 3
  {
    var u := SkipWhitespace(s);
    if u != [] && u[0] == '}' then Some((Obj([]), u[1..]))
    else ParseFields(s, [])
  }

  /**
   * The elements of an array after its `[`: a value, then `,` and another
   * value or the closing `]`. `acc` holds the elements read so far.
   */
  function ParseItems(s: string, acc: seq<Value>): (r: Option<(Value, string)>)
    requires ItemsWellFormed(acc)
    ensures r.Some? ==> |r.value.1| < |s| && WellFormed(r.value.0)
    decreases |s|, 1
  {
    match ParseValue(s)
    case None => None
    case Some((v, rest)) =>
      ItemsWellFormedAppend(acc, v);
      var t := SkipWhitespace(rest);
      if t == [] then None
      else if t[0] == ',' then ParseItems(t[1..], acc + [v])
      else if t[0] == ']' then Some((Arr(acc + [v]), t[1..]))
      else None
  }

  /** One property: a string literal, `:` and a value, each after optional whitespace. */
  function ParseField(s: string): (r: Option<(Field, string)>)
    ensures r.Some? ==> |r.value.1| < |s| && WellFormed(r.value.0.value)
    decreases |s|, 1
  {
    var t := SkipWhitespace(s);
    if t == [] || t[0] != '"' then None
    else
      var name := ParseString(t[1..], []);
      if name.None? then None
      else
        var u := SkipWhitespace(name.value.1);
        if u == [] || u[0] != ':' then None
        else
          var v := ParseValue(u[1..]);
          if v.None? then None
          else Some((Field(name.value.0, v.value.0), v.value.1))
  }

  /**
   * The properties of an object after its `{`: a property, then `,` and
   * another property or the closing `}`. `acc` holds the properties read so
   * far.
   */
  function ParseFields(s: string, acc: seq<Field>): (r: Option<(Value, string)>)
    requires FieldsWellFormed(acc)
    ensures r.Some? ==> |r.value.1| < |s| && WellFormed(r.value.0)
    decreases |s|, 2
  {
    var f := ParseField(s);
    if f.None? then None
    else
      var fs := SetField(acc, f.value.0.name, f.value.0.value);
      SetFieldKeepsWellFormed(acc, f.value.0.name, f.value.0.value);
      var w := SkipWhitespace(f.value.1);
      if w == [] then None
      else if w[0] == ',' then ParseFields(w[1..], fs)
      else if w[0] == '}' then Some((Obj(fs), w[1..]))
      else None
  }

  /**
   * `JSON.parse(s)`: one value, optionally surrounded by whitespace, and
   * nothing else; None where `JSON.parse` throws.
   */
  function Decode(s: string): (r: Option<Value>)
    ensures r.Some? ==> WellFormed(r.value)
    ensures s == [] ==> r == None
  {
    match ParseValue(s)
    case None => None
    case Some((v, rest)) => if SkipWhitespace(rest) == [] then Some(v) else None
  }
}
