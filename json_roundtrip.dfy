/**
 * The codec round trip: decoding the text `JSON.stringify` produces gives
 * back the value, for every well-formed value. This is what makes a stored
 * entry read back as the value that was written.
 */
module JsonRoundTrip {
  import opened Wrappers
  import opened JsonValue
  import opened JsonEncode
  import opened JsonDecode
  import opened SeqLemmas

  // ----- integers -----

  /** Only zero is written with a leading `0`. */
  lemma {:induction false} NatTextLeadingDigit(n: nat)
    ensures NatText(n)[0] == '0' <==> n == 0
    decreases n
  {
    if n >= 10 {
      NatTextLeadingDigit(n / 10);
      assert NatText(n)[0] == NatText(n / 10)[0];
    }
  }

  /** The digits of NatText(n) denote n. */
  lemma {:induction false} NatTextValue(n: nat)
    ensures DigitsValue(NatText(n)) == n
    decreases n
  {
    if n >= 10 {
      var t := NatText(n);
      assert t[..|t| - 1] == NatText(n / 10);
      NatTextValue(n / 10);
    }
  }

  /** The digit run of `ds + rest` is `ds` when `rest` does not go on with a digit. */
  lemma {:induction false} DigitRunOf(ds: string, rest: string)
    requires forall i :: 0 <= i < |ds| ==> IsDigit(ds[i])
    requires rest == [] || !IsDigit(rest[0])
    ensures DigitRun(ds + rest) == |ds|
  {
    if ds != [] {
      assert (ds + rest)[1..] == ds[1..] + rest;
      DigitRunOf(ds[1..], rest);
    }
  }

  lemma NatRoundTrip(n: nat, rest: string)
    requires rest == [] || !IsDigit(rest[0])
    ensures ParseNat(NatText(n) + rest) == Some((n, rest))
  {
    var t := NatText(n);
    var s := t + rest;
    NatTextLeadingDigit(n);
    if n == 0 {
      assert s[1..] == rest;
    } else {
      DigitRunOf(t, rest);
      assert s[..|t|] == t && s[|t|..] == rest;
      NatTextValue(n);
    }
  }

  /** A minus sign negates the integer that follows it. */
  lemma NegativeRoundTrip(m: nat, rest: string)
    requires rest == [] || !IsDigit(rest[0])
    ensures ParseInt("-" + (NatText(m) + rest)) == Some((-(m as int), rest))
  {
    NatRoundTrip(m, rest);
    assert ("-" + (NatText(m) + rest))[1..] == NatText(m) + rest;
  }

  lemma NonNegativeRoundTrip(m: nat, rest: string)
    requires rest == [] || !IsDigit(rest[0])
    ensures ParseInt(NatText(m) + rest) == Some((m as int, rest))
  {
    assert IsDigit((NatText(m) + rest)[0]);
    NatRoundTrip(m, rest);
  }

  lemma IntRoundTrip(n: int, rest: string)
    requires rest == [] || !IsDigit(rest[0])
    ensures ParseInt(IntText(n) + rest) == Some((n, rest))
  {
    if n < 0 {
      NegativeRoundTrip(-n, rest);
      Assoc("-", NatText(-n), rest);
    } else {
      NonNegativeRoundTrip(n, rest);
    }
  }

  // ----- strings -----

  lemma HexCharValue(d: nat)
    requires d < 16
    ensures IsHexDigit(HexChar(d)) && HexValue(HexChar(d)) == d
  {
  }

  /** A character written as an escape sequence reads back as itself. */
  lemma EscapeDecodes(c: char, t: string)
    requires EscapeChar(c) != [c]
    ensures EscapeChar(c)[0] == '\\'
    ensures ParseEscape(EscapeChar(c) + t) == Some((c, |EscapeChar(c)|))
  {
    var code := c as int;
    var s := EscapeChar(c) + t;
    if code < 0x20 && code != 0x08 && code != 0x0C && code != 0x0A && code != 0x0D && code != 0x09 {
      HexCharValue(code / 16);
      HexCharValue(code % 16);
      assert s[2..6] == ['0', '0', HexChar(code / 16), HexChar(code % 16)];
    }
  }

  /** Reading one escaped character consumes exactly its escape. */
  lemma EscapeCharStep(c: char, t: string, acc: string)
    ensures ParseString(EscapeChar(c) + t, acc) == ParseString(t, acc + [c])
  {
    var s := EscapeChar(c) + t;
    if EscapeChar(c) == [c] {
      assert s[1..] == t;
    } else {
      EscapeDecodes(c, t);
      assert s[|EscapeChar(c)|..] == t;
    }
  }

  lemma {:induction false} EscapeRoundTrip(str: string, rest: string, acc: string)
    ensures ParseString(Escape(str) + ("\"" + rest), acc) == Some((acc + str, rest))
  {
    if str == [] {
      assert Escape(str) + ("\"" + rest) == "\"" + rest;
      assert ("\"" + rest)[1..] == rest;
      assert acc + str == acc;
    } else {
      var tail := Escape(str[1..]) + ("\"" + rest);
      Assoc(EscapeChar(str[0]), Escape(str[1..]), "\"" + rest);
      EscapeCharStep(str[0], tail, acc);
      EscapeRoundTrip(str[1..], rest, acc + [str[0]]);
      ShiftFirst(acc, str);
    }
  }

  // ----- values -----

  /** The characters an encoded value can start with. */
  predicate IsLead(c: char)
  {
    c == 'n' || c == 't' || c == 'f' || c == '"' || c == '-' || IsDigit(c) || c == '[' || c == '{'
  }

  /** Encoded text is never empty, and never starts with whitespace or a closing bracket. */
  lemma EncodeLead(v: Value)
    ensures Encode(v) != [] && IsLead(Encode(v)[0])
  {
    match v
    case Num(n) =>
      if n < 0 { assert Encode(v)[0] == '-'; } else { assert Encode(v) == NatText(n); }
    case _ =>
  }

  /** How ParseValue dispatches on the first character of a text without leading whitespace. */
  lemma ParseValueDispatch(s: string)
    requires s != [] && !IsWhitespace(s[0])
    ensures s[0] == '"' ==> ParseValue(s) == match ParseString(s[1..], [])
      case None => None
      case Some((str, rest)) => Some((Str(str), rest))
    ensures s[0] == '[' ==> ParseValue(s) == ParseArray(s[1..])
    ensures s[0] == '{' ==> ParseValue(s) == ParseObject(s[1..])
    ensures s[0] == '-' || IsDigit(s[0]) ==> ParseValue(s) == match ParseInt(s)
      case None => None
      case Some((n, rest)) => Some((Num(n), rest))
  {
    assert SkipWhitespace(s) == s;
  }

  /** A literal word followed by `rest` reads as its value. */
  lemma WordRoundTrip(word: string, v: Value, rest: string)
    requires |word| > 0
    ensures ParseWord(word + rest, word, v) == Some((v, rest))
  {
    assert (word + rest)[..|word|] == word && (word + rest)[|word|..] == rest;
  }

  lemma {:induction false} ValueRoundTrip(v: Value, rest: string)
    requires WellFormed(v)
    requires rest == [] || !IsDigit(rest[0])
    ensures ParseValue(Encode(v) + rest) == Some((v, rest))
    decreases v, 2
  {
    var s := Encode(v) + rest;
    EncodeLead(v);
    assert SkipWhitespace(s) == s;
    match v
    case Null =>
      WordRoundTrip("null", Null, rest);
    case Bool(b) =>
      WordRoundTrip(if b then "true" else "false", v, rest);
    case Num(n) =>
      ParseValueDispatch(s);
      IntRoundTrip(n, rest);
    case Str(str) =>
      ParseValueDispatch(s);
      Assoc("\"", Escape(str), "\"");
      Assoc("\"", Escape(str) + "\"", rest);
      Assoc(Escape(str), "\"", rest);
      assert s[1..] == Escape(str) + ("\"" + rest);
      EscapeRoundTrip(str, rest, []);
      assert [] + str == str;
    case Arr(items) =>
      ParseValueDispatch(s);
      BracketSplit('[', EncodeItems(items), ']', rest);
      ArrayRoundTrip(items, rest);
    case Obj(fs) =>
      ParseValueDispatch(s);
      BracketSplit('{', EncodeFields(fs), '}', rest);
      ObjectRoundTrip(fs, rest);
  }

  /** `[open] + body + [close] + rest` without its first character. */
  lemma BracketSplit(open: char, body: string, close: char, rest: string)
    ensures ([open] + body + [close] + rest)[1..] == body + ([close] + rest)
  {
    Assoc([open] + body, [close], rest);
    Assoc([open], body, [close] + rest);
  }

  lemma {:induction false} ArrayRoundTrip(items: seq<Value>, rest: string)
    requires ItemsWellFormed(items)
    requires rest == [] || !IsDigit(rest[0])
    ensures ParseArray(EncodeItems(items) + ("]" + rest)) == Some((Arr(items), rest))
    decreases items, 1
  {
    var s := EncodeItems(items) + ("]" + rest);
    if items == [] {
      assert s == "]" + rest && s[1..] == rest;
    } else {
      EncodeLead(items[0]);
      ItemsSplit(items, "]" + rest);
      assert SkipWhitespace(s) == s;
      ItemsRoundTrip(items, rest, []);
      assert [] + items == items;
    }
  }

  lemma {:induction false} ObjectRoundTrip(fs: seq<Field>, rest: string)
    requires FieldsWellFormed(fs)
    requires rest == [] || !IsDigit(rest[0])
    ensures ParseObject(EncodeFields(fs) + ("}" + rest)) == Some((Obj(fs), rest))
    decreases fs, 2
  {
    var s := EncodeFields(fs) + ("}" + rest);
    if fs == [] {
      assert s == "}" + rest && s[1..] == rest;
    } else {
      FieldsSplit(fs, "}" + rest);
      FieldSplit(fs[0], if |fs| == 1 then "}" + rest else "," + (EncodeFields(fs[1..]) + ("}" + rest)));
      assert SkipWhitespace(s) == s;
      FieldsRoundTrip(fs, rest, []);
      assert [] + fs == fs;
    }
  }

  /** The first element of an encoded array and what follows it. */
  lemma ItemsSplit(items: seq<Value>, tail: string)
    requires items != []
    ensures EncodeItems(items) + tail == Encode(items[0]) +
      (if |items| == 1 then tail else "," + (EncodeItems(items[1..]) + tail))
  {
    if |items| > 1 {
      Assoc(Encode(items[0]) + ",", EncodeItems(items[1..]), tail);
      Assoc(Encode(items[0]), ",", EncodeItems(items[1..]) + tail);
    }
  }

  /** The first property of an encoded object and what follows it. */
  lemma FieldsSplit(fs: seq<Field>, tail: string)
    requires fs != []
    ensures EncodeFields(fs) + tail == EncodeField(fs[0]) +
      (if |fs| == 1 then tail else "," + (EncodeFields(fs[1..]) + tail))
  {
    if |fs| > 1 {
      Assoc(EncodeField(fs[0]) + ",", EncodeFields(fs[1..]), tail);
      Assoc(EncodeField(fs[0]), ",", EncodeFields(fs[1..]) + tail);
    }
  }

  /** An encoded property, taken apart. */
  lemma FieldSplit(f: Field, tail: string)
    ensures EncodeField(f) + tail ==
      "\"" + (Escape(f.name) + ("\"" + (":" + (Encode(f.value) + tail))))
  {
    var q, e, v := "\"", Escape(f.name), Encode(f.value);
    Assoc(q + e + q + ":", v, tail);
    Assoc(q + e + q, ":", v + tail);
    Assoc(q + e, q, ":" + (v + tail));
    Assoc(q, e, q + (":" + (v + tail)));
  }

  lemma {:induction false} ItemsRoundTrip(items: seq<Value>, rest: string, acc: seq<Value>)
    requires items != []
    requires ItemsWellFormed(items) && ItemsWellFormed(acc)
    ensures ParseItems(EncodeItems(items) + ("]" + rest), acc) == Some((Arr(acc + items), rest))
    decreases items, 0
  {
    var tail := if |items| == 1 then "]" + rest else "," + (EncodeItems(items[1..]) + ("]" + rest));
    ItemsSplit(items, "]" + rest);
    ValueRoundTrip(items[0], tail);
    assert SkipWhitespace(tail) == tail;
    ItemsWellFormedAppend(acc, items[0]);
    ShiftFirst(acc, items);
    if |items| == 1 {
      assert tail[1..] == rest;
    } else {
      assert tail[1..] == EncodeItems(items[1..]) + ("]" + rest);
      assert ItemsWellFormed(items[1..]) by {
        forall i | 0 <= i < |items| - 1 ensures WellFormed(items[1..][i]) {
          assert items[1..][i] == items[i + 1];
        }
      }
      ItemsRoundTrip(items[1..], rest, acc + [items[0]]);
    }
  }

  /** One encoded property reads back as itself. */
  lemma {:induction false} FieldRoundTrip(f: Field, tail: string)
    requires WellFormed(f.value)
    requires tail == [] || !IsDigit(tail[0])
    ensures ParseField(EncodeField(f) + tail) == Some((f, tail))
    decreases f, 0
  {
    var afterName := ":" + (Encode(f.value) + tail);
    var s := EncodeField(f) + tail;
    FieldSplit(f, tail);
    assert s[1..] == Escape(f.name) + ("\"" + afterName);
    EscapeRoundTrip(f.name, afterName, []);
    assert [] + f.name == f.name;
    assert afterName[1..] == Encode(f.value) + tail;
    ValueRoundTrip(f.value, tail);
  }

  /** Reading one encoded property with a new name, then its separator or the closing brace. */
  lemma FieldParseStep(f: Field, tail: string, acc: seq<Field>)
    requires WellFormed(f.value) && FieldsWellFormed(acc)
    requires f.name !in NameSet(acc)
    requires tail != [] && (tail[0] == ',' || tail[0] == '}')
    ensures FieldsWellFormed(acc + [f])
    ensures ParseFields(EncodeField(f) + tail, acc) ==
      if tail[0] == '}' then Some((Obj(acc + [f]), tail[1..])) else ParseFields(tail[1..], acc + [f])
    decreases f, 1
  {
    FieldRoundTrip(f, tail);
    assert SkipWhitespace(tail) == tail;
    SetFieldKeepsWellFormed(acc, f.name, f.value);
  }

  /** Reading the first property of an encoded property list appends it to `acc`. */
  lemma FieldsStep(fs: seq<Field>, rest: string, acc: seq<Field>)
    requires fs != []
    requires FieldsWellFormed(fs) && FieldsWellFormed(acc)
    requires DistinctNames(acc + fs)
    ensures FieldsWellFormed(acc + [fs[0]])
    ensures ParseFields(EncodeFields(fs) + ("}" + rest), acc) ==
      if |fs| == 1 then Some((Obj(acc + [fs[0]]), rest))
      else ParseFields(EncodeFields(fs[1..]) + ("}" + rest), acc + [fs[0]])
    decreases fs, 0
  {
    var tail := if |fs| == 1 then "}" + rest else "," + (EncodeFields(fs[1..]) + ("}" + rest));
    FieldsSplit(fs, "}" + rest);
    NewNameAppends(acc, fs);
    FieldParseStep(fs[0], tail, acc);
    if |fs| == 1 {
      assert tail[1..] == rest;
    } else {
      assert tail[1..] == EncodeFields(fs[1..]) + ("}" + rest);
    }
  }

  lemma {:induction false} FieldsRoundTrip(fs: seq<Field>, rest: string, acc: seq<Field>)
    requires fs != []
    requires FieldsWellFormed(fs) && FieldsWellFormed(acc)
    requires DistinctNames(acc + fs)
    ensures ParseFields(EncodeFields(fs) + ("}" + rest), acc) == Some((Obj(acc + fs), rest))
    decreases fs, 1
  {
    FieldsStep(fs, rest, acc);
    ShiftFirst(acc, fs);
    if |fs| > 1 {
      FieldsTail(fs);
      FieldsRoundTrip(fs[1..], rest, acc + [fs[0]]);
    }
  }

  /** The first property of `fs` is new to `acc`, so reading it appends it. */
  lemma NewNameAppends(acc: seq<Field>, fs: seq<Field>)
    requires fs != [] && DistinctNames(acc + fs)
    ensures fs[0].name !in NameSet(acc)
    ensures SetField(acc, fs[0].name, fs[0].value) == acc + [fs[0]]
  {
    forall i | 0 <= i < |acc| ensures acc[i].name != fs[0].name {
      assert (acc + fs)[i] == acc[i] && (acc + fs)[|acc|] == fs[0];
    }
    NameNotInSet(acc, fs[0].name);
  }

  /** `JSON.parse(JSON.stringify(v))` gives back `v`. */
  lemma DecodeEncode(v: Value)
    requires WellFormed(v)
    ensures Decode(Encode(v)) == Some(v)
  {
    ValueRoundTrip(v, []);
    assert Encode(v) + [] == Encode(v);
  }
}
