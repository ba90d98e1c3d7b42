/**
 * The values a store entry can hold: the JSON-representable JavaScript values
 * that `JSON.stringify` and `JSON.parse` exchange. Numbers are modelled as
 * integers, which match JavaScript numbers for the safe integers (magnitude
 * at most 2^53); objects as their own properties in enumeration order.
 */
module JsonValue {
  import opened Wrappers

  datatype Value =
    | Null
    | Bool(b: bool)
    | Num(n: int)
    | Str(s: string)
    | Arr(items: seq<Value>)
    | Obj(fields: seq<Field>)

  /** One own property of an object. */
  datatype Field = Field(name: string, value: Value)

  /** No two properties of `fs` share a name. */
  predicate DistinctNames(fs: seq<Field>)
  {
    forall i, j :: 0 <= i < j < |fs| ==> fs[i].name != fs[j].name
  }

  /** The names of the properties, as a set. */
  function NameSet(fs: seq<Field>): (names: set<string>)
    ensures forall i :: 0 <= i < |fs| ==> fs[i].name in names
  {
    if fs == [] then {} else {fs[0].name} + NameSet(fs[1..])
  }

  /** A name no property carries is not in NameSet. */
  lemma {:induction false} NameNotInSet(fs: seq<Field>, n: string)
    requires forall i :: 0 <= i < |fs| ==> fs[i].name != n
    ensures n !in NameSet(fs)
  {
    if fs != [] {
      NameNotInSet(fs[1..], n);
    }
  }

  /** Prepending a property with a fresh name keeps the names distinct. */
  lemma DistinctCons(f: Field, fs: seq<Field>)
    requires f.name !in NameSet(fs) && DistinctNames(fs)
    ensures DistinctNames([f] + fs)
  {
    var r := [f] + fs;
    forall i, j | 0 <= i < j < |r| ensures r[i].name != r[j].name {
      assert r[j] == fs[j - 1];
      if i > 0 { assert r[i] == fs[i - 1]; }
    }
  }

  /**
   * A value a JavaScript program can hold: every object, at every depth,
   * has distinct property names.
   */
  predicate WellFormed(v: Value)
  {
    match v
    case Arr(items) => ItemsWellFormed(items)
    case Obj(fs) => FieldsWellFormed(fs)
    case _ => true
  }

  predicate ItemsWellFormed(items: seq<Value>)
  {
    forall i :: 0 <= i < |items| ==> WellFormed(items[i])
  }

  predicate FieldsWellFormed(fs: seq<Field>)
  {
    DistinctNames(fs) && forall i :: 0 <= i < |fs| ==> WellFormed(fs[i].value)
  }

  lemma ItemsWellFormedAppend(items: seq<Value>, v: Value)
    requires ItemsWellFormed(items) && WellFormed(v)
    ensures ItemsWellFormed(items + [v])
  {
    var r := items + [v];
    forall i | 0 <= i < |r| ensures WellFormed(r[i]) {
      if i < |items| { assert r[i] == items[i]; }
    }
  }

  /** The value of property `name`, if the object has one. */
  function Lookup(fs: seq<Field>, name: string): (r: Option<Value>)
    ensures r.None? <==> name !in NameSet(fs)
  {
    if fs == [] then None
    else if fs[0].name == name then Some(fs[0].value)
    else Lookup(fs[1..], name)
  }

  /**
   * Property assignment `o[name] = v` on an object with properties `fs`: an
   * existing property keeps its place and takes the new value, a new one is
   * added last.
   */
  function SetField(fs: seq<Field>, name: string, v: Value): (r: seq<Field>)
    ensures NameSet(r) == NameSet(fs) + {name}
    ensures Lookup(r, name) == Some(v)
    ensures forall n :: n != name ==> Lookup(r, n) == Lookup(fs, n)
    ensures name !in NameSet(fs) ==> r == fs + [Field(name, v)]
  {
    if fs == [] then [Field(name, v)]
    else if fs[0].name == name then
      [Field(name, v)] + fs[1..]
    else [fs[0]] + SetField(fs[1..], name, v)
  }

  /** The first name of a list of distinct names does not recur in the rest. */
  lemma HeadNameFresh(fs: seq<Field>)
    requires fs != [] && DistinctNames(fs)
    ensures fs[0].name !in NameSet(fs[1..]) && DistinctNames(fs[1..])
  {
    var t := fs[1..];
    forall i | 0 <= i < |t| ensures t[i].name != fs[0].name {
      assert t[i] == fs[i + 1];
    }
    NameNotInSet(t, fs[0].name);
    forall i, j | 0 <= i < j < |t| ensures t[i].name != t[j].name {
      assert t[i] == fs[i + 1] && t[j] == fs[j + 1];
    }
  }

  /** In a list of distinct names, each property's name looks up its own value. */
  lemma {:induction false} LookupDistinct(fs: seq<Field>, i: int)
    requires DistinctNames(fs) && 0 <= i < |fs|
    ensures Lookup(fs, fs[i].name) == Some(fs[i].value)
  {
    if i > 0 {
      HeadNameFresh(fs);
      assert fs[1..][i - 1] == fs[i];
      LookupDistinct(fs[1..], i - 1);
    }
  }

  /** SetField keeps every existing property in its place. */
  lemma {:induction false} SetFieldKeepsPlaces(fs: seq<Field>, name: string, v: Value)
    ensures |SetField(fs, name, v)| >= |fs|
    ensures forall i :: 0 <= i < |fs| ==> SetField(fs, name, v)[i].name == fs[i].name
  {
    if fs != [] && fs[0].name != name {
      SetFieldKeepsPlaces(fs[1..], name, v);
    }
  }

  lemma {:induction false} SetFieldKeepsWellFormed(fs: seq<Field>, name: string, v: Value)
    requires FieldsWellFormed(fs) && WellFormed(v)
    ensures FieldsWellFormed(SetField(fs, name, v))
  {
    if fs != [] && fs[0].name != name {
      FieldsTail(fs);
      HeadNameFresh(fs);
      SetFieldKeepsWellFormed(fs[1..], name, v);
      DistinctCons(fs[0], SetField(fs[1..], name, v));
    }
  }

  lemma FieldsTail(fs: seq<Field>)
    requires fs != [] && FieldsWellFormed(fs)
    ensures FieldsWellFormed(fs[1..])
  {
    var t := fs[1..];
    forall i, j | 0 <= i < j < |t| ensures t[i].name != t[j].name {
      assert t[i] == fs[i + 1] && t[j] == fs[j + 1];
    }
    forall i | 0 <= i < |t| ensures WellFormed(t[i].value) {
      assert t[i] == fs[i + 1];
    }
  }

}
