/**
 * The object spread `{ ...current, ...partial }` that `update` stores: the
 * own enumerable properties of `current`, then those of `partial`, each
 * copied by property assignment.
 */
module ObjectSpread {
  import opened Wrappers
  import opened JsonValue
  import JsonEncode
  import JsonRoundTrip
  import SeqLemmas

  /**
   * The own properties of an array or a string: named by the indices 0, 1,
   * 2, ... in decimal, so the names are distinct and index `i` looks up
   * `items[i]`.
   */
  function Indexed(items: seq<Value>): (fs: seq<Field>)
    ensures |fs| == |items|
    ensures DistinctNames(fs)
    ensures forall i :: 0 <= i < |items| ==> Lookup(fs, JsonEncode.NatText(i)) == Some(items[i])
    ensures ItemsWellFormed(items) ==> FieldsWellFormed(fs)
  {
    var fs := seq(|items|, i requires 0 <= i < |items| => Field(JsonEncode.NatText(i), items[i]));
    IndexNames(items, fs);
    fs
  }

  /** Decimal index names never collide, so each one finds its own element. */
  lemma IndexNames(items: seq<Value>, fs: seq<Field>)
    requires |fs| == |items|
    requires forall i :: 0 <= i < |fs| ==> fs[i] == Field(JsonEncode.NatText(i), items[i])
    ensures DistinctNames(fs)
    ensures forall i :: 0 <= i < |items| ==> Lookup(fs, JsonEncode.NatText(i)) == Some(items[i])
  {
    forall i, j | 0 <= i < j < |fs| ensures fs[i].name != fs[j].name {
      JsonRoundTrip.NatTextValue(i);
      JsonRoundTrip.NatTextValue(j);
    }
    forall i | 0 <= i < |items| ensures Lookup(fs, JsonEncode.NatText(i)) == Some(items[i]) {
      LookupDistinct(fs, i);
    }
  }

  /**
   * The own enumerable properties spreading `v` copies: an object's
   * properties; the characters of a string and the elements of an array
   * under their indices; nothing for null, booleans and numbers. A
   * well-formed value spreads distinct names with well-formed values.
   */
  function OwnEntries(v: Value): (fs: seq<Field>)
    ensures WellFormed(v) ==> FieldsWellFormed(fs)
    ensures v.Null? || v.Bool? || v.Num? ==> fs == []
  {
    match v
    case Obj(fs) => fs
    case Arr(items) => Indexed(items)
    case Str(s) => Indexed(seq(|s|, i requires 0 <= i < |s| => Str([s[i]])))
    case _ => []
  }

  /**
   * Copies the properties of `source`, in order, onto `target`; the result
   * has the names of both.
   */
  function Assign(target: seq<Field>, source: seq<Field>): (r: seq<Field>)
    ensures NameSet(r) == NameSet(target) + NameSet(source)
    decreases |source|
  {
    if source == [] then target
    else Assign(SetField(target, source[0].name, source[0].value), source[1..])
  }

  /** `{ ...current, ...partial }`: always an object, holding the names of both. */
  function Spread(current: Value, partial: Value): (r: Value)
    ensures r.Obj?
    ensures NameSet(r.fields) == NameSet(OwnEntries(current)) + NameSet(OwnEntries(partial))
  {
    Obj(Assign(Assign([], OwnEntries(current)), OwnEntries(partial)))
  }

  // ----- what copying properties does -----

  /** Every property of `source` wins; every other property of `target` stays. */
  lemma {:induction false} AssignLookup(target: seq<Field>, source: seq<Field>, n: string)
    requires DistinctNames(source)
    ensures Lookup(Assign(target, source), n) ==
      if n in NameSet(source) then Lookup(source, n) else Lookup(target, n)
    decreases |source|
  {
    if source != [] {
      HeadNameFresh(source);
      AssignLookup(SetField(target, source[0].name, source[0].value), source[1..], n);
    }
  }

  /** The properties of `target` keep their places at the front. */
  lemma {:induction false} AssignKeepsPlaces(target: seq<Field>, source: seq<Field>)
    ensures |Assign(target, source)| >= |target|
    ensures forall i :: 0 <= i < |target| ==> Assign(target, source)[i].name == target[i].name
    decreases |source|
  {
    if source != [] {
      var next := SetField(target, source[0].name, source[0].value);
      SetFieldKeepsPlaces(target, source[0].name, source[0].value);
      AssignKeepsPlaces(next, source[1..]);
    }
  }

  lemma {:induction false} AssignWellFormed(target: seq<Field>, source: seq<Field>)
    requires FieldsWellFormed(target)
    requires forall i :: 0 <= i < |source| ==> WellFormed(source[i].value)
    ensures FieldsWellFormed(Assign(target, source))
    decreases |source|
  {
    if source != [] {
      SetFieldKeepsWellFormed(target, source[0].name, source[0].value);
      AssignWellFormed(SetField(target, source[0].name, source[0].value), source[1..]);
    }
  }

  /** Copying properties with new names appends them in order. */
  lemma {:induction false} AssignFresh(target: seq<Field>, source: seq<Field>)
    requires DistinctNames(source)
    requires NameSet(target) !! NameSet(source)
    ensures Assign(target, source) == target + source
    decreases |source|
  {
    if source != [] {
      HeadNameFresh(source);
      assert NameSet(source) == {source[0].name} + NameSet(source[1..]);
      var next := SetField(target, source[0].name, source[0].value);
      assert next == target + [source[0]];
      assert NameSet(next) !! NameSet(source[1..]);
      AssignFresh(next, source[1..]);
      SeqLemmas.ShiftFirst(target, source);
    }
  }

  // ----- the spread -----

  /**
   * `{ ...current, ...partial }` is an object holding the names of both;
   * a property of `partial` overrides, every other property of `current` is
   * kept, and the properties of `current` keep their order at the front.
   */
  lemma SpreadSemantics(current: Value, partial: Value)
    requires WellFormed(current) && WellFormed(partial)
    ensures var r := Spread(current, partial);
      && r.Obj?
      && WellFormed(r)
      && NameSet(r.fields) == NameSet(OwnEntries(current)) + NameSet(OwnEntries(partial))
      && (forall n :: Lookup(r.fields, n) ==
            if n in NameSet(OwnEntries(partial)) then Lookup(OwnEntries(partial), n)
            else Lookup(OwnEntries(current), n))
      && |r.fields| >= |OwnEntries(current)|
      && forall i :: 0 <= i < |OwnEntries(current)| ==> r.fields[i].name == OwnEntries(current)[i].name
  {
    var c, p := OwnEntries(current), OwnEntries(partial);
    AssignFresh([], c);
    assert [] + c == c;
    AssignKeepsPlaces(c, p);
    AssignWellFormed(c, p);
    forall n ensures Lookup(Assign(c, p), n) ==
      if n in NameSet(p) then Lookup(p, n) else Lookup(c, n)
    {
      AssignLookup(c, p, n);
    }
  }

  /** A missing current value (`null`) spreads as an empty object. */
  lemma SpreadOverNull(partial: Value)
    requires WellFormed(partial)
    ensures Spread(Null, partial) == Obj(OwnEntries(partial))
  {
    AssignFresh([], OwnEntries(partial));
    assert [] + OwnEntries(partial) == OwnEntries(partial);
  }
}
