/** TypeAdapter.cs: attribute lookup on a System.Type through its public static properties. */
module TypeAdapter {

  import opened Wrappers
  import opened Text
  import opened Host
  import opened AdapterUtil

  /** What `Type.GetProperty(name, BindingFlags.Static | BindingFlags.Public)` finds. */
  datatype StaticMatch = Missing | Ambiguous | Unique(p: StaticProperty)

  /** How many static properties are named exactly `name`. */
  function CountNamed(props: seq<StaticProperty>, name: string): (n: nat)
    ensures n <= |props|
  {
    if props == [] then 0
    else (if props[0].name == name then 1 else 0) + CountNamed(props[1..], name)
  }

  /** Some position of `props` holds a property named `name`. */
  ghost predicate SomeNamed(props: seq<StaticProperty>, name: string) {
    exists i :: 0 <= i < |props| && props[i].name == name
  }

  /** Two different positions of `props` hold a property named `name`. */
  ghost predicate TwoNamed(props: seq<StaticProperty>, name: string) {
    exists i, j :: 0 <= i < j < |props| && props[i].name == name && props[j].name == name
  }

  lemma {:induction false} CountNamedPositive(props: seq<StaticProperty>, name: string)
    ensures CountNamed(props, name) > 0 <==> SomeNamed(props, name)
  {
    if props != [] {
      var rest := props[1..];
      CountNamedPositive(rest, name);
      if SomeNamed(rest, name) {
        var j :| 0 <= j < |rest| && rest[j].name == name;
        assert props[j + 1].name == name;
      }
      if SomeNamed(props, name) && props[0].name != name {
        var i :| 0 <= i < |props| && props[i].name == name;
        assert rest[i - 1].name == name;
      }
    }
  }

  /** More than one match is exactly the case of two positions with that name. */
  lemma {:induction false} CountNamedAmbiguous(props: seq<StaticProperty>, name: string)
    ensures CountNamed(props, name) > 1 <==> TwoNamed(props, name)
  {
    if props != [] {
      var rest := props[1..];
      CountNamedAmbiguous(rest, name);
      CountNamedPositive(rest, name);
      if TwoNamed(rest, name) {
        var i, j :| 0 <= i < j < |rest| && rest[i].name == name && rest[j].name == name;
        assert props[i + 1].name == name && props[j + 1].name == name;
      }
      if props[0].name == name && SomeNamed(rest, name) {
        var j :| 0 <= j < |rest| && rest[j].name == name;
        assert props[j + 1].name == name;
      }
      if TwoNamed(props, name) {
        var i, j :| 0 <= i < j < |props| && props[i].name == name && props[j].name == name;
        if i == 0 {
          assert rest[j - 1].name == name;
        } else {
          assert rest[i - 1].name == name && rest[j - 1].name == name;
        }
      }
    }
  }

  /** Reflection's lookup: no match, a single match, or an ambiguous match. */
  function FindStatic(t: TypeDesc, name: string): (r: StaticMatch)
    ensures r.Missing? <==> !SomeNamed(t.staticProperties, name)
    ensures r.Ambiguous? <==> TwoNamed(t.staticProperties, name)
    ensures r.Unique? ==> exists i :: 0 <= i < |t.staticProperties| && t.staticProperties[i] == r.p
    ensures r.Unique? ==> r.p.name == name
  {
    var props := t.staticProperties;
    CountNamedPositive(props, name);
    CountNamedAmbiguous(props, name);
    var n := CountNamed(props, name);
    if n == 0 then Missing
    else if n > 1 then Ambiguous
    else
      var k := IndexOf(Names(props, (p: StaticProperty) => p.name), name);
      assert k.Some?;
      Unique(props[k.value])
  }

  /** `o as Type`. */
  function AsType(o: Value): (r: Option<TypeDesc>)
    ensures r.Some? <==> o.TypeObj?
    ensures r.Some? ==> o == TypeObj(r.value)
  {
    if o.TypeObj? then Some(o.t) else None
  }

  /** The static `GetProperty(Type, string)`: null for a null type, a missing or an
      ambiguous property; otherwise the filtered value of the single match. The
      getter's own exception is not caught. */
  function GetStaticProperty(isTrue: Truthiness, t: Option<TypeDesc>, name: string): (r: Outcome)
    ensures t.None? ==> r == Returned(Null)
    ensures t.Some? && !FindStatic(t.value, name).Unique? ==> r == Returned(Null)
    ensures r.Returned? ==> r.v == Null || isTrue(r.v)
    ensures t.Some? && FindStatic(t.value, name).Unique? ==>
      var p := FindStatic(t.value, name).p;
      (p.value.Threw? ==> r == p.value) &&
      (p.value.Returned? ==> r == Returned(NullIfEmpty(isTrue, p.value.v)))
  {
    if t.None? then Returned(Null)
    else
      match FindStatic(t.value, name)
      case Unique(p) =>
        (match p.value
         case Returned(v) => Returned(NullIfEmpty(isTrue, v))
         case Threw(e) => Threw(e))
      case _ => Returned(Null)
  }

  /** The adaptor override: the static result when it is non-null, otherwise the
      engine's base object-model adaptor `baseGet`. */
  function GetProperty(isTrue: Truthiness, o: Value, name: string, baseGet: (Value, string) -> Outcome): (r: Outcome)
    ensures !o.TypeObj? ==> r == baseGet(o, name)
    ensures o.TypeObj? && !FindStatic(o.t, name).Unique? ==> r == baseGet(o, name)
    ensures o.TypeObj? && FindStatic(o.t, name).Unique? ==>
      var p := FindStatic(o.t, name).p;
      (p.value.Threw? ==> r == p.value) &&
      (p.value.Returned? && NullIfEmpty(isTrue, p.value.v) == Null ==> r == baseGet(o, name)) &&
      (p.value.Returned? && NullIfEmpty(isTrue, p.value.v) != Null ==> r == p.value)
  {
    var s := GetStaticProperty(isTrue, AsType(o), name);
    if s == Returned(Null) then baseGet(o, name) else s
  }

  /** A single truthy static property is returned as it is, whatever the base adaptor would say. */
  lemma StaticTakesPrecedence(isTrue: Truthiness, t: TypeDesc, i: nat, name: string, v: Value,
                              baseGet: (Value, string) -> Outcome)
    requires i < |t.staticProperties| && t.staticProperties[i] == StaticProperty(name, Returned(v))
    requires forall j :: 0 <= j < |t.staticProperties| && j != i ==> t.staticProperties[j].name != name
    requires v != Null && isTrue(v)
    ensures GetProperty(isTrue, TypeObj(t), name, baseGet) == Returned(v)
  {
    var m := FindStatic(t, name);
    assert !m.Missing?;
    assert !TwoNamed(t.staticProperties, name);
    assert m.Unique?;
    var k :| 0 <= k < |t.staticProperties| && t.staticProperties[k] == m.p;
    assert k == i;
  }
}
