/** PSObjectAdaptor.cs: attribute lookup on a PSObject, property first, then a `Get<Name>()` method. */
module PSObjectAdaptor {

  import opened Wrappers
  import opened Text
  import opened Host

  /** The position of the first property named exactly `name` (ordinal, case-sensitive). */
  function FirstProperty(props: seq<Property>, name: string): (r: Option<nat>)
    ensures r.Some? ==> r.value < |props| && props[r.value].name == name
    ensures r.Some? ==> forall j :: 0 <= j < r.value ==> props[j].name != name
    ensures r.None? ==> forall j :: 0 <= j < |props| ==> props[j].name != name
  {
    IndexOf(Names(props, (p: Property) => p.name), name)
  }


  /** A method that can stand for attribute `name`: it is called "Get" + `name`, and
      the text of its first overload takes no parameters and is not void. */
  predicate IsAccessorFor(m: Method, name: string) {
    m.name == "Get" + name && Contains(m.firstOverload, "()") && !Contains(m.firstOverload, "void")
  }

  /** The position of the first accessor method for `name`. */
  function FirstAccessor(methods: seq<Method>, name: string): (r: Option<nat>)
    ensures r.Some? ==> r.value < |methods| && IsAccessorFor(methods[r.value], name)
    ensures r.Some? ==> forall j :: 0 <= j < r.value ==> !IsAccessorFor(methods[j], name)
    ensures r.None? ==> forall j :: 0 <= j < |methods| ==> !IsAccessorFor(methods[j], name)
  {
    if methods == [] then None
    else if IsAccessorFor(methods[0], name) then Some(0)
    else
      match FirstAccessor(methods[1..], name)
      case None => None
      case Some(k) => Some(k + 1)
  }

  /** The adaptor override. For a PSObject: the first property with that name; its
      value when non-null, otherwise the result of invoking the first accessor method.
      A missing property or a missing accessor is `First`'s exception, which escapes,
      and so does a throwing getter or accessor. The value is not normalised. Any other
      object goes to the engine's base adaptor `baseGet`. */
  function GetProperty(obj: Value, name: string, baseGet: (Value, string) -> Outcome): (r: Outcome)
    ensures !obj.Wrapped? ==> r == baseGet(obj, name)
    ensures obj.Wrapped? && r == Returned(Null) ==>
      exists k :: 0 <= k < |obj.ps.methods| && IsAccessorFor(obj.ps.methods[k], name) && r == obj.ps.methods[k].invoke
  {
    if obj.Wrapped? then
      var ps := obj.ps;
      match FirstProperty(ps.properties, name)
      case None => Threw(NoMatchingElement)
      case Some(i) =>
        match ps.properties[i].value
        case Threw(e) => Threw(e)
        case Returned(v) =>
          if v != Null then Returned(v)
          else
            match FirstAccessor(ps.methods, name)
            case None => Threw(NoMatchingElement)
            case Some(k) => ps.methods[k].invoke
    else baseGet(obj, name)
  }

  /** The first property named `name`, when its value is not null, is the answer as
      it is, and no method is looked at. */
  lemma PropertyValueWins(ps: PSObject, i: nat, name: string, v: Value, baseGet: (Value, string) -> Outcome)
    requires i < |ps.properties| && ps.properties[i] == Property(name, Returned(v)) && v != Null
    requires forall j :: 0 <= j < i ==> ps.properties[j].name != name
    ensures GetProperty(Wrapped(ps), name, baseGet) == Returned(v)
  {
    var f := FirstProperty(ps.properties, name);
    assert f.Some?;
    assert f.value == i;
  }

  /** An exception thrown by the getter of the first property named `name`
      escapes, and no method is looked at. */
  lemma PropertyThrowWins(ps: PSObject, i: nat, name: string, e: Exn, baseGet: (Value, string) -> Outcome)
    requires i < |ps.properties| && ps.properties[i] == Property(name, Threw(e))
    requires forall j :: 0 <= j < i ==> ps.properties[j].name != name
    ensures GetProperty(Wrapped(ps), name, baseGet) == Threw(e)
  {
    var f := FirstProperty(ps.properties, name);
    assert f.Some?;
    assert f.value == i;
  }

  /** When the first property named `name` holds null, the first qualifying
      `Get<name>()` method is invoked and its result is the answer. */
  lemma AccessorFallback(ps: PSObject, i: nat, k: nat, name: string, baseGet: (Value, string) -> Outcome)
    requires i < |ps.properties| && ps.properties[i] == Property(name, Returned(Null))
    requires forall j :: 0 <= j < i ==> ps.properties[j].name != name
    requires k < |ps.methods| && IsAccessorFor(ps.methods[k], name)
    requires forall j :: 0 <= j < k ==> !IsAccessorFor(ps.methods[j], name)
    ensures GetProperty(Wrapped(ps), name, baseGet) == ps.methods[k].invoke
  {
    var f := FirstProperty(ps.properties, name);
    assert f.Some?;
    assert f.value == i;
    var g := FirstAccessor(ps.methods, name);
    assert g.Some?;
    assert g.value == k;
  }

  /** The lookup on a PSObject fails with `First`'s exception when no property has
      the name, or when its value is null and no method qualifies. */
  lemma MissingMemberThrows(ps: PSObject, name: string, baseGet: (Value, string) -> Outcome)
    requires
      (forall j :: 0 <= j < |ps.properties| ==> ps.properties[j].name != name) ||
      (exists i :: 0 <= i < |ps.properties| && ps.properties[i] == Property(name, Returned(Null)) &&
         (forall j :: 0 <= j < i ==> ps.properties[j].name != name) &&
         (forall j :: 0 <= j < |ps.methods| ==> !IsAccessorFor(ps.methods[j], name)))
    ensures GetProperty(Wrapped(ps), name, baseGet) == Threw(NoMatchingElement)
  {
    if !forall j :: 0 <= j < |ps.properties| ==> ps.properties[j].name != name {
      var i :| 0 <= i < |ps.properties| && ps.properties[i] == Property(name, Returned(Null)) &&
         (forall j :: 0 <= j < i ==> ps.properties[j].name != name) &&
         (forall j :: 0 <= j < |ps.methods| ==> !IsAccessorFor(ps.methods[j], name));
      var f := FirstProperty(ps.properties, name);
      assert f.Some?;
      assert f.value == i;
    }
  }

  /** Whatever the lookup on a PSObject returns came from one of its members: the
      property value itself or the result of one accessor method. */
  lemma ResultComesFromMember(ps: PSObject, name: string, baseGet: (Value, string) -> Outcome)
    ensures var r := GetProperty(Wrapped(ps), name, baseGet);
      r == Threw(NoMatchingElement) ||
      (exists i :: 0 <= i < |ps.properties| && ps.properties[i].name == name && r == ps.properties[i].value) ||
      (exists k :: 0 <= k < |ps.methods| && IsAccessorFor(ps.methods[k], name) && r == ps.methods[k].invoke)
  {
    var f := FirstProperty(ps.properties, name);
    if f.Some? {
      var i := f.value;
      if ps.properties[i].value == Returned(Null) {
        var g := FirstAccessor(ps.methods, name);
        if g.Some? {
          assert IsAccessorFor(ps.methods[g.value], name);
        }
      }
    }
  }
}
