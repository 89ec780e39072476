/**
 * InvokeStringTemplateCommand.cs: one `ProcessRecord` of the
 * Invoke-StringTemplate cmdlet. It selects the template, binds the arguments
 * from the `Parameters` object, renders, resets the instance and unbinds the
 * group. Verbose/debug traces and pipeline output are appended to `trace`; a
 * terminating error or an escaping exception is the returned status.
 */
module InvokeStringTemplate {

  import opened Wrappers
  import opened Text
  import opened Host
  import opened AdapterUtil
  import opened Engine
  import opened Groups
  import opened Binding

  /** Why a record ended early. */
  datatype Failure =
    | TemplateNotFound(name: Option<string>, available: seq<string>)  // ThrowTerminatingError
    | Propagated(e: Exn)                                              // an exception escaping ProcessRecord

  datatype Status = Completed | Terminated(failure: Failure)

  /** `Name ?? names.FirstOrDefault()`. */
  function RequestedName(name: Option<string>, names: seq<string>): (r: Option<string>)
    ensures name.Some? ==> r == name
    ensures name.None? ==> (r.Some? <==> names != []) && (r.Some? ==> r.value == names[0])
  {
    name.OrElse(if |names| > 0 then Some(names[0]) else None)
  }

  /** The template the group path selects: the requested name, else the first
      template; nothing when that name is not in the group. */
  function SelectTemplate(name: Option<string>, names: seq<string>): (r: Option<nat>)
    ensures r.Some? ==> r.value < |names| && Some(names[r.value]) == RequestedName(name, names)
    ensures r.Some? ==> forall j :: 0 <= j < r.value ==> names[j] != names[r.value]
    ensures r.Some? && name.None? ==> r.value == 0
    ensures r.None? <==> (name.Some? && name.value !in names) || (name.None? && names == [])
  {
    var n := RequestedName(name, names);
    if n.None? then None else IndexOf(names, n.value)
  }

  /** The objects a record may change in an existing group: the engine group, and
      the selected wrapper (its `instance`) with its current instance (its attributes). */
  ghost function RecordFootprint(g: TemplateGroupInfo?, name: Option<string>): set<object>
    reads g, if g != null then set t | t in g.templates else {}
  {
    if g == null then {} else
      match SelectTemplate(name, g.TemplateNames())
      case None => {g.engine}
      case Some(k) => {g.engine, g.templates[k], g.templates[k].instance}
  }

  /** A template as `AddTemplateArgument` sees it: the engine's add decision, its
      `HasFormalArgs`, and the displayed name used in traces. */
  function TargetOf(t: TemplateInfo): Target
    reads t, t.instance.impl
  {
    Target(t.instance.impl.accepts, t.instance.impl.hasFormalArgs, t.Name())
  }

  class InvokeStringTemplateCommand {
    var currentTemplate: TemplateInfo?
    var trace: seq<Event>

    // The cmdlet parameters, and what the host supplies.
    const group: TemplateGroupInfo?
    const name: Option<string>
    const definition: Option<string>
    const parameters: Option<PSObject>
    const isTrue: Truthiness
    const compile: string -> Compiled
    const defaultTemplateName: string

    constructor (group: TemplateGroupInfo?, name: Option<string>, definition: Option<string>,
                 parameters: Option<PSObject>, isTrue: Truthiness, compile: string -> Compiled,
                 defaultTemplateName: string)
      ensures this.group == group && this.name == name && this.definition == definition
      ensures this.parameters == parameters && this.isTrue == isTrue && this.compile == compile
      ensures this.defaultTemplateName == defaultTemplateName
      ensures currentTemplate == null && trace == []
    {
      this.group := group;
      this.name := name;
      this.definition := definition;
      this.parameters := parameters;
      this.isTrue := isTrue;
      this.compile := compile;
      this.defaultTemplateName := defaultTemplateName;
      currentTemplate := null;
      trace := [];
    }

    /** The current template as the binder sees it. */
    function CurrentTarget(): Target
      requires currentTemplate != null
      reads this, currentTemplate, currentTemplate.instance.impl
    {
      TargetOf(currentTemplate)
    }

    /** The trace and the current instance's attributes are the starting ones
        extended by what effect `e` did. */
    ghost predicate Reflects(e: Effect, trace0: seq<Event>, attributes0: seq<Attribute>)
      requires currentTemplate != null
      reads this, currentTemplate, currentTemplate.instance
    {
      trace == trace0 + e.events && currentTemplate.instance.attributes == attributes0 + e.added
    }

    /** `AddTemplateArgument`: add, then trace success; swallow the engine's
        no-such-attribute `ArgumentException` with a debug trace; let every other
        exception escape. */
    method AddTemplateArgument(n: Option<string>, v: Value) returns (failure: Option<Exn>)
      requires currentTemplate != null
      modifies this`trace, currentTemplate.instance
      ensures var e := Run([Attempt(n, v)], CurrentTarget());
        Reflects(e, old(trace), old(currentTemplate.instance.attributes)) && failure == e.failure
    {
      RunSnoc([], Attempt(n, v), CurrentTarget());
      assert [] + [Attempt(n, v)] == [Attempt(n, v)];
      var r := currentTemplate.instance.Add(n, v);
      if r.Added? {
        trace := trace + [AddedParameter(n, currentTemplate.Name())];
        return None;
      }
      if r.e.ArgumentException? && StartsWith(r.e.message, NoSuchAttributePrefix) {
        trace := trace + [AttributeNotFound(n, currentTemplate.Name())];
        return None;
      }
      return Some(r.e);
    }

    /** `ProcessRecord`: the group path when a group is given, else the definition path. */
    method ProcessRecord() returns (status: Status)
      requires (group != null) != definition.Some?
      requires group != null ==> group.Valid()
      requires definition.Some? ==> RootName(Qualify(defaultTemplateName))
      modifies this, RecordFootprint(group, name)
      // group path, name not found: a terminating error, and the group stays bound
      ensures group != null && SelectTemplate(name, old(group.TemplateNames())).None? ==>
        var names := old(group.TemplateNames());
        status == Terminated(TemplateNotFound(RequestedName(name, names), names)) &&
        trace == old(trace) && currentTemplate == old(currentTemplate) &&
        BoundBy(group.engine, old(group.engine.adaptors), old(group.engine.renderers), this)
      // group path, template found: that template is bound and rendered
      ensures group != null && SelectTemplate(name, old(group.TemplateNames())).Some? ==>
        var t := group.templates[SelectTemplate(name, old(group.TemplateNames())).value];
        currentTemplate == t &&
        Concluded(status, t, group.engine, old(trace), old(t.instance.attributes), t.instance.impl.render) &&
        (status.Completed? ==> fresh(t.instance)) &&
        (status.Terminated? ==> t.instance == old(t.instance))
      // group path: the group stays valid, and the other templates keep their instances
      ensures group != null ==>
        group.Valid() && group.templates == old(group.templates) && group.engine.defs == old(group.engine.defs)
      ensures group != null ==>
        var k := SelectTemplate(name, old(group.TemplateNames()));
        forall t :: t in group.templates && (k.None? || t != currentTemplate) ==>
          t.instance == old(t.instance) && t.instance.attributes == old(t.instance.attributes)
      ensures group != null ==>
        group.engine.adaptors == WithModelAdaptors(old(group.engine.adaptors)) &&
        group.engine.renderers == WithDateRenderers(old(group.engine.renderers))
      // definition path: a fresh single-template group under the default name
      ensures definition.Some? ==>
        currentTemplate != null && fresh(currentTemplate) && fresh(currentTemplate.group.engine) &&
        var impl := currentTemplate.instance.impl;
        impl.name == Qualify(defaultTemplateName) && impl.tokens == compile(definition.value).tokens &&
        impl.accepts == compile(definition.value).accepts && impl.render == compile(definition.value).render &&
        !impl.hasFormalArgs &&
        Concluded(status, currentTemplate, currentTemplate.group.engine, old(trace), [], impl.render)
    {
      if group != null {
        status := ProcessWithGroup();
      } else {
        status := ProcessWithDefinition();
      }
    }

    /** The group path of `ProcessRecord`: bind the group, select the template by
        `Name` (or the first one), then bind its arguments and render. */
    method ProcessWithGroup() returns (status: Status)
      requires group != null && group.Valid()
      modifies this, RecordFootprint(group, name)
      ensures SelectTemplate(name, old(group.TemplateNames())).None? ==>
        var names := old(group.TemplateNames());
        status == Terminated(TemplateNotFound(RequestedName(name, names), names)) &&
        trace == old(trace) && currentTemplate == old(currentTemplate) &&
        BoundBy(group.engine, old(group.engine.adaptors), old(group.engine.renderers), this)
      ensures SelectTemplate(name, old(group.TemplateNames())).Some? ==>
        var t := group.templates[SelectTemplate(name, old(group.TemplateNames())).value];
        currentTemplate == t &&
        Concluded(status, t, group.engine, old(trace), old(t.instance.attributes), t.instance.impl.render) &&
        (status.Completed? ==> fresh(t.instance)) &&
        (status.Terminated? ==> t.instance == old(t.instance))
      ensures group.Valid() && group.templates == old(group.templates) && group.engine.defs == old(group.engine.defs)
      ensures group.engine.adaptors == WithModelAdaptors(old(group.engine.adaptors))
      ensures group.engine.renderers == WithDateRenderers(old(group.engine.renderers))
    {
      var failure := SelectFromGroup();
      if failure.Some? {
        return Terminated(failure.value);
      }
      status := RenderCurrent(group);
    }

    /** The selection on the group path: bind the group, then pick the template
        named `Name`, or the first one; a name the group lacks is a terminating error. */
    method SelectFromGroup() returns (failure: Option<Failure>)
      requires group != null && group.Valid()
      modifies this`currentTemplate, group.engine
      ensures group.Valid() && group.engine.defs == old(group.engine.defs)
      ensures BoundBy(group.engine, old(group.engine.adaptors), old(group.engine.renderers), this)
      ensures var names := old(group.TemplateNames());
        match SelectTemplate(name, names)
        case None =>
          failure == Some(TemplateNotFound(RequestedName(name, names), names)) &&
          currentTemplate == old(currentTemplate)
        case Some(k) =>
          failure.None? && currentTemplate == group.templates[k]
    {
      ghost var names0 := group.TemplateNames();
      group.Bind(this);
      var templateNames := group.TemplateNames();
      assert templateNames == names0;
      var requested := RequestedName(name, templateNames);
      if requested.None? || requested.value !in templateNames {
        return Some(TemplateNotFound(requested, templateNames));
      }
      var k := IndexOf(templateNames, requested.value);
      currentTemplate := group.templates[k.value];
      failure := None;
    }

    /** The definition path of `ProcessRecord`: a new single-template group, bound,
        then the same binding and rendering. */
    method ProcessWithDefinition() returns (status: Status)
      requires definition.Some? && RootName(Qualify(defaultTemplateName))
      modifies this
      ensures currentTemplate != null && fresh(currentTemplate) && fresh(currentTemplate.group.engine)
      ensures var impl := currentTemplate.instance.impl;
        impl.name == Qualify(defaultTemplateName) && impl.tokens == compile(definition.value).tokens &&
        impl.accepts == compile(definition.value).accepts && impl.render == compile(definition.value).render &&
        !impl.hasFormalArgs &&
        Concluded(status, currentTemplate, currentTemplate.group.engine, old(trace), [], impl.render)
    {
      var g := TemplateGroupInfo.CreateFromTemplateDefinition(this, definition.value, compile, defaultTemplateName);
      currentTemplate := g.templates[0];
      status := RenderCurrent(g);
    }

    /** What `ProcessRecord` does once `t` is the current template, bound into
        `engine`: the arguments are added; an escaping exception ends the record
        with the group still bound and the instance not reset; otherwise the
        rendered text, when not null, is written, the instance is reset and the
        listener goes back to the default. */
    ghost predicate Concluded(status: Status, t: TemplateInfo, engine: TemplateGroup, trace0: seq<Event>,
                              attributes0: seq<Attribute>, render: seq<Attribute> -> RenderResult)
      reads this, t, t.instance, t.instance.impl, engine
    {
      var e := Run(ArgumentSteps(isTrue, parameters, t.Parameters()), TargetOf(t));
      if e.failure.Some? then
        status == Terminated(Propagated(e.failure.value)) && trace == trace0 + e.events &&
        t.instance.attributes == attributes0 + e.added && engine.listener == CmdletErrorListener(this)
      else
        match render(attributes0 + e.added)
        case RenderFailed(x) =>
          status == Terminated(Propagated(x)) && trace == trace0 + e.events &&
          t.instance.attributes == attributes0 + e.added && engine.listener == CmdletErrorListener(this)
        case Rendered(text) =>
          status == Completed &&
          trace == trace0 + e.events + (if text.Some? then [Output(text.value)] else []) &&
          t.instance.attributes == [] && engine.listener == DefaultErrorListener
    }

    /** The tail of `ProcessRecord` after the template is chosen. */
    method RenderCurrent(g: TemplateGroupInfo) returns (status: Status)
      requires currentTemplate != null && currentTemplate.Valid() && currentTemplate.group == g
      requires g.Valid() && currentTemplate in g.templates
      requires g.engine.listener == CmdletErrorListener(this)
      modifies this`trace, currentTemplate, currentTemplate.instance, g.engine
      ensures Concluded(status, currentTemplate, g.engine, old(trace), old(currentTemplate.instance.attributes),
                        currentTemplate.instance.impl.render)
      ensures currentTemplate.instance.impl == old(currentTemplate.instance.impl)
      ensures status.Completed? ==> fresh(currentTemplate.instance)
      ensures status.Terminated? ==> currentTemplate.instance == old(currentTemplate.instance)
      ensures g.engine.adaptors == old(g.engine.adaptors) && g.engine.renderers == old(g.engine.renderers)
      ensures g.engine.defs == old(g.engine.defs)
      ensures g.Valid()
    {
      var failure := AddArguments();
      assert g.Valid();
      if failure.Some? {
        return Terminated(Propagated(failure.value));
      }
      status := RenderAndReset(g);
    }

    /** The end of a record once its arguments are bound: render the instance; a
        render failure escapes with nothing else changed; otherwise the text, when
        not null, is written, the instance is reset and the group unbound. */
    method RenderAndReset(g: TemplateGroupInfo) returns (status: Status)
      requires currentTemplate != null && currentTemplate.Valid() && currentTemplate.group == g
      requires g.Valid() && currentTemplate in g.templates
      modifies this`trace, currentTemplate, g.engine
      ensures currentTemplate.instance.impl == old(currentTemplate.instance.impl)
      ensures match old(currentTemplate.instance.impl.render(currentTemplate.instance.attributes))
        case RenderFailed(x) =>
          status == Terminated(Propagated(x)) && trace == old(trace) &&
          currentTemplate.instance == old(currentTemplate.instance) && g.engine.listener == old(g.engine.listener)
        case Rendered(text) =>
          status == Completed && trace == old(trace) + (if text.Some? then [Output(text.value)] else []) &&
          fresh(currentTemplate.instance) && currentTemplate.instance.attributes == [] &&
          g.engine.listener == DefaultErrorListener
      ensures g.engine.adaptors == old(g.engine.adaptors) && g.engine.renderers == old(g.engine.renderers)
      ensures g.engine.defs == old(g.engine.defs)
      ensures g.Valid()
    {
      var result := currentTemplate.instance.Render();
      if result.RenderFailed? {
        return Terminated(Propagated(result.e));
      }
      ghost var trace1 := trace;
      if result.text.Some? {
        trace := trace + [Output(result.text.value)];
      } else {
        assert trace == trace1 + [];
      }
      currentTemplate.ResetInstance();
      assert g.Valid();
      g.Unbind();
      status := Completed;
    }

    /** The `Parameters` dispatch of `ProcessRecord`: nothing without it, the entries
        of a dictionary, or the members of any other object. */
    method AddArguments() returns (failure: Option<Exn>)
      requires currentTemplate != null
      modifies this`trace, currentTemplate.instance
      ensures var e := Run(ArgumentSteps(isTrue, parameters, currentTemplate.Parameters()), CurrentTarget());
        Reflects(e, old(trace), old(currentTemplate.instance.attributes)) && failure == e.failure
    {
      if parameters.None? {
        assert trace + [] == trace && currentTemplate.instance.attributes + [] == currentTemplate.instance.attributes;
        return None;
      }
      if parameters.value.baseObject.Dict? {
        failure := AddDictionaryEntries(parameters.value.baseObject.entries);
      } else {
        failure := ProcessObjectAsArguments(parameters.value);
      }
    }

    /** The dictionary loop of `ProcessRecord`: each entry added under its key cast
        to string, in order. */
    method AddDictionaryEntries(entries: seq<(Value, Value)>) returns (failure: Option<Exn>)
      requires currentTemplate != null
      modifies this`trace, currentTemplate.instance
      ensures var e := Run(DictionarySteps(entries), CurrentTarget());
        Reflects(e, old(trace), old(currentTemplate.instance.attributes)) && failure == e.failure
    {
      ghost var target := CurrentTarget();
      ghost var trace0, attributes0 := trace, currentTemplate.instance.attributes;
      for i := 0 to |entries|
        invariant var e := Run(DictionarySteps(entries[..i]), target);
          e.failure.None? && trace == trace0 + e.events && currentTemplate.instance.attributes == attributes0 + e.added
      {
        ghost var done := DictionarySteps(entries[..i]);
        ghost var s := Attempt(AsString(entries[i].0), entries[i].1);
        DictionaryStepsSnoc(entries, i);
        failure := AddTemplateArgument(AsString(entries[i].0), entries[i].1);
        Extend(trace0, attributes0, done, s, target);
        if failure.Some? {
          DictionaryStopAt(entries, i + 1, target);
          return;
        }
      }
      assert entries[..|entries|] == entries;
      failure := None;
    }

    /** `ProcessStaticProperties`: every public static property of the type, in order,
        added with its filtered value. */
    method ProcessStaticProperties(t: TypeDesc) returns (failure: Option<Exn>)
      requires currentTemplate != null
      modifies this`trace, currentTemplate.instance
      ensures var e := Run(StaticSteps(isTrue, t.staticProperties), CurrentTarget());
        Reflects(e, old(trace), old(currentTemplate.instance.attributes)) && failure == e.failure
    {
      var props := t.staticProperties;
      ghost var target := CurrentTarget();
      ghost var trace0, attributes0 := trace, currentTemplate.instance.attributes;
      for i := 0 to |props|
        invariant var e := Run(StaticSteps(isTrue, props[..i]), target);
          e.failure.None? && trace == trace0 + e.events && currentTemplate.instance.attributes == attributes0 + e.added
      {
        var p := props[i];
        ghost var done := StaticSteps(isTrue, props[..i]);
        StaticStepsSnoc(isTrue, props, i);
        ghost var trace1, attributes1 := trace, currentTemplate.instance.attributes;
        match p.value {
          case Threw(e) =>
            // property.GetValue(null) throws out of the ForEach
            failure := Some(e);
          case Returned(v) =>
            failure := AddTemplateArgument(Some(p.name), NullIfEmpty(isTrue, v));
        }
        Extend(trace0, attributes0, done, StaticStep(isTrue, p), target);
        if failure.Some? {
          StaticsStopAt(isTrue, props, i + 1, target);
          return;
        }
      }
      assert props[..|props|] == props;
      failure := None;
    }

    /** `ProcessObjectAsArguments`: a wrapped type's static properties, then every
        instance property with a non-null value, then the accessor methods that stand
        for template parameters not already given by a property. */
    method ProcessObjectAsArguments(ps: PSObject) returns (failure: Option<Exn>)
      requires currentTemplate != null
      modifies this`trace, currentTemplate.instance
      ensures var e := Run(ObjectSteps(isTrue, ps, currentTemplate.Parameters()), CurrentTarget());
        Reflects(e, old(trace), old(currentTemplate.instance.attributes)) && failure == e.failure
    {
      ghost var target := CurrentTarget();
      ghost var params := currentTemplate.Parameters();
      ghost var trace0, attributes0 := trace, currentTemplate.instance.attributes;
      ghost var statics := if ps.baseObject.TypeObj? then StaticSteps(isTrue, ps.baseObject.t.staticProperties) else [];
      ghost var properties := PropertySteps(ps.properties);
      ghost var accessors := MethodSteps(ps.methods, RecordedNames(ps.properties), params);
      assert ObjectSteps(isTrue, ps, params) == statics + properties + accessors;
      Concat(statics, properties, accessors);
      if ps.baseObject.TypeObj? {
        failure := ProcessStaticProperties(ps.baseObject.t);
        if failure.Some? {
          RunAfterFailure(statics, properties + accessors, target);
          return;
        }
      } else {
        assert trace0 + [] == trace0 && attributes0 + [] == attributes0;
      }
      var propertyNames;
      failure, propertyNames := AddProperties(ps.properties);
      RunAppend(statics, properties, target);
      Concat(trace0, Run(statics, target).events, Run(properties, target).events);
      Concat(attributes0, Run(statics, target).added, Run(properties, target).added);
      if failure.Some? {
        RunAfterFailure(statics + properties, accessors, target);
        return;
      }
      failure := AddAccessors(ps.methods, propertyNames);
      RunAppend(statics + properties, accessors, target);
      Concat(trace0, Run(statics + properties, target).events, Run(accessors, target).events);
      Concat(attributes0, Run(statics + properties, target).added, Run(accessors, target).added);
    }

    /** The instance-property loop of `ProcessObjectAsArguments`: each property whose
        getter returns a non-null value is added, and its name recorded. */
    method AddProperties(props: seq<Property>) returns (failure: Option<Exn>, propertyNames: seq<string>)
      requires currentTemplate != null
      modifies this`trace, currentTemplate.instance
      ensures var e := Run(PropertySteps(props), CurrentTarget());
        Reflects(e, old(trace), old(currentTemplate.instance.attributes)) && failure == e.failure
      ensures failure.None? ==> propertyNames == RecordedNames(props)
    {
      ghost var target := CurrentTarget();
      ghost var trace0, attributes0 := trace, currentTemplate.instance.attributes;
      propertyNames := [];
      for i := 0 to |props|
        invariant propertyNames == RecordedNames(props[..i])
        invariant var e := Run(PropertySteps(props[..i]), target);
          e.failure.None? && trace == trace0 + e.events && currentTemplate.instance.attributes == attributes0 + e.added
      {
        var property := props[i];
        ghost var done := PropertySteps(props[..i]);
        PropertyStepsSnoc(props, i);
        if property.value.Threw? || property.value.v == Null {
          assert done + [] == done && propertyNames + [] == propertyNames;
          continue;
        }
        ghost var s := Attempt(Some(property.name), property.value.v);
        failure := AddTemplateArgument(Some(property.name), property.value.v);
        Extend(trace0, attributes0, done, s, target);
        if failure.Some? {
          PropertiesStopAt(props, i + 1, target);
          return;
        }
        propertyNames := propertyNames + [property.name];
      }
      assert props[..|props|] == props;
      failure := None;
    }

    /** The method loop of `ProcessObjectAsArguments`: each method is given one
        pass of `AddAccessor`, until an add fails. */
    method AddAccessors(methods: seq<Method>, propertyNames: seq<string>) returns (failure: Option<Exn>)
      requires currentTemplate != null
      modifies this`trace, currentTemplate.instance
      ensures var e := Run(MethodSteps(methods, propertyNames, currentTemplate.Parameters()), CurrentTarget());
        Reflects(e, old(trace), old(currentTemplate.instance.attributes)) && failure == e.failure
    {
      ghost var target := CurrentTarget();
      ghost var params := currentTemplate.Parameters();
      ghost var trace0, attributes0 := trace, currentTemplate.instance.attributes;
      for j := 0 to |methods|
        invariant var e := Run(MethodSteps(methods[..j], propertyNames, params), target);
          e.failure.None? && trace == trace0 + e.events && currentTemplate.instance.attributes == attributes0 + e.added
      {
        ghost var trace1, attributes1 := trace, currentTemplate.instance.attributes;
        failure := AddAccessor(methods[j], propertyNames);
        AccessorStep(trace0, attributes0, trace1, attributes1, trace, currentTemplate.instance.attributes,
                     methods, j, propertyNames, params, target);
        if failure.Some? {
          MethodsStopAt(methods, j + 1, propertyNames, params, target);
          return;
        }
      }
      assert methods[..|methods|] == methods;
      failure := None;
    }

    /** One pass of the method loop: a method that is not a qualifying accessor is
        skipped; a qualifying one is invoked and its result added under the derived
        name, and one that throws is traced and skipped. */
    method AddAccessor(m: Method, propertyNames: seq<string>) returns (failure: Option<Exn>)
      requires currentTemplate != null
      modifies this`trace, currentTemplate.instance
      ensures var e := Run(MethodStep(m, propertyNames, currentTemplate.Parameters()), CurrentTarget());
        Reflects(e, old(trace), old(currentTemplate.instance.attributes)) && failure == e.failure
    {
      if !IsGetterName(m.name) {
        assert trace + [] == trace && currentTemplate.instance.attributes + [] == currentTemplate.instance.attributes;
        return None;
      }
      var nameAsProperty := DerivedName(m.name);
      if nameAsProperty in propertyNames || nameAsProperty !in currentTemplate.Parameters() ||
         !Contains(m.firstOverload, "()") || Contains(m.firstOverload, "void") {
        assert trace + [] == trace && currentTemplate.instance.attributes + [] == currentTemplate.instance.attributes;
        return None;
      }
      assert Qualifies(m, propertyNames, currentTemplate.Parameters());
      match m.invoke {
        case Threw(_) =>
          RunSnoc([], Note(InvokeFailed(m.name, nameAsProperty)), CurrentTarget());
          assert [] + [Note(InvokeFailed(m.name, nameAsProperty))] == [Note(InvokeFailed(m.name, nameAsProperty))];
          assert currentTemplate.instance.attributes + [] == currentTemplate.instance.attributes;
          trace := trace + [InvokeFailed(m.name, nameAsProperty)];
          return None;
        case Returned(result) =>
          failure := AddTemplateArgument(Some(nameAsProperty), result);
      }
    }
  }
}
