/**
 * The argument binder of InvokeStringTemplateCommand.cs, as a specification:
 * which `AddTemplateArgument` calls a parameter object gives rise to, in
 * which order, and what executing them does to the template instance and to
 * the cmdlet's trace. The command's loops are proved against these functions.
 */
module Binding {

  import opened Wrappers
  import opened Text
  import opened Host
  import opened AdapterUtil
  import opened Engine

  /** The message prefix by which the engine reports an undeclared attribute. */
  const NoSuchAttributePrefix := "no such attribute: "

  /** What the cmdlet writes: verbose and debug traces, and pipeline output. */
  datatype Event =
    | AddedParameter(attribute: Option<string>, template: string)     // WriteVerbose after a successful Add
    | AttributeNotFound(attribute: Option<string>, template: string)  // WriteDebug for an undeclared attribute
    | InvokeFailed(methodName: string, derivedName: string)           // WriteDebug for a throwing accessor
    | Output(text: string)                                            // WriteObject of the rendered text

  /** One unit of work of the binder: an `AddTemplateArgument` call, a trace with no
      call, or an exception that escapes before any call is made. */
  datatype Step = Attempt(name: Option<string>, value: Value) | Note(event: Event) | Raise(e: Exn)

  /** The current template as `AddTemplateArgument` sees it. */
  datatype Target = Target(accepts: (bool, Option<string>, Value) -> AddResult, hasFormalArgs: bool, name: string)

  /** What a run of steps did: attributes stored, events written, and the exception
      that stopped it, if any. */
  datatype Effect = Effect(added: seq<Attribute>, events: seq<Event>, failure: Option<Exn>)

  /** `AddTemplateArgument`'s reading of an `Add` outcome. */
  datatype Verdict = Bound | Skipped | Fatal(e: Exn)

  /** Success binds; an `ArgumentException` whose message starts with the
      no-such-attribute prefix is swallowed; every other exception propagates. */
  function Classify(r: AddResult): (v: Verdict)
    ensures v.Bound? <==> r.Added?
    ensures v.Skipped? <==> r.AddFailed? && r.e.ArgumentException? && StartsWith(r.e.message, NoSuchAttributePrefix)
    ensures v.Fatal? ==> r == AddFailed(v.e)
  {
    match r
    case Added => Bound
    case AddFailed(e) =>
      if e.ArgumentException? && StartsWith(e.message, NoSuchAttributePrefix) then Skipped else Fatal(e)
  }

  /** The step stops the binder. */
  predicate IsFatal(s: Step, t: Target) {
    s.Raise? || (s.Attempt? && Classify(t.accepts(t.hasFormalArgs, s.name, s.value)).Fatal?)
  }

  /** The exception a fatal step raises. */
  function FatalExn(s: Step, t: Target): Exn
    requires IsFatal(s, t)
  {
    if s.Raise? then s.e else Classify(t.accepts(t.hasFormalArgs, s.name, s.value)).e
  }

  /** One step executed after a run that has not failed. */
  function Apply(prev: Effect, s: Step, t: Target): (r: Effect)
    ensures IsFatal(s, t) ==> r == Effect(prev.added, prev.events, Some(FatalExn(s, t)))
    ensures !IsFatal(s, t) ==> r.failure == None
  {
    match s
    case Attempt(n, v) =>
      (match Classify(t.accepts(t.hasFormalArgs, n, v))
       case Bound => Effect(prev.added + [(n, v)], prev.events + [AddedParameter(n, t.name)], None)
       case Skipped => Effect(prev.added, prev.events + [AttributeNotFound(n, t.name)], None)
       case Fatal(e) => Effect(prev.added, prev.events, Some(e)))
    case Note(ev) => Effect(prev.added, prev.events + [ev], None)
    case Raise(e) => Effect(prev.added, prev.events, Some(e))
  }

  /** The steps executed in order until the first one that fails. */
  function Run(steps: seq<Step>, t: Target): Effect
    decreases |steps|
  {
    if steps == [] then Effect([], [], None)
    else
      var prev := Run(steps[..|steps| - 1], t);
      if prev.failure.Some? then prev else Apply(prev, steps[|steps| - 1], t)
  }

  /** One more step after a prefix. */
  lemma RunSnoc(a: seq<Step>, s: Step, t: Target)
    ensures Run(a + [s], t) == if Run(a, t).failure.Some? then Run(a, t) else Apply(Run(a, t), s, t)
  {
    assert (a + [s])[..|a|] == a;
  }

  /** A step after a run that has not failed adds to that run exactly what the
      step does on its own. */
  lemma ApplyAfter(prev: Effect, s: Step, t: Target)
    requires prev.failure.None?
    ensures var one := Run([s], t); var r := Apply(prev, s, t);
      r.added == prev.added + one.added && r.events == prev.events + one.events && r.failure == one.failure
  {
    RunSnoc([], s, t);
    assert [] + [s] == [s];
    var e0 := Effect([], [], None);
    assert e0.added + [] == [] && e0.events + [] == [];
  }

  /** Running `a` then `b`, when `a` does not fail, adds and writes what each does on
      its own, and ends as `b` ends. */
  lemma {:induction false} RunAppend(a: seq<Step>, b: seq<Step>, t: Target)
    requires Run(a, t).failure.None?
    ensures var ea := Run(a, t); var eb := Run(b, t); var e := Run(a + b, t);
      e.added == ea.added + eb.added && e.events == ea.events + eb.events && e.failure == eb.failure
    decreases |b|
  {
    if b == [] {
      assert a + b == a;
      assert Run(a, t).added + [] == Run(a, t).added && Run(a, t).events + [] == Run(a, t).events;
    } else {
      var b' := b[..|b| - 1];
      var s := b[|b| - 1];
      RunAppend(a, b', t);
      assert a + b == (a + b') + [s];
      assert b == b' + [s];
      RunAppendStep(a, b', s, t);
    }
  }

  /** The inductive step of `RunAppend`: one more step at the end of `b`. */
  lemma RunAppendStep(a: seq<Step>, b: seq<Step>, s: Step, t: Target)
    requires Run(a, t).failure.None?
    requires var ea := Run(a, t); var eb := Run(b, t); var e := Run(a + b, t);
      e.added == ea.added + eb.added && e.events == ea.events + eb.events && e.failure == eb.failure
    ensures var ea := Run(a, t); var eb := Run(b + [s], t); var e := Run((a + b) + [s], t);
      e.added == ea.added + eb.added && e.events == ea.events + eb.events && e.failure == eb.failure
  {
    RunSnoc(a + b, s, t);
    RunSnoc(b, s, t);
    var ea := Run(a, t);
    var eb := Run(b, t);
    var e := Run(a + b, t);
    if eb.failure.None? {
      var one := Run([s], t);
      ApplyAfter(e, s, t);
      ApplyAfter(eb, s, t);
      Concat(ea.added, eb.added, one.added);
      Concat(ea.events, eb.events, one.events);
    }
  }

  /** Once a run has failed, later steps do nothing. */
  lemma {:induction false} RunAfterFailure(a: seq<Step>, b: seq<Step>, t: Target)
    requires Run(a, t).failure.Some?
    ensures Run(a + b, t) == Run(a, t)
    decreases |b|
  {
    if b == [] {
      assert a + b == a;
    } else {
      var b' := b[..|b| - 1];
      RunAfterFailure(a, b', t);
      assert a + b == (a + b') + [b[|b| - 1]];
      RunSnoc(a + b', b[|b| - 1], t);
    }
  }

  /** A run fails exactly when one of its steps is fatal. */
  lemma {:induction false} RunFailsIffFatal(steps: seq<Step>, t: Target)
    ensures Run(steps, t).failure.Some? <==> exists i :: 0 <= i < |steps| && IsFatal(steps[i], t)
    decreases |steps|
  {
    if steps != [] {
      var a := steps[..|steps| - 1];
      var s := steps[|steps| - 1];
      RunFailsIffFatal(a, t);
      assert steps == a + [s];
      RunSnoc(a, s, t);
      if exists i :: 0 <= i < |a| && IsFatal(a[i], t) {
        var i :| 0 <= i < |a| && IsFatal(a[i], t);
        assert steps[i] == a[i];
      }
      if exists i :: 0 <= i < |steps| && IsFatal(steps[i], t) {
        var i :| 0 <= i < |steps| && IsFatal(steps[i], t);
        if i < |a| { assert a[i] == steps[i]; }
      }
    }
  }

  /** A run that meets a fatal step stops there: what it did is what the steps
      before it did, and the failure is that step's exception. */
  lemma StopsAtFirstFatal(steps: seq<Step>, i: nat, t: Target)
    requires i < |steps| && IsFatal(steps[i], t)
    requires forall j :: 0 <= j < i ==> !IsFatal(steps[j], t)
    ensures Run(steps, t).added == Run(steps[..i], t).added
    ensures Run(steps, t).events == Run(steps[..i], t).events
    ensures Run(steps, t).failure == Some(FatalExn(steps[i], t))
  {
    var a := steps[..i];
    var p := steps[..i + 1];
    RunFailsIffFatal(a, t);
    assert forall j :: 0 <= j < |a| ==> a[j] == steps[j];
    PrefixSnoc(steps, i);
    RunSnoc(a, steps[i], t);
    SplitAt(steps, i + 1);
    RunAfterFailure(p, steps[i + 1..], t);
  }

  /** A prefix one longer is the shorter prefix and the next element. */
  lemma PrefixSnoc<T>(s: seq<T>, i: nat)
    requires i < |s|
    ensures s[..i + 1] == s[..i] + [s[i]]
  {
  }

  /** Every stored attribute was attempted by some step and accepted by the engine. */
  lemma {:induction false} AddedWereAccepted(steps: seq<Step>, t: Target, x: Attribute)
    requires x in Run(steps, t).added
    ensures Attempt(x.0, x.1) in steps && t.accepts(t.hasFormalArgs, x.0, x.1) == Added
    decreases |steps|
  {
    var a := steps[..|steps| - 1];
    var s := steps[|steps| - 1];
    assert steps == a + [s];
    RunSnoc(a, s, t);
    if x in Run(a, t).added {
      AddedWereAccepted(a, t, x);
    }
  }

  /** A run with no fatal step stores every attempted attribute the engine accepts. */
  lemma {:induction false} AcceptedAreAdded(steps: seq<Step>, t: Target, n: Option<string>, v: Value)
    requires Attempt(n, v) in steps && t.accepts(t.hasFormalArgs, n, v) == Added
    requires forall j :: 0 <= j < |steps| ==> !IsFatal(steps[j], t)
    ensures (n, v) in Run(steps, t).added
    decreases |steps|
  {
    var a := steps[..|steps| - 1];
    var s := steps[|steps| - 1];
    assert steps == a + [s];
    RunSnoc(a, s, t);
    RunFailsIffFatal(a, t);
    if Attempt(n, v) in a {
      AcceptedAreAdded(a, t, n, v);
    }
  }

  /** Step `s` adds attribute `n`, and the engine stores it. */
  predicate BoundAttempt(s: Step, t: Target, n: Option<string>) {
    s.Attempt? && s.name == n && Classify(t.accepts(t.hasFormalArgs, n, s.value)).Bound?
  }

  /** Step `s` adds attribute `n`, and the engine reports it as undeclared. */
  predicate SkippedAttempt(s: Step, t: Target, n: Option<string>) {
    s.Attempt? && s.name == n && Classify(t.accepts(t.hasFormalArgs, n, s.value)).Skipped?
  }

  /** The traces one non-fatal step adds after a run that has not failed. */
  lemma TraceOfStep(prev: Effect, s: Step, t: Target, n: Option<string>)
    requires prev.failure.None? && !IsFatal(s, t) && (s.Note? ==> s.event.InvokeFailed?)
    ensures AddedParameter(n, t.name) in Apply(prev, s, t).events <==>
      AddedParameter(n, t.name) in prev.events || BoundAttempt(s, t, n)
    ensures AttributeNotFound(n, t.name) in Apply(prev, s, t).events <==>
      AttributeNotFound(n, t.name) in prev.events || SkippedAttempt(s, t, n)
  {
  }

  /** With no fatal step, and no trace of its own but accessor failures, a run writes
      the success trace for attribute `n` exactly when an attempt of `n` was stored,
      and the debug trace exactly when one was reported as undeclared. */
  lemma {:induction false} TracesFollowVerdicts(steps: seq<Step>, t: Target, n: Option<string>)
    requires forall j :: 0 <= j < |steps| ==> !IsFatal(steps[j], t)
    requires forall j :: 0 <= j < |steps| && steps[j].Note? ==> steps[j].event.InvokeFailed?
    ensures AddedParameter(n, t.name) in Run(steps, t).events <==>
      exists j :: 0 <= j < |steps| && BoundAttempt(steps[j], t, n)
    ensures AttributeNotFound(n, t.name) in Run(steps, t).events <==>
      exists j :: 0 <= j < |steps| && SkippedAttempt(steps[j], t, n)
    decreases |steps|
  {
    if steps != [] {
      var a := steps[..|steps| - 1];
      var s := steps[|steps| - 1];
      assert steps == a + [s];
      assert forall j :: 0 <= j < |a| ==> a[j] == steps[j];
      TracesFollowVerdicts(a, t, n);
      RunFailsIffFatal(a, t);
      RunSnoc(a, s, t);
      assert !IsFatal(steps[|steps| - 1], t);
      TraceOfStep(Run(a, t), s, t, n);
      if exists j :: 0 <= j < |steps| && BoundAttempt(steps[j], t, n) {
        var j :| 0 <= j < |steps| && BoundAttempt(steps[j], t, n);
        if j < |a| { assert BoundAttempt(a[j], t, n); }
      }
      if exists j :: 0 <= j < |steps| && SkippedAttempt(steps[j], t, n) {
        var j :| 0 <= j < |steps| && SkippedAttempt(steps[j], t, n);
        if j < |a| { assert SkippedAttempt(a[j], t, n); }
      }
      if exists j :: 0 <= j < |a| && BoundAttempt(a[j], t, n) {
        var j :| 0 <= j < |a| && BoundAttempt(a[j], t, n);
        assert BoundAttempt(steps[j], t, n);
      }
      if exists j :: 0 <= j < |a| && SkippedAttempt(a[j], t, n) {
        var j :| 0 <= j < |a| && SkippedAttempt(a[j], t, n);
        assert SkippedAttempt(steps[j], t, n);
      }
    }
  }

  // ----- The steps each kind of parameter object gives rise to -----

  /** A dictionary entry is added under its key cast to string (null when the key is not a string). */
  function DictionarySteps(entries: seq<(Value, Value)>): (r: seq<Step>)
    ensures |r| == |entries|
    ensures forall i :: 0 <= i < |entries| ==> r[i] == Attempt(AsString(entries[i].0), entries[i].1)
  {
    if entries == [] then []
    else DictionarySteps(entries[..|entries| - 1]) + [Attempt(AsString(entries[|entries| - 1].0), entries[|entries| - 1].1)]
  }

  /** A public static property: added with its filtered value; a throwing getter escapes. */
  function StaticStep(isTrue: Truthiness, p: StaticProperty): Step {
    match p.value
    case Returned(v) => Attempt(Some(p.name), NullIfEmpty(isTrue, v))
    case Threw(e) => Raise(e)
  }

  function StaticSteps(isTrue: Truthiness, props: seq<StaticProperty>): (r: seq<Step>)
    ensures |r| == |props|
    ensures forall i :: 0 <= i < |props| ==> r[i] == StaticStep(isTrue, props[i])
  {
    if props == [] then []
    else StaticSteps(isTrue, props[..|props| - 1]) + [StaticStep(isTrue, props[|props| - 1])]
  }

  /** An instance property is added with its raw value unless the value is null or its getter throws. */
  function PropertyStep(p: Property): seq<Step> {
    if p.value.Returned? && p.value.v != Null then [Attempt(Some(p.name), p.value.v)] else []
  }

  function PropertySteps(props: seq<Property>): seq<Step> {
    if props == [] then []
    else PropertySteps(props[..|props| - 1]) + PropertyStep(props[|props| - 1])
  }

  /** The names recorded in `propertyNames`: those of the properties that were added. */
  function RecordedNames(props: seq<Property>): seq<string> {
    if props == [] then []
    else
      var p := props[|props| - 1];
      RecordedNames(props[..|props| - 1]) + (if p.value.Returned? && p.value.v != Null then [p.name] else [])
  }

  /** `Regex.IsMatch(name, "^Get[A-Z]")`. */
  predicate IsGetterName(name: string)
    ensures IsGetterName(name) ==> |name| >= 4 && DerivedName(name) == name[3..] && 'A' <= DerivedName(name)[0] <= 'Z'
  {
    |name| >= 4 && name[..3] == "Get" && 'A' <= name[3] <= 'Z'
  }

  /** `Regex.Replace(name, "^Get", "")`. */
  function DerivedName(name: string): (r: string)
    ensures StartsWith(name, "Get") ==> "Get" + r == name
    ensures !StartsWith(name, "Get") ==> r == name
  {
    if StartsWith(name, "Get") then name[3..] else name
  }

  /** A method the binder will invoke: a getter name whose derived name is not a
      recorded property but is a template parameter, and whose first overload takes
      no arguments and is not void. */
  predicate Qualifies(m: Method, recorded: seq<string>, params: seq<string>) {
    IsGetterName(m.name) &&
    DerivedName(m.name) !in recorded &&
    DerivedName(m.name) in params &&
    Contains(m.firstOverload, "()") &&
    !Contains(m.firstOverload, "void")
  }

  /** A qualifying method is added under its derived name with its raw result; one
      that throws is traced and skipped. */
  function MethodStep(m: Method, recorded: seq<string>, params: seq<string>): seq<Step> {
    if !Qualifies(m, recorded, params) then []
    else
      match m.invoke
      case Returned(v) => [Attempt(Some(DerivedName(m.name)), v)]
      case Threw(_) => [Note(InvokeFailed(m.name, DerivedName(m.name)))]
  }

  function MethodSteps(methods: seq<Method>, recorded: seq<string>, params: seq<string>): seq<Step> {
    if methods == [] then []
    else MethodSteps(methods[..|methods| - 1], recorded, params) + MethodStep(methods[|methods| - 1], recorded, params)
  }

  /** `ProcessObjectAsArguments`: the static properties of a wrapped type first, then
      the instance properties, then the accessor methods. */
  function ObjectSteps(isTrue: Truthiness, ps: PSObject, params: seq<string>): seq<Step> {
    (if ps.baseObject.TypeObj? then StaticSteps(isTrue, ps.baseObject.t.staticProperties) else [])
    + PropertySteps(ps.properties)
    + MethodSteps(ps.methods, RecordedNames(ps.properties), params)
  }

  /** The steps of the whole `Parameters` input: none without one, the entries of a
      dictionary, or the members of any other object. */
  function ArgumentSteps(isTrue: Truthiness, parameters: Option<PSObject>, params: seq<string>): seq<Step> {
    if parameters.None? then []
    else if parameters.value.baseObject.Dict? then DictionarySteps(parameters.value.baseObject.entries)
    else ObjectSteps(isTrue, parameters.value, params)
  }

  // ----- Prefix lemmas for the loops -----

  lemma SplitAt<T>(s: seq<T>, k: nat)
    requires k <= |s|
    ensures s == s[..k] + s[k..]
  {
  }

  /** One more step after a run that has not failed. */
  lemma RunStep(done: seq<Step>, s: Step, t: Target)
    requires Run(done, t).failure.None?
    ensures var e := Run(done, t); var one := Run([s], t); var e' := Run(done + [s], t);
      e' == Apply(e, s, t) &&
      e'.added == e.added + one.added && e'.events == e.events + one.events && e'.failure == one.failure
  {
    RunSnoc(done, s, t);
    ApplyAfter(Run(done, t), s, t);
  }

  /** What a loop keeps after one more step: the trace and attributes it started
      from, extended by the prefix's effect and then by the step's own. */
  lemma Extend(trace0: seq<Event>, attributes0: seq<Attribute>, done: seq<Step>, s: Step, t: Target)
    requires Run(done, t).failure.None?
    ensures var e := Run(done, t); var one := Run([s], t); var e' := Run(done + [s], t);
      trace0 + e'.events == trace0 + e.events + one.events &&
      attributes0 + e'.added == attributes0 + e.added + one.added &&
      e'.failure == one.failure
  {
    RunStep(done, s, t);
    var e := Run(done, t);
    var one := Run([s], t);
    Concat(trace0, e.events, one.events);
    Concat(attributes0, e.added, one.added);
  }

  lemma StaticStepsSnoc(isTrue: Truthiness, props: seq<StaticProperty>, i: nat)
    requires i < |props|
    ensures StaticSteps(isTrue, props[..i + 1]) == StaticSteps(isTrue, props[..i]) + [StaticStep(isTrue, props[i])]
  {
    assert props[..i + 1][..i] == props[..i];
  }

  lemma PropertyStepsSnoc(props: seq<Property>, i: nat)
    requires i < |props|
    ensures PropertySteps(props[..i + 1]) == PropertySteps(props[..i]) + PropertyStep(props[i])
    ensures RecordedNames(props[..i + 1]) == RecordedNames(props[..i]) +
      (if props[i].value.Returned? && props[i].value.v != Null then [props[i].name] else [])
  {
    assert props[..i + 1][..i] == props[..i];
  }

  lemma MethodStepsSnoc(methods: seq<Method>, j: nat, recorded: seq<string>, params: seq<string>)
    requires j < |methods|
    ensures MethodSteps(methods[..j + 1], recorded, params) ==
      MethodSteps(methods[..j], recorded, params) + MethodStep(methods[j], recorded, params)
  {
    assert methods[..j + 1][..j] == methods[..j];
  }

  /** One pass of the method loop: a trace and attributes that reflect the shorter
      prefix, extended by the method's own steps, reflect the longer prefix. */
  lemma AccessorStep(trace0: seq<Event>, attributes0: seq<Attribute>, trace: seq<Event>, attributes: seq<Attribute>,
                     trace': seq<Event>, attributes': seq<Attribute>,
                     methods: seq<Method>, j: nat, recorded: seq<string>, params: seq<string>, t: Target)
    requires j < |methods|
    requires var e := Run(MethodSteps(methods[..j], recorded, params), t);
      e.failure.None? && trace == trace0 + e.events && attributes == attributes0 + e.added
    requires var one := Run(MethodStep(methods[j], recorded, params), t);
      trace' == trace + one.events && attributes' == attributes + one.added
    ensures var e' := Run(MethodSteps(methods[..j + 1], recorded, params), t);
      trace' == trace0 + e'.events && attributes' == attributes0 + e'.added &&
      e'.failure == Run(MethodStep(methods[j], recorded, params), t).failure
  {
    MethodStepsSnoc(methods, j, recorded, params);
    ExtendBy(trace0, attributes0, trace, attributes, trace', attributes',
             MethodSteps(methods[..j], recorded, params), MethodStep(methods[j], recorded, params), t);
  }

  /** A trace and attributes that reflect a run of `pre`, extended by what `more`
      does on its own, reflect the run of `pre + more`. */
  lemma ExtendBy(trace0: seq<Event>, attributes0: seq<Attribute>, trace: seq<Event>, attributes: seq<Attribute>,
                 trace': seq<Event>, attributes': seq<Attribute>, pre: seq<Step>, more: seq<Step>, t: Target)
    requires var e := Run(pre, t); e.failure.None? && trace == trace0 + e.events && attributes == attributes0 + e.added
    requires var one := Run(more, t); trace' == trace + one.events && attributes' == attributes + one.added
    ensures var e' := Run(pre + more, t);
      trace' == trace0 + e'.events && attributes' == attributes0 + e'.added && e'.failure == Run(more, t).failure
  {
    RunAppend(pre, more, t);
    var e := Run(pre, t);
    var o := Run(more, t);
    Concat(trace0, e.events, o.events);
    Concat(attributes0, e.added, o.added);
  }

  lemma DictionaryStepsSnoc(entries: seq<(Value, Value)>, i: nat)
    requires i < |entries|
    ensures DictionarySteps(entries[..i + 1]) ==
      DictionarySteps(entries[..i]) + [Attempt(AsString(entries[i].0), entries[i].1)]
  {
    assert entries[..i + 1][..i] == entries[..i];
  }

  /** A run over a list's steps that fails within its first `k` elements ends there. */
  lemma StaticsStopAt(isTrue: Truthiness, props: seq<StaticProperty>, k: nat, t: Target)
    requires k <= |props| && Run(StaticSteps(isTrue, props[..k]), t).failure.Some?
    ensures Run(StaticSteps(isTrue, props), t) == Run(StaticSteps(isTrue, props[..k]), t)
  {
    SplitAt(props, k);
    StaticStepsAppend(isTrue, props[..k], props[k..]);
    RunAfterFailure(StaticSteps(isTrue, props[..k]), StaticSteps(isTrue, props[k..]), t);
  }

  lemma PropertiesStopAt(props: seq<Property>, k: nat, t: Target)
    requires k <= |props| && Run(PropertySteps(props[..k]), t).failure.Some?
    ensures Run(PropertySteps(props), t) == Run(PropertySteps(props[..k]), t)
  {
    SplitAt(props, k);
    PropertyStepsAppend(props[..k], props[k..]);
    RunAfterFailure(PropertySteps(props[..k]), PropertySteps(props[k..]), t);
  }

  lemma MethodsStopAt(methods: seq<Method>, k: nat, recorded: seq<string>, params: seq<string>, t: Target)
    requires k <= |methods| && Run(MethodSteps(methods[..k], recorded, params), t).failure.Some?
    ensures Run(MethodSteps(methods, recorded, params), t) == Run(MethodSteps(methods[..k], recorded, params), t)
  {
    SplitAt(methods, k);
    MethodStepsAppend(methods[..k], methods[k..], recorded, params);
    RunAfterFailure(MethodSteps(methods[..k], recorded, params), MethodSteps(methods[k..], recorded, params), t);
  }

  lemma DictionaryStopAt(entries: seq<(Value, Value)>, k: nat, t: Target)
    requires k <= |entries| && Run(DictionarySteps(entries[..k]), t).failure.Some?
    ensures Run(DictionarySteps(entries), t) == Run(DictionarySteps(entries[..k]), t)
  {
    SplitAt(entries, k);
    DictionaryStepsAppend(entries[..k], entries[k..]);
    RunAfterFailure(DictionarySteps(entries[..k]), DictionarySteps(entries[k..]), t);
  }

  lemma {:induction false} StaticStepsAppend(isTrue: Truthiness, a: seq<StaticProperty>, b: seq<StaticProperty>)
    ensures StaticSteps(isTrue, a + b) == StaticSteps(isTrue, a) + StaticSteps(isTrue, b)
    decreases |b|
  {
    if b == [] {
      assert a + b == a;
    } else {
      var b' := b[..|b| - 1];
      assert (a + b)[..|a + b| - 1] == a + b';
      StaticStepsAppend(isTrue, a, b');
    }
  }

  lemma {:induction false} DictionaryStepsAppend(a: seq<(Value, Value)>, b: seq<(Value, Value)>)
    ensures DictionarySteps(a + b) == DictionarySteps(a) + DictionarySteps(b)
    decreases |b|
  {
    if b == [] {
      assert a + b == a;
    } else {
      var b' := b[..|b| - 1];
      assert (a + b)[..|a + b| - 1] == a + b';
      DictionaryStepsAppend(a, b');
    }
  }

  lemma {:induction false} PropertyStepsAppend(a: seq<Property>, b: seq<Property>)
    ensures PropertySteps(a + b) == PropertySteps(a) + PropertySteps(b)
    ensures RecordedNames(a + b) == RecordedNames(a) + RecordedNames(b)
    decreases |b|
  {
    if b == [] {
      assert a + b == a;
    } else {
      var b' := b[..|b| - 1];
      var x := b[|b| - 1];
      assert (a + b)[..|a + b| - 1] == a + b' && (a + b)[|a + b| - 1] == x;
      PropertyStepsAppend(a, b');
      assert PropertySteps(a + b) == PropertySteps(a + b') + PropertyStep(x);
      assert PropertySteps(b) == PropertySteps(b') + PropertyStep(x);
      Concat(PropertySteps(a), PropertySteps(b'), PropertyStep(x));
      var last := if x.value.Returned? && x.value.v != Null then [x.name] else [];
      assert RecordedNames(a + b) == RecordedNames(a + b') + last;
      assert RecordedNames(b) == RecordedNames(b') + last;
      Concat(RecordedNames(a), RecordedNames(b'), last);
    }
  }

  lemma {:induction false} MethodStepsAppend(a: seq<Method>, b: seq<Method>, recorded: seq<string>, params: seq<string>)
    ensures MethodSteps(a + b, recorded, params) == MethodSteps(a, recorded, params) + MethodSteps(b, recorded, params)
    decreases |b|
  {
    if b == [] {
      assert a + b == a;
    } else {
      var b' := b[..|b| - 1];
      var x := b[|b| - 1];
      assert (a + b)[..|a + b| - 1] == a + b' && (a + b)[|a + b| - 1] == x;
      MethodStepsAppend(a, b', recorded, params);
      var one := MethodStep(x, recorded, params);
      assert MethodSteps(a + b, recorded, params) == MethodSteps(a + b', recorded, params) + one;
      assert MethodSteps(b, recorded, params) == MethodSteps(b', recorded, params) + one;
      assert MethodSteps(a, recorded, params) + MethodSteps(b', recorded, params) + one ==
        MethodSteps(a, recorded, params) + (MethodSteps(b', recorded, params) + one);
    }
  }

  // ----- What the steps of an object are -----

  /** Every public static property of a wrapped type comes before any instance
      member, one step per static property, in reflection order. */
  lemma StaticPropertiesFirst(isTrue: Truthiness, ps: PSObject, params: seq<string>)
    requires ps.baseObject.TypeObj?
    ensures var sp := ps.baseObject.t.staticProperties;
      var steps := ObjectSteps(isTrue, ps, params);
      |sp| <= |steps| &&
      forall k :: 0 <= k < |sp| ==>
        steps[k] == (if sp[k].value.Returned?
                     then Attempt(Some(sp[k].name), NullIfEmpty(isTrue, sp[k].value.v))
                     else Raise(sp[k].value.e))
  {
  }

  /** The instance properties contribute an attempt for exactly the properties with
      a non-null value, under the property name with the raw value. */
  lemma {:induction false} PropertyStepsMember(props: seq<Property>, s: Step)
    ensures s in PropertySteps(props) <==>
      exists i :: 0 <= i < |props| && props[i].value.Returned? && props[i].value.v != Null &&
        s == Attempt(Some(props[i].name), props[i].value.v)
    decreases |props|
  {
    if props != [] {
      var a := props[..|props| - 1];
      var p := props[|props| - 1];
      assert PropertySteps(props) == PropertySteps(a) + PropertyStep(p);
      PropertyStepsMember(a, s);
      if s in PropertySteps(props) {
        if s in PropertySteps(a) {
          var i :| 0 <= i < |a| && a[i].value.Returned? && a[i].value.v != Null &&
            s == Attempt(Some(a[i].name), a[i].value.v);
          assert props[i] == a[i];
        } else {
          assert s in PropertyStep(p);
          assert props[|props| - 1] == p;
        }
      }
      if exists i :: 0 <= i < |props| && props[i].value.Returned? && props[i].value.v != Null &&
           s == Attempt(Some(props[i].name), props[i].value.v) {
        var i :| 0 <= i < |props| && props[i].value.Returned? && props[i].value.v != Null &&
          s == Attempt(Some(props[i].name), props[i].value.v);
        if i < |a| {
          assert a[i] == props[i];
        } else {
          assert s in PropertyStep(p);
        }
      }
    }
  }

  /** A name is recorded exactly when some property of that name has a non-null value. */
  lemma {:induction false} RecordedNamesMember(props: seq<Property>, n: string)
    ensures n in RecordedNames(props) <==>
      exists i :: 0 <= i < |props| && props[i].name == n && props[i].value.Returned? && props[i].value.v != Null
    decreases |props|
  {
    if props != [] {
      var a := props[..|props| - 1];
      var p := props[|props| - 1];
      var last := if p.value.Returned? && p.value.v != Null then [p.name] else [];
      assert RecordedNames(props) == RecordedNames(a) + last;
      RecordedNamesMember(a, n);
      if n in RecordedNames(props) {
        if n in RecordedNames(a) {
          var i :| 0 <= i < |a| && a[i].name == n && a[i].value.Returned? && a[i].value.v != Null;
          assert props[i] == a[i];
        } else {
          assert n in last;
          assert props[|props| - 1] == p;
        }
      }
      if exists i :: 0 <= i < |props| && props[i].name == n && props[i].value.Returned? && props[i].value.v != Null {
        var i :| 0 <= i < |props| && props[i].name == n && props[i].value.Returned? && props[i].value.v != Null;
        if i < |a| {
          assert a[i] == props[i];
        } else {
          assert n in last;
        }
      }
    }
  }

  /** A step comes from the methods exactly when it comes from one of them. */
  lemma {:induction false} MethodStepsMember(methods: seq<Method>, recorded: seq<string>, params: seq<string>, s: Step)
    ensures s in MethodSteps(methods, recorded, params) <==>
      exists k :: 0 <= k < |methods| && s in MethodStep(methods[k], recorded, params)
    decreases |methods|
  {
    if methods != [] {
      var a := methods[..|methods| - 1];
      var m := methods[|methods| - 1];
      MethodStepsMember(a, recorded, params, s);
      assert methods == a + [m];
      MethodStepsMemberStep(a, m, recorded, params, s);
    }
  }

  /** The inductive step of `MethodStepsMember`: one more method at the end. */
  lemma MethodStepsMemberStep(a: seq<Method>, m: Method, recorded: seq<string>, params: seq<string>, s: Step)
    requires s in MethodSteps(a, recorded, params) <==>
      exists k :: 0 <= k < |a| && s in MethodStep(a[k], recorded, params)
    ensures s in MethodSteps(a + [m], recorded, params) <==>
      exists k :: 0 <= k < |a + [m]| && s in MethodStep((a + [m])[k], recorded, params)
  {
    var methods := a + [m];
    assert methods[..|methods| - 1] == a && methods[|methods| - 1] == m;
    var pre := MethodSteps(a, recorded, params);
    var one := MethodStep(m, recorded, params);
    assert MethodSteps(methods, recorded, params) == pre + one;
    assert s in pre + one <==> s in pre || s in one;
    if s in pre {
      var k :| 0 <= k < |a| && s in MethodStep(a[k], recorded, params);
      assert methods[k] == a[k];
    } else if s in one {
      assert s in MethodStep(methods[|methods| - 1], recorded, params);
    }
    if exists k :: 0 <= k < |methods| && s in MethodStep(methods[k], recorded, params) {
      var k :| 0 <= k < |methods| && s in MethodStep(methods[k], recorded, params);
      if k < |a| {
        assert a[k] == methods[k];
      }
    }
  }

  /** The methods contribute an attempt for exactly the qualifying methods whose
      invocation returns, under the derived name with the raw (unfiltered) result. */
  lemma {:induction false} MethodStepsAttempt(methods: seq<Method>, recorded: seq<string>, params: seq<string>, n: Option<string>, v: Value)
    ensures Attempt(n, v) in MethodSteps(methods, recorded, params) <==>
      exists k :: 0 <= k < |methods| && AttemptedBy(methods[k], recorded, params, n, v)
  {
    MethodStepsMember(methods, recorded, params, Attempt(n, v));
    forall k | 0 <= k < |methods|
      ensures Attempt(n, v) in MethodStep(methods[k], recorded, params) <==> AttemptedBy(methods[k], recorded, params, n, v)
    {
      MethodStepAttempt(methods[k], recorded, params, n, v);
    }
  }

  /** The methods write an `InvokeFailed` debug trace for exactly the qualifying
      methods whose invocation throws, naming the method and its derived name. */
  lemma {:induction false} MethodStepsNote(methods: seq<Method>, recorded: seq<string>, params: seq<string>, mn: string, d: string)
    ensures Note(InvokeFailed(mn, d)) in MethodSteps(methods, recorded, params) <==>
      exists k :: 0 <= k < |methods| && ThrownBy(methods[k], recorded, params, mn, d)
  {
    MethodStepsMember(methods, recorded, params, Note(InvokeFailed(mn, d)));
    forall k | 0 <= k < |methods|
      ensures Note(InvokeFailed(mn, d)) in MethodStep(methods[k], recorded, params) <==>
        ThrownBy(methods[k], recorded, params, mn, d)
    {
      MethodStepNote(methods[k], recorded, params, mn, d);
    }
  }

  /** A single method gives an attempt exactly when it is invoked and returns. */
  lemma MethodStepAttempt(m: Method, recorded: seq<string>, params: seq<string>, n: Option<string>, v: Value)
    ensures Attempt(n, v) in MethodStep(m, recorded, params) <==> AttemptedBy(m, recorded, params, n, v)
  {
  }

  /** A single method gives a debug trace exactly when it is invoked and throws. */
  lemma MethodStepNote(m: Method, recorded: seq<string>, params: seq<string>, mn: string, d: string)
    ensures Note(InvokeFailed(mn, d)) in MethodStep(m, recorded, params) <==> ThrownBy(m, recorded, params, mn, d)
  {
  }

  /** Method `m` qualifies, throws, and is traced under its own and its derived name. */
  predicate ThrownBy(m: Method, recorded: seq<string>, params: seq<string>, mn: string, d: string) {
    Qualifies(m, recorded, params) && m.invoke.Threw? && mn == m.name && d == DerivedName(m.name)
  }

  /** Method `m` qualifies, returns `v`, and is added under name `n`. */
  predicate AttemptedBy(m: Method, recorded: seq<string>, params: seq<string>, n: Option<string>, v: Value) {
    Qualifies(m, recorded, params) && m.invoke == Returned(v) && n == Some(DerivedName(m.name))
  }

  /** A run stores no more attributes than it writes events, and writes no more
      events than it has steps. A run that does not fail writes exactly one event per step; one that
      fails stopped at its first fatal step, having written one event for each step
      before it and none for that step. */
  lemma {:induction false} RunCounts(steps: seq<Step>, t: Target)
    ensures |Run(steps, t).added| <= |Run(steps, t).events| <= |steps|
    ensures Run(steps, t).failure.None? ==> |Run(steps, t).events| == |steps|
    ensures Run(steps, t).failure.Some? ==> |Run(steps, t).events| < |steps|
    ensures Run(steps, t).failure.Some? ==>
      exists i :: 0 <= i < |steps| && IsFatal(steps[i], t) && |Run(steps, t).events| == i &&
        forall j :: 0 <= j < i ==> !IsFatal(steps[j], t)
    decreases |steps|
  {
    if steps != [] {
      var a := steps[..|steps| - 1];
      RunCounts(a, t);
      if Run(steps, t).failure.Some? {
        if Run(a, t).failure.Some? {
          var i :| 0 <= i < |a| && IsFatal(a[i], t) && |Run(a, t).events| == i &&
            forall j :: 0 <= j < i ==> !IsFatal(a[j], t);
          assert forall j :: 0 <= j <= i ==> steps[j] == a[j];
        } else {
          RunFailsIffFatal(a, t);
          assert forall j :: 0 <= j < |a| ==> steps[j] == a[j];
          assert IsFatal(steps[|a|], t);
        }
      }
    }
  }

  /** Only a property with a non-null value gives a step, an attempt under its own
      name, and `propertyNames` records exactly those names in the same order. A
      throwing getter never stops the binder. */
  lemma {:induction false} PropertyStepsShape(props: seq<Property>)
    ensures |PropertySteps(props)| <= |props|
    ensures |RecordedNames(props)| == |PropertySteps(props)|
    ensures var r := PropertySteps(props); var names := RecordedNames(props);
      forall i :: 0 <= i < |r| ==> r[i].Attempt? && r[i].name == Some(names[i]) && r[i].value != Null
    decreases |props|
  {
    if props != [] {
      var a := props[..|props| - 1];
      var p := props[|props| - 1];
      PropertyStepsShape(a);
      var one := PropertyStep(p);
      var extra: seq<string> := if p.value.Returned? && p.value.v != Null then [p.name] else [];
      assert PropertySteps(props) == PropertySteps(a) + one;
      assert RecordedNames(props) == RecordedNames(a) + extra;
      assert |one| == |extra|;
      forall i | |PropertySteps(a)| <= i < |PropertySteps(props)|
        ensures PropertySteps(props)[i].Attempt? && PropertySteps(props)[i].name == Some(RecordedNames(props)[i]) &&
          PropertySteps(props)[i].value != Null
      {
        assert PropertySteps(props)[i] == one[0];
        assert RecordedNames(props)[i] == extra[0];
      }
    }
  }

  /** The accessor part invokes only methods whose derived name is a template
      parameter and not a recorded property; each gives at most one step, an
      attempt under the derived name or the debug trace of its failure, so a
      throwing accessor never stops the binder. */
  lemma {:induction false} MethodStepsShape(methods: seq<Method>, recorded: seq<string>, params: seq<string>)
    ensures |MethodSteps(methods, recorded, params)| <= |methods|
    ensures var r := MethodSteps(methods, recorded, params);
      forall i :: 0 <= i < |r| ==> r[i].Attempt? || (r[i].Note? && r[i].event.InvokeFailed?)
    ensures var r := MethodSteps(methods, recorded, params);
      forall i :: 0 <= i < |r| && r[i].Attempt? ==>
        r[i].name.Some? && r[i].name.value in params && r[i].name.value !in recorded
    ensures var r := MethodSteps(methods, recorded, params);
      forall i :: 0 <= i < |r| && r[i].Note? ==>
        r[i].event.derivedName in params && r[i].event.derivedName !in recorded
    decreases |methods|
  {
    if methods != [] {
      var a := methods[..|methods| - 1];
      var m := methods[|methods| - 1];
      MethodStepsShape(a, recorded, params);
      var one := MethodStep(m, recorded, params);
      assert MethodSteps(methods, recorded, params) == MethodSteps(a, recorded, params) + one;
      if one != [] {
        assert |one| == 1;
        assert MethodSteps(methods, recorded, params)[|MethodSteps(a, recorded, params)|] == one[0];
      }
    }
  }

  /** For an object other than a dictionary, an exception escapes only from a
      throwing static getter of a wrapped type, and the only traces written without
      an `Add` are accessor failures. */
  lemma ObjectStepsShape(isTrue: Truthiness, ps: PSObject, params: seq<string>)
    ensures var r := ObjectSteps(isTrue, ps, params);
      forall i :: 0 <= i < |r| && r[i].Raise? ==>
        ps.baseObject.TypeObj? &&
        exists j :: 0 <= j < |ps.baseObject.t.staticProperties| && ps.baseObject.t.staticProperties[j].value == Threw(r[i].e)
    ensures var r := ObjectSteps(isTrue, ps, params);
      forall i :: 0 <= i < |r| && r[i].Note? ==> r[i].event.InvokeFailed?
  {
    var statics := if ps.baseObject.TypeObj? then StaticSteps(isTrue, ps.baseObject.t.staticProperties) else [];
    var props := PropertySteps(ps.properties);
    var meths := MethodSteps(ps.methods, RecordedNames(ps.properties), params);
    PropertyStepsShape(ps.properties);
    MethodStepsShape(ps.methods, RecordedNames(ps.properties), params);
    var r := ObjectSteps(isTrue, ps, params);
    assert r == statics + props + meths;
    forall i | 0 <= i < |r|
      ensures r[i].Raise? ==>
        ps.baseObject.TypeObj? &&
        exists j :: 0 <= j < |ps.baseObject.t.staticProperties| && ps.baseObject.t.staticProperties[j].value == Threw(r[i].e)
      ensures r[i].Note? ==> r[i].event.InvokeFailed?
    {
      if i < |statics| {
        var sp := ps.baseObject.t.staticProperties;
        assert r[i] == statics[i] == StaticStep(isTrue, sp[i]);
        if r[i].Raise? {
          assert sp[i].value == Threw(r[i].e);
        }
      } else if i < |statics| + |props| {
        assert r[i] == props[i - |statics|];
        assert r[i].Attempt?;
      } else {
        var k := i - |statics| - |props|;
        assert r[i] == meths[k];
        assert r[i].Attempt? || (r[i].Note? && r[i].event.InvokeFailed?);
      }
    }
  }

  /** The steps of the `Parameters` input: none without one; for a dictionary, one
      attempt per entry; otherwise the object's members, where only a static getter
      can raise and the only traces of their own are accessor failures. */
  lemma ArgumentStepsShape(isTrue: Truthiness, parameters: Option<PSObject>, params: seq<string>)
    ensures parameters.None? ==> ArgumentSteps(isTrue, parameters, params) == []
    ensures var r := ArgumentSteps(isTrue, parameters, params);
      parameters.Some? && parameters.value.baseObject.Dict? ==>
        |r| == |parameters.value.baseObject.entries| && forall i :: 0 <= i < |r| ==> r[i].Attempt?
    ensures var r := ArgumentSteps(isTrue, parameters, params);
      forall i :: 0 <= i < |r| && r[i].Raise? ==> parameters.Some? && parameters.value.baseObject.TypeObj?
    ensures var r := ArgumentSteps(isTrue, parameters, params);
      forall i :: 0 <= i < |r| && r[i].Note? ==> r[i].event.InvokeFailed?
  {
    if parameters.Some? && !parameters.value.baseObject.Dict? {
      ObjectStepsShape(isTrue, parameters.value, params);
    }
  }

  /** For a record whose binding does not stop, the verbose trace of
      `AddTemplateArgument` names exactly the attributes the engine stored and its
      debug trace exactly those the engine reported as undeclared. */
  lemma BinderTraces(isTrue: Truthiness, parameters: Option<PSObject>, params: seq<string>, t: Target,
                     n: Option<string>)
    requires var steps := ArgumentSteps(isTrue, parameters, params);
      forall j :: 0 <= j < |steps| ==> !IsFatal(steps[j], t)
    ensures var steps := ArgumentSteps(isTrue, parameters, params);
      AddedParameter(n, t.name) in Run(steps, t).events <==>
        exists j :: 0 <= j < |steps| && BoundAttempt(steps[j], t, n)
    ensures var steps := ArgumentSteps(isTrue, parameters, params);
      AttributeNotFound(n, t.name) in Run(steps, t).events <==>
        exists j :: 0 <= j < |steps| && SkippedAttempt(steps[j], t, n)
  {
    ArgumentStepsShape(isTrue, parameters, params);
    TracesFollowVerdicts(ArgumentSteps(isTrue, parameters, params), t, n);
  }
}
