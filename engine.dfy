/**
 * The part of the StringTemplate engine the core talks to, as a stand-in:
 * compiled templates, template instances that collect attributes, and the
 * group that owns the templates, the listener and the adaptor and renderer
 * registries. What an `Add` or a `Render` decides is the engine's business and
 * is carried as a foreign function on the compiled template.
 */
module Engine {

  import opened Wrappers
  import opened Text
  import opened Host

  /** An attribute as handed to `Template.Add`: a name (possibly null) and a value. */
  type Attribute = (Option<string>, Value)

  /** What `Template.Add` did: stored the attribute, or threw. */
  datatype AddResult = Added | AddFailed(e: Exn)

  /** What `Template.Render` did: produced a string (possibly null), or threw. */
  datatype RenderResult = Rendered(text: Option<string>) | RenderFailed(e: Exn)

  /** A lexer token of the compiled template: its ANTLR token type and text. */
  datatype LexToken = LexToken(tokenType: int, text: string)

  /** `CompiledTemplate.Tokens`: a `BufferedTokenStream`, or a stream of another class. */
  datatype TokenStream = Buffered(tokens: seq<LexToken>) | Unbuffered

  /** What the engine's compiler produces from template source text. */
  datatype Compiled = Compiled(
    tokens: TokenStream,
    hasFormalArgs: bool,
    accepts: (bool, Option<string>, Value) -> AddResult,
    render: seq<Attribute> -> RenderResult)

  /** The fully qualified form of a template name: a leading "/" is added when missing. */
  function Qualify(name: string): (q: string)
    ensures StartsWith(q, "/")
    ensures StartsWith(name, "/") ==> q == name
  {
    if StartsWith(name, "/") then name else "/" + name
  }

  /** A fully qualified name with exactly one root "/" (what the group parser and
      `DefineTemplate` produce from a template identifier). */
  predicate RootName(q: string) {
    StartsWith(q, "/") && !StartsWith(q[1..], "/")
  }

  /** A compiled template (`impl`), shared by every instance of it. */
  class CompiledTemplate {
    const name: string
    const tokens: TokenStream
    /** The engine's decision on `Add(name, value)` given the current `HasFormalArgs`. */
    const accepts: (bool, Option<string>, Value) -> AddResult
    const render: seq<Attribute> -> RenderResult
    var hasFormalArgs: bool

    constructor (name: string, c: Compiled)
      ensures this.name == name && tokens == c.tokens && accepts == c.accepts
      ensures render == c.render && hasFormalArgs == c.hasFormalArgs
    {
      this.name := name;
      tokens := c.tokens;
      accepts := c.accepts;
      render := c.render;
      hasFormalArgs := c.hasFormalArgs;
    }
  }

  /** A template instance: the attributes added to it so far. */
  class Template {
    const impl: CompiledTemplate
    var attributes: seq<Attribute>

    constructor (impl: CompiledTemplate)
      ensures this.impl == impl && attributes == []
    {
      this.impl := impl;
      attributes := [];
    }

    /** `Template.Name`, the fully qualified name. */
    function Name(): string {
      impl.name
    }

    method Add(name: Option<string>, value: Value) returns (r: AddResult)
      modifies this
      ensures r == impl.accepts(impl.hasFormalArgs, name, value)
      ensures attributes == if r.Added? then old(attributes) + [(name, value)] else old(attributes)
    {
      r := impl.accepts(impl.hasFormalArgs, name, value);
      if r.Added? {
        attributes := attributes + [(name, value)];
      }
    }

    method Render() returns (r: RenderResult)
      ensures r == impl.render(attributes)
    {
      r := impl.render(attributes);
    }
  }

  /** `TemplateGroup.Listener`: the engine's default listener or one bound to a cmdlet. */
  datatype Listener = DefaultErrorListener | CmdletErrorListener(context: object)

  /** The runtime types the core registers adaptors and renderers for. */
  datatype HostType = PSObjectClass | TypeClass | DateTimeClass | DateTimeOffsetClass | OtherClass(id: nat)

  datatype ModelAdaptor = PSObjectModelAdaptor | TypeModelAdaptor | ObjectModelAdaptor

  datatype AttributeRenderer = DateRenderer | OtherRenderer(id: nat)

  /** No name occurs twice. */
  predicate Distinct(names: seq<string>) {
    forall i, j :: 0 <= i < j < |names| ==> names[i] != names[j]
  }

  /** `c` is what the engine made of the parsed template `p`: the definition under
      its qualified name. */
  ghost predicate MadeFrom(c: CompiledTemplate, p: (string, Compiled))
    reads c
  {
    c.name == Qualify(p.0) && c.tokens == p.1.tokens && c.accepts == p.1.accepts &&
    c.render == p.1.render && c.hasFormalArgs == p.1.hasFormalArgs
  }

  class TemplateGroup {
    var defs: seq<CompiledTemplate>
    var listener: Listener
    var adaptors: map<HostType, ModelAdaptor>
    var renderers: map<HostType, AttributeRenderer>

    /** Every template has a distinct fully qualified name. */
    ghost predicate Valid()
      reads this
    {
      Distinct(TemplateNames()) && forall i :: 0 <= i < |defs| ==> RootName(defs[i].name)
    }

    /** `GetTemplateNames()`, in definition order. */
    function TemplateNames(): (r: seq<string>)
      reads this
      ensures |r| == |defs| && forall i :: 0 <= i < |defs| ==> r[i] == defs[i].name
    {
      seq(|defs|, i requires 0 <= i < |defs| reads this => defs[i].name)
    }

    /** A group holding the parsed definitions `parsed` (a `TemplateGroupString`). */
    constructor (parsed: seq<(string, Compiled)>)
      requires forall i, j :: 0 <= i < j < |parsed| ==> Qualify(parsed[i].0) != Qualify(parsed[j].0)
      requires forall i :: 0 <= i < |parsed| ==> RootName(Qualify(parsed[i].0))
      ensures Valid()
      ensures |defs| == |parsed|
      ensures forall i :: 0 <= i < |parsed| ==>
        defs[i].name == Qualify(parsed[i].0) && defs[i].tokens == parsed[i].1.tokens
      ensures forall i :: 0 <= i < |parsed| ==>
        defs[i].accepts == parsed[i].1.accepts && defs[i].render == parsed[i].1.render &&
        defs[i].hasFormalArgs == parsed[i].1.hasFormalArgs
      ensures forall i :: 0 <= i < |parsed| ==> fresh(defs[i])
      ensures listener == DefaultErrorListener && adaptors == map[] && renderers == map[]
    {
      listener := DefaultErrorListener;
      adaptors := map[];
      renderers := map[];
      var made: seq<CompiledTemplate> := [];
      for i := 0 to |parsed|
        invariant |made| == i
        invariant forall k :: 0 <= k < i ==> MadeFrom(made[k], parsed[k]) && fresh(made[k])
      {
        var impl := new CompiledTemplate(Qualify(parsed[i].0), parsed[i].1);
        made := made + [impl];
      }
      defs := made;
    }

    /** `DefineTemplate(name, source)`, given what the compiler made of the source. */
    method DefineTemplate(name: string, c: Compiled) returns (impl: CompiledTemplate)
      requires Valid() && RootName(Qualify(name)) && Qualify(name) !in TemplateNames()
      modifies this
      ensures Valid() && fresh(impl)
      ensures defs == old(defs) + [impl]
      ensures impl.name == Qualify(name) && impl.tokens == c.tokens && impl.hasFormalArgs == c.hasFormalArgs
      ensures impl.accepts == c.accepts && impl.render == c.render
      ensures listener == old(listener) && adaptors == old(adaptors) && renderers == old(renderers)
    {
      impl := new CompiledTemplate(Qualify(name), c);
      defs := defs + [impl];
      assert TemplateNames() == old(TemplateNames()) + [impl.name];
    }

    /** `GetInstanceOf(name)`: a fresh instance of the template with that (qualified) name, or null. */
    method GetInstanceOf(name: string) returns (t: Template?)
      ensures IndexOf(TemplateNames(), Qualify(name)).None? ==> t == null
      ensures IndexOf(TemplateNames(), Qualify(name)).Some? ==>
        t != null && fresh(t) && t.impl == defs[IndexOf(TemplateNames(), Qualify(name)).value] &&
        t.attributes == []
    {
      var k := IndexOf(TemplateNames(), Qualify(name));
      if k.None? {
        t := null;
      } else {
        t := new Template(defs[k.value]);
      }
    }

    method RegisterModelAdaptor(forType: HostType, adaptor: ModelAdaptor)
      modifies this
      ensures adaptors == old(adaptors)[forType := adaptor]
      ensures defs == old(defs) && listener == old(listener) && renderers == old(renderers)
    {
      adaptors := adaptors[forType := adaptor];
    }

    method RegisterRenderer(forType: HostType, renderer: AttributeRenderer)
      modifies this
      ensures renderers == old(renderers)[forType := renderer]
      ensures defs == old(defs) && listener == old(listener) && adaptors == old(adaptors)
    {
      renderers := renderers[forType := renderer];
    }

    method SetListener(l: Listener)
      modifies this
      ensures listener == l
      ensures defs == old(defs) && adaptors == old(adaptors) && renderers == old(renderers)
    {
      listener := l;
    }
  }

  /** In a valid group, looking up a template's own qualified name finds that template. */
  lemma OwnNameFound(g: seq<string>, i: nat)
    requires Distinct(g) && i < |g|
    ensures IndexOf(g, g[i]) == Some(i)
  {
  }
}
