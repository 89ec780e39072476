/**
 * TemplateInfo.cs and TemplateGroupInfo.cs: the PowerShell-facing wrappers
 * around an engine template instance and an engine group. The two refer to
 * each other, so they share one module.
 */
module Groups {

  import opened Wrappers
  import opened Text
  import opened Host
  import opened Engine

  /** The ANTLR token type whose texts `TemplateInfo.Parameters` lists. */
  const ParameterTokenType := 25

  /** `Regex.Replace(name, "^/", "")`: one leading "/" removed. */
  function StripRootSlash(name: string): (r: string)
    ensures StartsWith(name, "/") ==> "/" + r == name
    ensures !StartsWith(name, "/") ==> r == name
  {
    if StartsWith(name, "/") then name[1..] else name
  }

  /** The displayed name, re-qualified, is the engine name again: this is what lets
      `ResetInstance` find its own template by `Name`. */
  lemma StripThenQualify(q: string)
    requires RootName(q)
    ensures Qualify(StripRootSlash(q)) == q
  {
  }

  /** A bare identifier survives qualification and stripping unchanged. */
  lemma QualifyThenStrip(name: string)
    requires !StartsWith(name, "/")
    ensures StripRootSlash(Qualify(name)) == name
  {
    assert StartsWith(Qualify(name), "/");
    assert Qualify(name)[1..] == name;
  }

  /** The texts of the parameter-type tokens, in token order (`Where`/`Select`). */
  function ParameterTexts(tokens: seq<LexToken>): seq<string> {
    if tokens == [] then []
    else (if tokens[0].tokenType == ParameterTokenType then [tokens[0].text] else [])
         + ParameterTexts(tokens[1..])
  }

  /** `TemplateInfo.Parameters` for a token stream: empty when it is not buffered. */
  function ParameterNames(ts: TokenStream): (r: seq<string>)
    ensures ts.Unbuffered? ==> r == []
    ensures ts.Buffered? ==> r == ParameterTexts(ts.tokens)
  {
    if ts.Buffered? then ParameterTexts(ts.tokens) else []
  }

  /** The filter distributes over concatenation, so it keeps token order. */
  lemma {:induction false} ParameterTextsAppend(a: seq<LexToken>, b: seq<LexToken>)
    ensures ParameterTexts(a + b) == ParameterTexts(a) + ParameterTexts(b)
  {
    if a != [] {
      assert (a + b)[0] == a[0] && (a + b)[1..] == a[1..] + b;
      ParameterTextsAppend(a[1..], b);
      var head := if a[0].tokenType == ParameterTokenType then [a[0].text] else [];
      assert ParameterTexts(a + b) == head + (ParameterTexts(a[1..]) + ParameterTexts(b));
      assert ParameterTexts(a) == head + ParameterTexts(a[1..]);
    } else {
      assert a + b == b;
    }
  }

  /** A name is listed exactly when some token of the parameter type has that text. */
  lemma {:induction false} ParameterTextsMember(tokens: seq<LexToken>, x: string)
    ensures x in ParameterTexts(tokens) <==>
      exists i :: 0 <= i < |tokens| && tokens[i].tokenType == ParameterTokenType && tokens[i].text == x
  {
    if tokens != [] {
      ParameterTextsMember(tokens[1..], x);
      if x in ParameterTexts(tokens[1..]) {
        var i :| 0 <= i < |tokens[1..]| && tokens[1..][i].tokenType == ParameterTokenType && tokens[1..][i].text == x;
        assert tokens[i + 1] == tokens[1..][i];
      }
      if exists i :: 0 <= i < |tokens| && tokens[i].tokenType == ParameterTokenType && tokens[i].text == x {
        var i :| 0 <= i < |tokens| && tokens[i].tokenType == ParameterTokenType && tokens[i].text == x;
        if i > 0 {
          assert tokens[1..][i - 1] == tokens[i];
        }
      }
    }
  }

  /** One name per parameter-type token: the listing is never longer than the stream. */
  lemma {:induction false} ParameterTextsLength(tokens: seq<LexToken>)
    ensures |ParameterTexts(tokens)| <= |tokens|
    ensures (forall i :: 0 <= i < |tokens| ==> tokens[i].tokenType == ParameterTokenType) ==>
      |ParameterTexts(tokens)| == |tokens|
  {
    if tokens != [] {
      ParameterTextsLength(tokens[1..]);
      if forall i :: 0 <= i < |tokens| ==> tokens[i].tokenType == ParameterTokenType {
        assert tokens[0].tokenType == ParameterTokenType;
        assert forall i :: 0 <= i < |tokens[1..]| ==> tokens[1..][i].tokenType == ParameterTokenType by {
          forall i | 0 <= i < |tokens[1..]| ensures tokens[1..][i].tokenType == ParameterTokenType {
            assert tokens[1..][i] == tokens[i + 1];
          }
        }
      }
    }
  }

  /** A wrapper around the working instance of one template of a group. */
  class TemplateInfo {
    var instance: Template
    const group: TemplateGroupInfo

    constructor (templateInstance: Template, groupInfo: TemplateGroupInfo)
      ensures instance == templateInstance && group == groupInfo
    {
      instance := templateInstance;
      group := groupInfo;
    }

    /** The template's name without its root "/". */
    function Name(): string
      reads this
    {
      StripRootSlash(instance.Name())
    }

    /** The names the compiled template's lexer marked as parameters. */
    function Parameters(): seq<string>
      reads this
    {
      ParameterNames(instance.impl.tokens)
    }

    /** The instance belongs to this wrapper's group. */
    ghost predicate Valid()
      reads this, group.engine
    {
      group.engine.Valid() && instance.impl in group.engine.defs
    }

    /** `ResetInstance`: a fresh instance of the same template from the owning group
        replaces the current one, so no argument survives into the next invocation. */
    method ResetInstance()
      requires Valid()
      modifies this
      ensures Valid()
      ensures fresh(instance) && instance.impl == old(instance.impl) && instance.attributes == []
      ensures Name() == old(Name())
      ensures old(group.Valid()) && this in group.templates ==> group.Valid()
    {
      var e := group.engine;
      var k :| 0 <= k < |e.defs| && e.defs[k] == instance.impl;
      StripThenQualify(instance.impl.name);
      OwnNameFound(e.TemplateNames(), k);
      var t := e.GetInstanceOf(Name());
      instance := t;
    }
  }

  /** A wrapper around an engine group: one `TemplateInfo` per template of the group. */
  class TemplateGroupInfo {
    const engine: TemplateGroup
    var templates: seq<TemplateInfo>

    /** Every wrapper points back at this group and holds its own instance of the
        template at its position. */
    ghost predicate Valid()
      reads this, engine, set t | t in templates
    {
      engine.Valid() &&
      |templates| == |engine.defs| &&
      (forall i :: 0 <= i < |templates| ==>
        templates[i].group == this && templates[i].instance.impl == engine.defs[i]) &&
      forall t, u :: t in templates && u in templates && t != u ==> t.instance != u.instance
    }

    /** The constructor: a wrapper per name of `GetTemplateNames()`, in the same order. */
    constructor (e: TemplateGroup)
      requires e.Valid()
      ensures engine == e && Valid()
      ensures forall i :: 0 <= i < |templates| ==>
        fresh(templates[i]) && fresh(templates[i].instance) && templates[i].instance.attributes == []
      ensures forall i, j :: 0 <= i < j < |templates| ==> templates[i] != templates[j]
    {
      engine := e;
      templates := [];
      new;
      var names := e.TemplateNames();
      var made: seq<TemplateInfo> := [];
      for i := 0 to |names|
        invariant |made| == i
        invariant forall k :: 0 <= k < i ==>
          fresh(made[k]) && fresh(made[k].instance) && made[k].group == this &&
          made[k].instance.impl == e.defs[k] && made[k].instance.attributes == []
        invariant forall k, j :: 0 <= k < j < i ==> made[k] != made[j]
        invariant forall t, u :: t in made && u in made && t != u ==> t.instance != u.instance
      {
        var info := NewWrapper(e, i);
        made := made + [info];
      }
      templates := made;
    }

    /** `new TemplateInfo(group.GetInstanceOf(name), this)` for the `i`-th name of `e`. */
    method NewWrapper(e: TemplateGroup, i: nat) returns (info: TemplateInfo)
      requires e.Valid() && i < |e.defs|
      ensures fresh(info) && fresh(info.instance)
      ensures info.group == this && info.instance.impl == e.defs[i] && info.instance.attributes == []
    {
      var names := e.TemplateNames();
      OwnNameFound(names, i);
      var t := e.GetInstanceOf(names[i]);
      info := new TemplateInfo(t, this);
    }

    /** The displayed names of the templates, in order. */
    function TemplateNames(): (r: seq<string>)
      reads this, set t | t in templates
      ensures |r| == |templates| && forall i :: 0 <= i < |templates| ==> r[i] == templates[i].Name()
    {
      seq(|templates|, i requires 0 <= i < |templates| reads this, set t | t in templates => templates[i].Name())
    }

    method Bind(context: object)
      requires engine.Valid()
      modifies engine
      ensures engine.Valid() && BoundBy(engine, old(engine.adaptors), old(engine.renderers), context)
      ensures engine.defs == old(engine.defs)
      ensures old(Valid()) ==> Valid()
    {
      BindGroup(engine, context);
    }

    /** The private static `Bind`: the cmdlet's error listener, the two model
        adaptors and the two date renderers. */
    static method BindGroup(group: TemplateGroup, context: object)
      requires group.Valid()
      modifies group
      ensures group.Valid() && BoundBy(group, old(group.adaptors), old(group.renderers), context)
      ensures group.defs == old(group.defs)
    {
      group.SetListener(CmdletErrorListener(context));
      group.RegisterModelAdaptor(PSObjectClass, PSObjectModelAdaptor);
      group.RegisterModelAdaptor(TypeClass, TypeModelAdaptor);
      group.RegisterRenderer(DateTimeClass, DateRenderer);
      group.RegisterRenderer(DateTimeOffsetClass, DateRenderer);
    }

    /** `Unbind`: only the listener goes back to the default; registrations stay. */
    method Unbind()
      modifies engine
      ensures engine.listener == DefaultErrorListener
      ensures engine.defs == old(engine.defs) && engine.adaptors == old(engine.adaptors)
      ensures engine.renderers == old(engine.renderers)
      ensures old(Valid()) ==> Valid()
    {
      engine.SetListener(DefaultErrorListener);
    }

    /** `CreateFromTemplateDefinition`: an empty group is bound first, then gets one
        template under the default name, compiled from the definition, whose
        `HasFormalArgs` is then cleared. */
    static method CreateFromTemplateDefinition(context: object, definition: string,
                                               compile: string -> Compiled, defaultName: string)
      returns (g: TemplateGroupInfo)
      requires RootName(Qualify(defaultName))
      ensures fresh(g) && fresh(g.engine) && g.Valid()
      ensures |g.templates| == 1 && g.templates[0].instance.attributes == []
      ensures fresh(g.templates[0]) && fresh(g.templates[0].instance)
      ensures g.engine.defs[0].name == Qualify(defaultName)
      ensures g.engine.defs[0].tokens == compile(definition).tokens
      ensures g.engine.defs[0].accepts == compile(definition).accepts
      ensures g.engine.defs[0].render == compile(definition).render
      ensures !g.engine.defs[0].hasFormalArgs
      ensures g.engine.listener == CmdletErrorListener(context)
      ensures BoundBy(g.engine, map[], map[], context)
    {
      var group := new TemplateGroup([]);
      BindGroup(group, context);
      var impl := group.DefineTemplate(defaultName, compile(definition));
      OwnNameFound(group.TemplateNames(), 0);
      var t := group.GetInstanceOf(defaultName);
      t.impl.hasFormalArgs := false;
      g := new TemplateGroupInfo(group);
    }

    /** `CreateFromGroupDefinition`: the parsed group is bound, then wrapped. */
    static method CreateFromGroupDefinition(context: object, groupDefinition: string,
                                            parse: string -> seq<(string, Compiled)>)
      returns (g: TemplateGroupInfo)
      requires var p := parse(groupDefinition);
        forall i, j :: 0 <= i < j < |p| ==> Qualify(p[i].0) != Qualify(p[j].0)
      requires var p := parse(groupDefinition);
        forall i :: 0 <= i < |p| ==> RootName(Qualify(p[i].0))
      ensures fresh(g) && fresh(g.engine) && g.Valid()
      ensures |g.templates| == |parse(groupDefinition)|
      ensures forall i :: 0 <= i < |g.templates| ==>
        fresh(g.templates[i]) && fresh(g.templates[i].instance) && g.templates[i].instance.attributes == []
      ensures var p := parse(groupDefinition);
        forall i :: 0 <= i < |p| ==>
          g.templates[i].instance.impl == g.engine.defs[i] &&
          g.engine.defs[i].name == Qualify(p[i].0) && g.engine.defs[i].tokens == p[i].1.tokens &&
          g.engine.defs[i].accepts == p[i].1.accepts && g.engine.defs[i].render == p[i].1.render &&
          g.engine.defs[i].hasFormalArgs == p[i].1.hasFormalArgs
      ensures g.engine.listener == CmdletErrorListener(context)
      ensures BoundBy(g.engine, map[], map[], context)
    {
      var group := new TemplateGroup(parse(groupDefinition));
      BindGroup(group, context);
      g := new TemplateGroupInfo(group);
    }
  }

  /** The state `Bind` leaves: the cmdlet's listener, and the registries extended
      with the PSObject and Type adaptors and the DateTime/DateTimeOffset renderers. */
  ghost predicate BoundBy(group: TemplateGroup, adaptorsBefore: map<HostType, ModelAdaptor>,
                          renderersBefore: map<HostType, AttributeRenderer>, context: object)
    reads group
  {
    group.listener == CmdletErrorListener(context) &&
    group.adaptors == WithModelAdaptors(adaptorsBefore) &&
    group.renderers == WithDateRenderers(renderersBefore)
  }

  /** The adaptor registry after `Bind`: PSObject and Type values get the core's adaptors. */
  function WithModelAdaptors(m: map<HostType, ModelAdaptor>): map<HostType, ModelAdaptor> {
    m[PSObjectClass := PSObjectModelAdaptor][TypeClass := TypeModelAdaptor]
  }

  /** The renderer registry after `Bind`: both date types get the date renderer. */
  function WithDateRenderers(m: map<HostType, AttributeRenderer>): map<HostType, AttributeRenderer> {
    m[DateTimeClass := DateRenderer][DateTimeOffsetClass := DateRenderer]
  }
}
